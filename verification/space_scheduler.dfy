/**
 * The Space Scheduler widget: date keys, the month grid and its per-day
 * buckets, the alarm check over the loaded events, the pending-alarm list
 * and the event create/toggle/delete mediation. The event store is
 * abstracted to the list of calls the widget issues; whether a call
 * succeeds, the clock, and the signed-in user are inputs.
 */
module SpaceScheduler {
  import opened Wrappers
  import opened Text

  // ---------------------------------------------------------------------
  // Data model
  // ---------------------------------------------------------------------

  /** An event as the widget holds it: `{ id: doc.id, ...doc.data() }`. */
  datatype Event = Event(
    id: string,
    text: string,
    date: string,
    alarmTime: Option<string>,
    completed: bool,
    alarmTriggered: bool,
    userId: string,
    createdAt: string)

  /** The fields of a stored document; `idField` is an `id` field in the data itself, if any. */
  datatype EventData = EventData(
    idField: Option<string>,
    text: string,
    date: string,
    alarmTime: Option<string>,
    completed: bool,
    alarmTriggered: bool,
    userId: string,
    createdAt: string)

  /** One document of a store snapshot. */
  datatype Doc = Doc(docId: string, data: EventData)

  /** The calls the widget issues to the event store. */
  datatype StoreCall =
    | AddDoc(data: EventData)
    | UpdateCompleted(id: string, completed: bool)
    | UpdateAlarmTriggered(id: string)
    | DeleteDoc(id: string)

  /** The local clock at a poll: `getFullYear`, `getMonth` (0-based), `getDate`, hours and minutes. */
  datatype Clock = Clock(year: nat, monthIndex: nat, day: nat, hour: nat, minute: nat)

  // ---------------------------------------------------------------------
  // Calendar
  // ---------------------------------------------------------------------

  predicate IsLeapYear(y: nat) {
    (y % 4 == 0 && y % 100 != 0) || y % 400 == 0
  }

  /** The year `new Date(y, m, d)` uses: two-digit years 0..99 denote 1900..1999. */
  function DateConstructorYear(y: nat): nat {
    if y <= 99 then 1900 + y else y
  }

  /** `new Date(year, monthIndex + 1, 0).getDate()`: the last day of month `monthIndex` (0-based). */
  function DaysInMonth(year: nat, monthIndex: nat): (n: nat)
    requires monthIndex < 12
    ensures 28 <= n <= 31
  {
    if monthIndex == 1 then (if IsLeapYear(DateConstructorYear(year)) then 29 else 28)
    else if monthIndex == 3 || monthIndex == 5 || monthIndex == 8 || monthIndex == 10 then 30
    else 31
  }

  /** Sum of the lengths of months 0..k-1 of a year. */
  function DaysBefore(year: nat, k: nat): nat
    requires k <= 12
  {
    if k == 0 then 0 else DaysBefore(year, k - 1) + DaysInMonth(year, k - 1)
  }

  /** The twelve month lengths add up to 366 in a Gregorian leap year and 365 otherwise. */
  lemma YearLength(year: nat)
    ensures DaysBefore(year, 12) == if IsLeapYear(DateConstructorYear(year)) then 366 else 365
  {
    var feb := DaysInMonth(year, 1);
    assert DaysBefore(year, 1) == 31;
    assert DaysBefore(year, 2) == 31 + feb;
    assert DaysBefore(year, 3) == 62 + feb;
    assert DaysBefore(year, 4) == 92 + feb;
    assert DaysBefore(year, 5) == 123 + feb;
    assert DaysBefore(year, 6) == 153 + feb;
    assert DaysBefore(year, 7) == 184 + feb;
    assert DaysBefore(year, 8) == 215 + feb;
    assert DaysBefore(year, 9) == 245 + feb;
    assert DaysBefore(year, 10) == 276 + feb;
    assert DaysBefore(year, 11) == 306 + feb;
  }

  /** February has 29 days exactly in leap years; every other month has a fixed length. */
  lemma FebruaryLeap(year: nat)
    ensures DaysInMonth(year, 1) == 29 <==> IsLeapYear(DateConstructorYear(year))
    ensures forall m :: 0 <= m < 12 && m != 1 ==> DaysInMonth(year, m) >= 30
  {
  }

  /** `days`: the day numbers 1..N of the displayed month. */
  function MonthDays(year: nat, monthIndex: nat): (days: seq<nat>)
    requires monthIndex < 12
    ensures |days| == DaysInMonth(year, monthIndex)
    ensures forall i :: 0 <= i < |days| ==> days[i] == i + 1
  {
    seq(DaysInMonth(year, monthIndex), i => i + 1)
  }

  // ---------------------------------------------------------------------
  // Date keys
  // ---------------------------------------------------------------------

  /** Reads `YYYY-MM-DD` back: a digit run, a dash, two digits, a dash, two digits. */
  function ParseDateKey(s: string): Option<(nat, nat, nat)> {
    if |s| >= 7 && s[|s| - 6] == '-' && s[|s| - 3] == '-'
       && AllDigits(s[..|s| - 6]) && AllDigits(s[|s| - 5..|s| - 3]) && AllDigits(s[|s| - 2..])
    then Some((DigitsValue(s[..|s| - 6]), DigitsValue(s[|s| - 5..|s| - 3]), DigitsValue(s[|s| - 2..])))
    else None
  }

  /** A digit run, a dash and two two-digit fields read back as their three values. */
  lemma ParseJoinedKey(y: string, m: string, d: string)
    requires |y| >= 1 && |m| == 2 && |d| == 2 && AllDigits(y) && AllDigits(m) && AllDigits(d)
    ensures ParseDateKey(y + "-" + m + "-" + d) == Some((DigitsValue(y), DigitsValue(m), DigitsValue(d)))
  {
    KeyParts(y, m, d);
  }

  /** The three fields of `y-m-d` with two-character `m` and `d` can be cut back out. */
  lemma KeyParts(y: string, m: string, d: string)
    requires |m| == 2 && |d| == 2
    ensures var key := y + "-" + m + "-" + d;
      |key| == |y| + 6 && key[|key| - 6] == '-' && key[|key| - 3] == '-'
      && key[..|key| - 6] == y && key[|key| - 5..|key| - 3] == m && key[|key| - 2..] == d
  {
    var key := y + "-" + m + "-" + d;
    var n := |y|;
    assert |key| == n + 6;
    assert key[n] == '-' && key[n + 3] == '-';
    assert key[..n] == y;
    assert key[n + 1..n + 3] == m;
    assert key[n + 4..] == d;
  }

  /** `formatDate`: the year, then the 1-based month and the day each padded to two digits. */
  function FormatDate(year: nat, monthIndex: nat, day: nat): (key: string)
    requires monthIndex < 12 && 1 <= day <= 31
    ensures |key| == |Decimal(year)| + 6
    ensures key[|key| - 6] == '-' && key[|key| - 3] == '-'
  {
    var y, m, d := Decimal(year), TwoDigits(monthIndex + 1), TwoDigits(day);
    KeyParts(y, m, d);
    y + "-" + m + "-" + d
  }

  /** A key reads back as the year, the 1-based month and the day it was built from. */
  lemma FormatDateRoundTrip(year: nat, monthIndex: nat, day: nat)
    requires monthIndex < 12 && 1 <= day <= 31
    ensures ParseDateKey(FormatDate(year, monthIndex, day)) == Some((year, monthIndex + 1, day))
  {
    DecimalValue(year);
    ParseJoinedKey(Decimal(year), TwoDigits(monthIndex + 1), TwoDigits(day));
  }

  /** Two dates have the same key only if they are the same date. */
  lemma FormatDateInjective(y1: nat, m1: nat, d1: nat, y2: nat, m2: nat, d2: nat)
    requires m1 < 12 && 1 <= d1 <= 31 && m2 < 12 && 1 <= d2 <= 31
    requires FormatDate(y1, m1, d1) == FormatDate(y2, m2, d2)
    ensures y1 == y2 && m1 == m2 && d1 == d2
  {
    FormatDateRoundTrip(y1, m1, d1);
    FormatDateRoundTrip(y2, m2, d2);
  }

  /** `now.toTimeString().substring(0, 5)`: two-digit hours, a colon, two-digit minutes. */
  function ClockTime(hour: nat, minute: nat): (t: string)
    requires hour < 24 && minute < 60
    ensures |t| == 5 && t[2] == ':'
  {
    var hh, mm := TwoDigits(hour), TwoDigits(minute);
    ClockParts(hh, mm);
    hh + ":" + mm
  }

  /** The two fields of `a:b` with two-character `a` and `b` can be cut back out. */
  lemma ClockParts(a: string, b: string)
    requires |a| == 2 && |b| == 2
    ensures var t := a + ":" + b; |t| == 5 && t[2] == ':' && t[..2] == a && t[3..] == b
  {
    var t := a + ":" + b;
    assert t[..2] == a;
    assert t[3..] == b;
  }

  /** The two fields of `HH:MM` are the digits of the hour and of the minute. */
  lemma ClockTimeRoundTrip(hour: nat, minute: nat)
    requires hour < 24 && minute < 60
    ensures var t := ClockTime(hour, minute);
            AllDigits(t[..2]) && DigitsValue(t[..2]) == hour && AllDigits(t[3..]) && DigitsValue(t[3..]) == minute
  {
    ClockParts(TwoDigits(hour), TwoDigits(minute));
  }

  predicate ValidClock(c: Clock) {
    c.monthIndex < 12 && 1 <= c.day <= DaysInMonth(c.year, c.monthIndex) && c.hour < 24 && c.minute < 60
  }

  /** `key` reads back as the date `year`, `month` (1-based), `day`. */
  ghost predicate KeyOf(key: string, year: nat, month: nat, day: nat) {
    ParseDateKey(key) == Some((year, month, day))
  }

  /** The key of a day of a month, which reads back as that date. */
  function DayKey(year: nat, monthIndex: nat, day: nat): (key: string)
    requires monthIndex < 12 && 1 <= day <= 31
    ensures KeyOf(key, year, monthIndex + 1, day)
  {
    FormatDateRoundTrip(year, monthIndex, day);
    FormatDate(year, monthIndex, day)
  }

  /** `formatDate(now)`: the key of the clock's date, which reads back as that date. */
  function Today(c: Clock): (key: string)
    requires ValidClock(c)
    ensures KeyOf(key, c.year, c.monthIndex + 1, c.day)
  {
    DayKey(c.year, c.monthIndex, c.day)
  }

  /** The clock's `HH:MM`, whose two fields read back as the hour and the minute. */
  function Now(c: Clock): (t: string)
    requires ValidClock(c)
    ensures |t| == 5 && t[2] == ':'
    ensures AllDigits(t[..2]) && DigitsValue(t[..2]) == c.hour
    ensures AllDigits(t[3..]) && DigitsValue(t[3..]) == c.minute
  {
    ClockTimeRoundTrip(c.hour, c.minute);
    ClockTime(c.hour, c.minute)
  }

  // ---------------------------------------------------------------------
  // Month grid
  // ---------------------------------------------------------------------

  /** `events.filter(e => e.date === key)`. */
  function EventsOn(events: seq<Event>, key: string): (r: seq<Event>)
    ensures |r| <= |events|
    ensures forall e :: e in r <==> e in events && e.date == key
  {
    if events == [] then []
    else EventsOn(events[..|events| - 1], key)
         + (if events[|events| - 1].date == key then [events[|events| - 1]] else [])
  }

  datatype Dot = Green | Yellow

  /** The marks under a day number: up to three dots and an overflow marker. */
  datatype Indicator = Indicator(dots: seq<Dot>, overflow: bool)

  /** A day's marks, or none at all when the day has no events. */
  function CellIndicator(dayEvents: seq<Event>): (r: Option<Indicator>)
    ensures r.None? <==> dayEvents == []
    ensures r.Some? ==> |r.value.dots| == (if |dayEvents| < 3 then |dayEvents| else 3)
    ensures r.Some? ==> forall i :: 0 <= i < |r.value.dots| ==>
                          (r.value.dots[i] == Green <==> dayEvents[i].completed)
    ensures r.Some? ==> (r.value.overflow <==> |dayEvents| > 3)
  {
    if dayEvents == [] then None
    else
      var shown := if |dayEvents| < 3 then dayEvents else dayEvents[..3];
      Some(Indicator(seq(|shown|, i requires 0 <= i < |shown| => if shown[i].completed then Green else Yellow),
                     |dayEvents| > 3))
  }

  /** One day cell of the grid. */
  datatype Cell = Cell(day: nat, key: string, events: seq<Event>, indicator: Option<Indicator>,
                       isToday: bool, isSelected: bool)

  /**
   * The cell of day `day` of the month of `today`: its key reads back as that date, it lists
   * the events dated with that key, shows marks iff there is one, and is highlighted as today
   * or as selected exactly when it is.
   */
  function DayCell(today: Clock, events: seq<Event>, selectedDate: Option<string>, day: nat): (cell: Cell)
    requires ValidClock(today) && 1 <= day <= 31
    ensures cell.day == day && cell.key == FormatDate(today.year, today.monthIndex, day)
    ensures cell.events == EventsOn(events, cell.key) && cell.indicator == CellIndicator(cell.events)
    ensures cell.isToday <==> day == today.day
    ensures cell.isSelected <==> selectedDate == Some(cell.key)
  {
    var key := FormatDate(today.year, today.monthIndex, day);
    var dayEvents := EventsOn(events, key);
    Cell(day, key, dayEvents, CellIndicator(dayEvents), day == today.day, selectedDate == Some(key))
  }

  /** A cell lists exactly the events dated on its key, and shows no indicator exactly when there are none. */
  lemma DayCellContents(today: Clock, events: seq<Event>, selectedDate: Option<string>, day: nat)
    requires ValidClock(today) && 1 <= day <= 31
    ensures var cell := DayCell(today, events, selectedDate, day);
      (forall e :: e in cell.events <==> e in events && e.date == cell.key)
      && (cell.indicator.None? <==> forall e :: e in events ==> e.date != cell.key)
  {
    var cell := DayCell(today, events, selectedDate, day);
    // an empty bucket has no first event
    assert cell.events != [] ==> cell.events[0] in cell.events;
  }

  /** The rendered grid of the month containing `today`: one cell per day, in day order. */
  function Grid(today: Clock, events: seq<Event>, selectedDate: Option<string>): (cells: seq<Cell>)
    requires ValidClock(today)
    ensures |cells| == DaysInMonth(today.year, today.monthIndex)
    ensures forall i :: 0 <= i < |cells| ==> cells[i] == DayCell(today, events, selectedDate, i + 1)
  {
    // `days.map(day => ...)`, where day `i + 1` sits at index `i`
    var n := |MonthDays(today.year, today.monthIndex)|;
    MapDays(n, d requires 1 <= d <= 31 => DayCell(today, events, selectedDate, d))
  }

  /** `days.map(f)` over the days `1..n`: entry `i` is `f(i + 1)`. */
  function MapDays(n: nat, f: nat --> Cell): (cells: seq<Cell>)
    requires forall d :: 1 <= d <= n ==> f.requires(d)
    ensures |cells| == n
    ensures forall i :: 0 <= i < n ==> cells[i] == f(i + 1)
  {
    if n == 0 then []
    else
      var front := MapDays(n - 1, f);
      var r := front + [f(n)];
      assert forall i :: 0 <= i < n - 1 ==> r[i] == front[i];
      r
  }

  /** An event dated on day `d` of the displayed month is listed under cell `d` and no other. */
  lemma EventInExactlyOneCell(today: Clock, events: seq<Event>, selectedDate: Option<string>, e: Event, d: nat)
    requires ValidClock(today) && e in events
    requires 1 <= d <= DaysInMonth(today.year, today.monthIndex)
    requires e.date == FormatDate(today.year, today.monthIndex, d)
    ensures forall i :: 0 <= i < |Grid(today, events, selectedDate)| ==>
              (e in Grid(today, events, selectedDate)[i].events <==> i == d - 1)
  {
    forall i | 0 <= i < |Grid(today, events, selectedDate)| {
      GridCellBucket(today, events, selectedDate, e, d, i);
    }
  }

  lemma GridCellBucket(today: Clock, events: seq<Event>, selectedDate: Option<string>, e: Event, d: nat, i: nat)
    requires ValidClock(today) && e in events
    requires 1 <= d <= DaysInMonth(today.year, today.monthIndex)
    requires e.date == FormatDate(today.year, today.monthIndex, d)
    requires i < |Grid(today, events, selectedDate)|
    ensures e in Grid(today, events, selectedDate)[i].events <==> i == d - 1
  {
    DayBucket(today.year, today.monthIndex, events, e, d, i + 1);
  }

  /** An event whose date is not a key of the displayed month appears in no cell. */
  lemma EventOutsideMonthNowhere(today: Clock, events: seq<Event>, selectedDate: Option<string>, e: Event)
    requires ValidClock(today)
    requires forall d :: 1 <= d <= DaysInMonth(today.year, today.monthIndex) ==>
               e.date != FormatDate(today.year, today.monthIndex, d)
    ensures forall c :: c in Grid(today, events, selectedDate) ==> e !in c.events
  {
  }

  /** The bucket of day `c` holds an event dated on day `d` of the same month exactly when `c == d`. */
  lemma DayBucket(year: nat, monthIndex: nat, events: seq<Event>, e: Event, d: nat, c: nat)
    requires monthIndex < 12 && 1 <= d <= 31 && 1 <= c <= 31 && e in events
    requires e.date == FormatDate(year, monthIndex, d)
    ensures e in EventsOn(events, FormatDate(year, monthIndex, c)) <==> c == d
  {
    if e.date == FormatDate(year, monthIndex, c) {
      FormatDateInjective(year, monthIndex, c, year, monthIndex, d);
    }
  }

  /** Filtering a concatenation filters each part: a bucket keeps the list's order and repeats. */
  lemma {:induction false} EventsOnConcat(a: seq<Event>, b: seq<Event>, key: string)
    ensures EventsOn(a + b, key) == EventsOn(a, key) + EventsOn(b, key)
  {
    if b != [] {
      var n := |b| - 1;
      assert (a + b)[..|a + b| - 1] == a + b[..n];
      EventsOnConcat(a, b[..n], key);
    } else {
      assert a + b == a;
    }
  }

  /** Five events on one day with two completed among the first three: three dots, two green, and the overflow marker. */
  lemma {:induction false} FiveEventsOneDay(dayEvents: seq<Event>)
    requires |dayEvents| == 5
    requires dayEvents[0].completed && dayEvents[1].completed && !dayEvents[2].completed
    ensures CellIndicator(dayEvents) == Some(Indicator([Green, Green, Yellow], true))
  {
    var r := CellIndicator(dayEvents).value;
    assert r.dots[0] == Green && r.dots[1] == Green && r.dots[2] == Yellow;
    assert r.dots == [Green, Green, Yellow];
  }

  // ---------------------------------------------------------------------
  // Alarms
  // ---------------------------------------------------------------------

  /** `alarms.some(a => a.id === id)`: some alarm in the list carries the id. */
  predicate HasId(alarms: seq<Event>, id: string) {
    exists i :: 0 <= i < |alarms| && alarms[i].id == id
  }

  /**
   * The condition under which a poll triggers an event's alarm: an event without an alarm,
   * already triggered, or already pending is never due, and a due event is dated today with
   * its alarm set to this minute.
   */
  predicate IsDue(e: Event, today: string, now: string, pending: seq<Event>) {
    e.date == today && e.alarmTime == Some(now) && !e.alarmTriggered && !HasId(pending, e.id)
  }

  /**
   * An event is due in a single minute of the day: at a clock whose hour or minute differs it is
   * not due, whatever the pending list then holds.
   */
  lemma DueOnlyInItsMinute(e: Event, c1: Clock, c2: Clock, p1: seq<Event>, p2: seq<Event>)
    requires ValidClock(c1) && ValidClock(c2) && IsDue(e, Today(c1), Now(c1), p1)
    requires c1.hour != c2.hour || c1.minute != c2.minute
    ensures !IsDue(e, Today(c2), Now(c2), p2)
  {
  }

  /** The events of one poll that are due and whose store update succeeds, in list order. */
  function Fired(events: seq<Event>, ok: seq<bool>, today: string, now: string, pending: seq<Event>): (r: seq<Event>)
    requires |ok| == |events|
    ensures |r| <= |events|
  {
    if events == [] then []
    else
      var n := |events| - 1;
      Fired(events[..n], ok[..n], today, now, pending)
      + (if IsDue(events[n], today, now, pending) && ok[n] then [events[n]] else [])
  }

  /** The store updates one poll issues: one per due event, in list order, success or not. */
  function AlarmUpdates(events: seq<Event>, today: string, now: string, pending: seq<Event>): (r: seq<StoreCall>)
    ensures |r| <= |events|
  {
    if events == [] then []
    else
      var n := |events| - 1;
      AlarmUpdates(events[..n], today, now, pending)
      + (if IsDue(events[n], today, now, pending) then [UpdateAlarmTriggered(events[n].id)] else [])
  }

  /** Polling one more event extends the fired list by that event exactly when it fires. */
  lemma FiredStep(events: seq<Event>, ok: seq<bool>, today: string, now: string, pending: seq<Event>, i: nat)
    requires |ok| == |events| && i < |events|
    ensures Fired(events[..i + 1], ok[..i + 1], today, now, pending)
         == Fired(events[..i], ok[..i], today, now, pending)
            + (if IsDue(events[i], today, now, pending) && ok[i] then [events[i]] else [])
  {
    assert events[..i + 1][..i] == events[..i];
    assert ok[..i + 1][..i] == ok[..i];
  }

  /** Polling one more event extends the update list by one update exactly when that event is due. */
  lemma AlarmUpdatesStep(events: seq<Event>, today: string, now: string, pending: seq<Event>, i: nat)
    requires i < |events|
    ensures AlarmUpdates(events[..i + 1], today, now, pending)
         == AlarmUpdates(events[..i], today, now, pending)
            + (if IsDue(events[i], today, now, pending) then [UpdateAlarmTriggered(events[i].id)] else [])
  {
    assert events[..i + 1][..i] == events[..i];
  }

  /**
   * One event of a poll: the pending list and the call log reached after the events before `i`
   * grow by this event's update when it is due, and by the event itself when that update succeeds.
   */
  lemma PollStep(evs: seq<Event>, ok: seq<bool>, today: string, now: string, pending: seq<Event>, i: nat,
                 pendingNow: seq<Event>, callsNow: seq<StoreCall>, calls: seq<StoreCall>)
    requires |ok| == |evs| && i < |evs|
    requires pendingNow == pending + Fired(evs[..i], ok[..i], today, now, pending)
    requires callsNow == calls + AlarmUpdates(evs[..i], today, now, pending)
    ensures var due := IsDue(evs[i], today, now, pending);
      (if due then callsNow + [UpdateAlarmTriggered(evs[i].id)] else callsNow)
        == calls + AlarmUpdates(evs[..i + 1], today, now, pending)
      && (if due && ok[i] then pendingNow + [evs[i]] else pendingNow)
        == pending + Fired(evs[..i + 1], ok[..i + 1], today, now, pending)
  {
    FiredStep(evs, ok, today, now, pending, i);
    AlarmUpdatesStep(evs, today, now, pending, i);
  }

  /** Every fired event is a due event of the poll whose update succeeded. */
  lemma {:induction false} FiredSound(events: seq<Event>, ok: seq<bool>, today: string, now: string,
                                      pending: seq<Event>, k: nat)
    requires |ok| == |events| && k < |Fired(events, ok, today, now, pending)|
    ensures exists j :: 0 <= j < |events| && events[j] == Fired(events, ok, today, now, pending)[k]
                        && IsDue(events[j], today, now, pending) && ok[j]
  {
    var n := |events| - 1;
    var prefix := Fired(events[..n], ok[..n], today, now, pending);
    var r := Fired(events, ok, today, now, pending);
    if k < |prefix| {
      FiredSound(events[..n], ok[..n], today, now, pending, k);
      var j :| 0 <= j < n && events[..n][j] == prefix[k] && IsDue(events[..n][j], today, now, pending) && ok[..n][j];
      assert events[j] == r[k];
    } else {
      assert r[k] == events[n];
    }
  }

  /** Every due event whose update succeeds is fired. */
  lemma {:induction false} FiredComplete(events: seq<Event>, ok: seq<bool>, today: string, now: string,
                                         pending: seq<Event>, i: nat)
    requires |ok| == |events| && i < |events|
    requires IsDue(events[i], today, now, pending) && ok[i]
    ensures events[i] in Fired(events, ok, today, now, pending)
  {
    var n := |events| - 1;
    if i < n {
      FiredComplete(events[..n], ok[..n], today, now, pending, i);
    }
  }

  /** An event without an alarm time, already triggered, or already pending never fires. */
  lemma NeverFires(events: seq<Event>, ok: seq<bool>, today: string, now: string, pending: seq<Event>, e: Event)
    requires |ok| == |events|
    requires e.alarmTime.None? || e.alarmTriggered || HasId(pending, e.id)
    ensures e !in Fired(events, ok, today, now, pending)
  {
    var r := Fired(events, ok, today, now, pending);
    forall k | 0 <= k < |r| ensures r[k] != e {
      FiredSound(events, ok, today, now, pending, k);
    }
  }

  lemma HasIdConcat(a: seq<Event>, b: seq<Event>, id: string)
    ensures HasId(a + b, id) <==> HasId(a, id) || HasId(b, id)
  {
    if HasId(a, id) {
      var i :| 0 <= i < |a| && a[i].id == id;
      assert (a + b)[i].id == id;
    }
    if HasId(a + b, id) {
      var i :| 0 <= i < |a + b| && (a + b)[i].id == id;
      if i >= |a| {
        assert b[i - |a|].id == id;
      }
    }
    if HasId(b, id) {
      var i :| 0 <= i < |b| && b[i].id == id;
      assert (a + b)[|a| + i].id == id;
    }
  }

  predicate DistinctIds(s: seq<Event>) {
    forall i, j :: 0 <= i < j < |s| ==> s[i].id != s[j].id
  }

  /** Number of entries of `s` with the given id. */
  function CountId(s: seq<Event>, id: string): nat {
    if s == [] then 0 else CountId(s[..|s| - 1], id) + (if s[|s| - 1].id == id then 1 else 0)
  }

  lemma {:induction false} CountIdConcat(a: seq<Event>, b: seq<Event>, id: string)
    ensures CountId(a + b, id) == CountId(a, id) + CountId(b, id)
  {
    if b == [] {
      assert a + b == a;
    } else {
      var n := |b| - 1;
      assert (a + b)[..|a + b| - 1] == a + b[..n];
      CountIdConcat(a, b[..n], id);
    }
  }

  /** Number of alarm-marking updates for the given id. */
  function CountUpdates(s: seq<StoreCall>, id: string): nat {
    if s == [] then 0 else CountUpdates(s[..|s| - 1], id) + (if s[|s| - 1] == UpdateAlarmTriggered(id) then 1 else 0)
  }

  lemma {:induction false} CountUpdatesConcat(a: seq<StoreCall>, b: seq<StoreCall>, id: string)
    ensures CountUpdates(a + b, id) == CountUpdates(a, id) + CountUpdates(b, id)
  {
    if b == [] {
      assert a + b == a;
    } else {
      var n := |b| - 1;
      assert (a + b)[..|a + b| - 1] == a + b[..n];
      CountUpdatesConcat(a, b[..n], id);
    }
  }

  /**
   * With store ids distinct, a due event gets exactly one alarm-marking update in a poll,
   * and exactly one pending entry when that update succeeds (none when it fails).
   */
  lemma FiresExactlyOnce(events: seq<Event>, ok: seq<bool>, today: string, now: string,
                          pending: seq<Event>, i: nat)
    requires |ok| == |events| && i < |events| && DistinctIds(events)
    requires IsDue(events[i], today, now, pending)
    ensures CountUpdates(AlarmUpdates(events, today, now, pending), events[i].id) == 1
    ensures CountId(Fired(events, ok, today, now, pending), events[i].id) == if ok[i] then 1 else 0
  {
    UpdatedOnce(events, today, now, pending, i);
    FiredOnce(events, ok, today, now, pending, i);
  }

  /** A due event with a unique id gets exactly one update. */
  lemma {:induction false} UpdatedOnce(events: seq<Event>, today: string, now: string,
                                       pending: seq<Event>, i: nat)
    requires i < |events| && DistinctIds(events)
    requires IsDue(events[i], today, now, pending)
    ensures CountUpdates(AlarmUpdates(events, today, now, pending), events[i].id) == 1
  {
    var n := |events| - 1;
    var id := events[i].id;
    var lastU := if IsDue(events[n], today, now, pending) then [UpdateAlarmTriggered(events[n].id)] else [];
    assert AlarmUpdates(events, today, now, pending) == AlarmUpdates(events[..n], today, now, pending) + lastU;
    CountUpdatesConcat(AlarmUpdates(events[..n], today, now, pending), lastU, id);
    if i < n {
      assert DistinctIds(events[..n]) && events[..n][i] == events[i];
      UpdatedOnce(events[..n], today, now, pending, i);
      assert events[n].id != id;
      assert CountUpdates(lastU, id) == 0 by {
        if lastU != [] {
          assert lastU[..0] == [];
        }
      }
    } else {
      NoneUpdatedWithId(events[..n], today, now, pending, id);
      assert lastU[..0] == [];
    }
  }

  /** A due event with a unique id fires once if its update succeeds, never otherwise. */
  lemma {:induction false} FiredOnce(events: seq<Event>, ok: seq<bool>, today: string, now: string,
                                     pending: seq<Event>, i: nat)
    requires |ok| == |events| && i < |events| && DistinctIds(events)
    requires IsDue(events[i], today, now, pending)
    ensures CountId(Fired(events, ok, today, now, pending), events[i].id) == if ok[i] then 1 else 0
  {
    var n := |events| - 1;
    var id := events[i].id;
    var lastF := if IsDue(events[n], today, now, pending) && ok[n] then [events[n]] else [];
    assert Fired(events, ok, today, now, pending) == Fired(events[..n], ok[..n], today, now, pending) + lastF;
    CountIdConcat(Fired(events[..n], ok[..n], today, now, pending), lastF, id);
    if i < n {
      assert DistinctIds(events[..n]) && events[..n][i] == events[i];
      FiredOnce(events[..n], ok[..n], today, now, pending, i);
      assert events[n].id != id;
      assert CountId(lastF, id) == 0 by {
        if lastF != [] {
          assert lastF[..0] == [];
        }
      }
    } else {
      NoneFiredWithId(events[..n], ok[..n], today, now, pending, id);
      assert CountId(lastF, id) == if ok[i] then 1 else 0 by {
        if lastF != [] {
          assert lastF[..0] == [];
        }
      }
    }
  }

  /** When no polled event carries `id`, a poll issues no update for that id. */
  lemma {:induction false} NoneUpdatedWithId(events: seq<Event>, today: string, now: string,
                                             pending: seq<Event>, id: string)
    requires forall j :: 0 <= j < |events| ==> events[j].id != id
    ensures CountUpdates(AlarmUpdates(events, today, now, pending), id) == 0
  {
    if events != [] {
      var n := |events| - 1;
      var lastU := if IsDue(events[n], today, now, pending) then [UpdateAlarmTriggered(events[n].id)] else [];
      assert AlarmUpdates(events, today, now, pending) == AlarmUpdates(events[..n], today, now, pending) + lastU;
      CountUpdatesConcat(AlarmUpdates(events[..n], today, now, pending), lastU, id);
      NoneUpdatedWithId(events[..n], today, now, pending, id);
      assert CountUpdates(lastU, id) == 0 by {
        if lastU != [] {
          assert lastU[..0] == [];
        }
      }
    }
  }

  /** Every update a poll issues marks a loaded event that was due. */
  lemma {:induction false} AlarmUpdatesSound(events: seq<Event>, today: string, now: string,
                                             pending: seq<Event>, k: nat)
    requires k < |AlarmUpdates(events, today, now, pending)|
    ensures exists j :: 0 <= j < |events| && IsDue(events[j], today, now, pending)
                        && AlarmUpdates(events, today, now, pending)[k] == UpdateAlarmTriggered(events[j].id)
  {
    var n := |events| - 1;
    var prefix := AlarmUpdates(events[..n], today, now, pending);
    var r := AlarmUpdates(events, today, now, pending);
    if k < |prefix| {
      AlarmUpdatesSound(events[..n], today, now, pending, k);
      var j :| 0 <= j < n && IsDue(events[..n][j], today, now, pending)
               && prefix[k] == UpdateAlarmTriggered(events[..n][j].id);
      assert events[j] == events[..n][j] && r[k] == prefix[k];
    } else {
      assert r[k] == UpdateAlarmTriggered(events[n].id);
    }
  }

  /** With store ids distinct, a loaded event that is not due gets no update in a poll. */
  lemma {:induction false} NotDueNotUpdated(events: seq<Event>, today: string, now: string,
                                            pending: seq<Event>, i: nat)
    requires i < |events| && DistinctIds(events)
    requires !IsDue(events[i], today, now, pending)
    ensures CountUpdates(AlarmUpdates(events, today, now, pending), events[i].id) == 0
  {
    var n := |events| - 1;
    var id := events[i].id;
    var lastU := if IsDue(events[n], today, now, pending) then [UpdateAlarmTriggered(events[n].id)] else [];
    assert AlarmUpdates(events, today, now, pending) == AlarmUpdates(events[..n], today, now, pending) + lastU;
    CountUpdatesConcat(AlarmUpdates(events[..n], today, now, pending), lastU, id);
    if i < n {
      assert DistinctIds(events[..n]) && events[..n][i] == events[i];
      NotDueNotUpdated(events[..n], today, now, pending, i);
      assert events[n].id != id;
      assert CountUpdates(lastU, id) == 0 by {
        if lastU != [] {
          assert lastU[..0] == [];
        }
      }
    } else {
      NoneUpdatedWithId(events[..n], today, now, pending, id);
    }
  }

  /** When no polled event carries `id`, a poll fires nothing with that id. */
  lemma {:induction false} NoneFiredWithId(events: seq<Event>, ok: seq<bool>, today: string, now: string,
                                           pending: seq<Event>, id: string)
    requires |ok| == |events|
    requires forall j :: 0 <= j < |events| ==> events[j].id != id
    ensures CountId(Fired(events, ok, today, now, pending), id) == 0
  {
    if events != [] {
      var n := |events| - 1;
      var lastF := if IsDue(events[n], today, now, pending) && ok[n] then [events[n]] else [];
      assert Fired(events, ok, today, now, pending) == Fired(events[..n], ok[..n], today, now, pending) + lastF;
      CountIdConcat(Fired(events[..n], ok[..n], today, now, pending), lastF, id);
      NoneFiredWithId(events[..n], ok[..n], today, now, pending, id);
      assert CountId(lastF, id) == 0 by {
        if lastF != [] {
          assert lastF[..0] == [];
        }
      }
    }
  }

  /**
   * A poll run again at the same minute, before the store's snapshot arrives, does not fire
   * again any event the first poll added to the pending list.
   */
  lemma NoRefireWhilePending(events: seq<Event>, ok1: seq<bool>, ok2: seq<bool>, today: string, now: string,
                             pending: seq<Event>)
    requires |ok1| == |events| && |ok2| == |events|
    ensures var first := Fired(events, ok1, today, now, pending);
            forall k :: 0 <= k < |Fired(events, ok2, today, now, pending + first)| ==>
              !HasId(first, Fired(events, ok2, today, now, pending + first)[k].id)
  {
    var first := Fired(events, ok1, today, now, pending);
    var second := Fired(events, ok2, today, now, pending + first);
    forall k | 0 <= k < |second| ensures !HasId(first, second[k].id) {
      FiredSound(events, ok2, today, now, pending + first, k);
      HasIdConcat(pending, first, second[k].id);
    }
  }

  /** An event whose alarm update failed is still due at a further poll in the same minute. */
  lemma RetriedAfterFailure(events: seq<Event>, ok: seq<bool>, today: string, now: string, pending: seq<Event>, i: nat)
    requires |ok| == |events| && i < |events| && DistinctIds(events)
    requires IsDue(events[i], today, now, pending) && !ok[i]
    ensures IsDue(events[i], today, now, pending + Fired(events, ok, today, now, pending))
  {
    var id := events[i].id;
    var first := Fired(events, ok, today, now, pending);
    forall k | 0 <= k < |first| ensures first[k].id != id {
      FiredSound(events, ok, today, now, pending, k);
      var j :| 0 <= j < |events| && events[j] == first[k] && IsDue(events[j], today, now, pending) && ok[j];
      assert j != i;
    }
    HasIdConcat(pending, first, id);
  }

  /** The fired events of one poll have distinct ids when the events do. */
  lemma {:induction false} FiredDistinct(events: seq<Event>, ok: seq<bool>, today: string, now: string, pending: seq<Event>)
    requires |ok| == |events| && DistinctIds(events)
    ensures DistinctIds(Fired(events, ok, today, now, pending))
  {
    if events != [] {
      var n := |events| - 1;
      var prefix := Fired(events[..n], ok[..n], today, now, pending);
      assert DistinctIds(events[..n]);
      FiredDistinct(events[..n], ok[..n], today, now, pending);
      var r := Fired(events, ok, today, now, pending);
      forall a, b | 0 <= a < b < |r| ensures r[a].id != r[b].id {
        if b >= |prefix| {
          FiredSound(events[..n], ok[..n], today, now, pending, a);
          var j :| 0 <= j < n && events[..n][j] == prefix[a] && IsDue(events[..n][j], today, now, pending) && ok[..n][j];
          assert r[a] == events[j] && r[b] == events[n];
        } else {
          assert r[a] == prefix[a] && r[b] == prefix[b];
        }
      }
    }
  }

  /** With store ids distinct, a poll keeps the pending list free of two alarms for one event. */
  lemma PendingStaysDistinct(events: seq<Event>, ok: seq<bool>, today: string, now: string, pending: seq<Event>)
    requires |ok| == |events| && DistinctIds(events) && DistinctIds(pending)
    ensures DistinctIds(pending + Fired(events, ok, today, now, pending))
  {
    var first := Fired(events, ok, today, now, pending);
    FiredDistinct(events, ok, today, now, pending);
    var all := pending + first;
    forall a, b | 0 <= a < b < |all| ensures all[a].id != all[b].id {
      if b >= |pending| {
        var k := b - |pending|;
        FiredSound(events, ok, today, now, pending, k);
        if a < |pending| {
          assert pending[a].id != first[k].id;
        } else {
          assert first[a - |pending|].id != first[k].id;
        }
      }
    }
  }

  /** `prev.filter(alarm => alarm.id !== id)`. */
  function RemoveId(alarms: seq<Event>, id: string): (r: seq<Event>)
    ensures |r| <= |alarms|
    ensures forall a :: a in r <==> a in alarms && a.id != id
    ensures !HasId(alarms, id) ==> r == alarms
  {
    if alarms == [] then []
    else
      var n := |alarms| - 1;
      assert alarms == alarms[..n] + [alarms[n]];
      assert !HasId(alarms, id) ==> !HasId(alarms[..n], id) && alarms[n].id != id;
      RemoveId(alarms[..n], id) + (if alarms[n].id != id then [alarms[n]] else [])
  }

  /** Removal by id keeps the order of what remains: it works piecewise on a concatenation. */
  lemma {:induction false} RemoveIdConcat(a: seq<Event>, b: seq<Event>, id: string)
    ensures RemoveId(a + b, id) == RemoveId(a, id) + RemoveId(b, id)
  {
    if b != [] {
      var n := |b| - 1;
      assert (a + b)[..|a + b| - 1] == a + b[..n];
      RemoveIdConcat(a, b[..n], id);
    } else {
      assert a + b == a;
    }
  }

  // ---------------------------------------------------------------------
  // Snapshot
  // ---------------------------------------------------------------------

  /** `{ id: doc.id, ...doc.data() }`: an `id` field in the data overrides the document id. */
  function FromDoc(doc: Doc): (e: Event)
    ensures e.id == (if doc.data.idField.Some? then doc.data.idField.value else doc.docId)
    ensures e.date == doc.data.date && e.alarmTime == doc.data.alarmTime
    ensures e.completed == doc.data.completed && e.alarmTriggered == doc.data.alarmTriggered
    ensures e.text == doc.data.text && e.userId == doc.data.userId && e.createdAt == doc.data.createdAt
  {
    var d := doc.data;
    Event(if d.idField.Some? then d.idField.value else doc.docId,
          d.text, d.date, d.alarmTime, d.completed, d.alarmTriggered, d.userId, d.createdAt)
  }

  /** `events.find(e => e.id === id)`: the first event with that id. */
  function FindById(events: seq<Event>, id: string): (r: Option<Event>)
    ensures r.None? <==> !HasId(events, id)
    ensures r.Some? ==> exists i :: 0 <= i < |events| && events[i] == r.value && r.value.id == id
                                    && forall j :: 0 <= j < i ==> events[j].id != id
  {
    if events == [] then None
    else if events[0].id == id then Some(events[0])
    else
      var r := FindById(events[1..], id);
      assert HasId(events, id) ==> HasId(events[1..], id) by {
        if HasId(events, id) {
          var i :| 0 <= i < |events| && events[i].id == id;
          assert events[1..][i - 1].id == id;
        }
      }
      if r.Some? then
        assert exists i :: 0 <= i < |events| && events[i] == r.value && r.value.id == id
                           && forall j :: 0 <= j < i ==> events[j].id != id by {
          var i :| 0 <= i < |events[1..]| && events[1..][i] == r.value && r.value.id == id
                   && forall j :: 0 <= j < i ==> events[1..][j].id != id;
          assert events[i + 1] == r.value;
          assert forall j :: 0 <= j < i + 1 ==> events[j].id != id by {
            forall j | 0 <= j < i + 1 ensures events[j].id != id {
              if j > 0 { assert events[j] == events[1..][j - 1]; }
            }
          }
        }
        r
      else r
  }

  // ---------------------------------------------------------------------
  // The widget's state
  // ---------------------------------------------------------------------

  class Scheduler {
    /** The signed-in user's id, or none. */
    var user: Option<string>
    var selectedDate: Option<string>
    var events: seq<Event>
    var newEvent: string
    var alarmTime: string
    var pendingAlarms: seq<Event>
    /** The calls issued to the event store so far, oldest first. */
    var storeCalls: seq<StoreCall>

    constructor (user: Option<string>)
      ensures this.user == user && selectedDate == None && events == [] && newEvent == ""
      ensures alarmTime == "" && pendingAlarms == [] && storeCalls == []
    {
      this.user := user;
      selectedDate := None;
      events := [];
      newEvent := "";
      alarmTime := "";
      pendingAlarms := [];
      storeCalls := [];
    }

    /** The subscription callback: the loaded list is replaced wholesale by the snapshot. */
    method ApplySnapshot(docs: seq<Doc>)
      modifies this`events
      ensures |events| == |docs| && forall i :: 0 <= i < |docs| ==> events[i] == FromDoc(docs[i])
    {
      events := seq(|docs|, i requires 0 <= i < |docs| => FromDoc(docs[i]));
    }

    /** Clicking a day cell (`Some(key)`) or closing the task panel (`None`). */
    method SelectDate(date: Option<string>)
      modifies this`selectedDate
      ensures selectedDate == date
    {
      selectedDate := date;
    }

    method SetNewEvent(text: string)
      modifies this`newEvent
      ensures newEvent == text
    {
      newEvent := text;
    }

    method SetAlarmTime(time: string)
      modifies this`alarmTime
      ensures alarmTime == time
    {
      alarmTime := time;
    }

    /** `triggerAlarm`: mark the event in the store; only a successful update makes it pending. */
    method TriggerAlarm(e: Event, ok: bool)
      modifies this`storeCalls, this`pendingAlarms
      ensures storeCalls == old(storeCalls) + [UpdateAlarmTriggered(e.id)]
      ensures pendingAlarms == if ok then old(pendingAlarms) + [e] else old(pendingAlarms)
    {
      storeCalls := storeCalls + [UpdateAlarmTriggered(e.id)];
      if ok {
        pendingAlarms := pendingAlarms + [e];
      }
    }

    /**
     * One poll of `checkAlarms`: the clock gives today's key and the current `HH:MM`, and every
     * loaded event due at that moment is triggered; `ok[i]` says whether the update for
     * `events[i]` succeeds.
     */
    method CheckAlarms(clock: Clock, ok: seq<bool>)
      requires ValidClock(clock) && |ok| == |events|
      modifies this`storeCalls, this`pendingAlarms
      ensures pendingAlarms == old(pendingAlarms) + Fired(events, ok, Today(clock), Now(clock), old(pendingAlarms))
      ensures storeCalls == old(storeCalls) + AlarmUpdates(events, Today(clock), Now(clock), old(pendingAlarms))
    {
      TriggerDue(Today(clock), Now(clock), ok);
    }

    /**
     * The `events.forEach` of a poll: each event due against the pending list as it was when the
     * poll began is triggered, in list order.
     */
    method TriggerDue(today: string, now: string, ok: seq<bool>)
      requires |ok| == |events|
      modifies this`storeCalls, this`pendingAlarms
      ensures pendingAlarms == old(pendingAlarms) + Fired(events, ok, today, now, old(pendingAlarms))
      ensures storeCalls == old(storeCalls) + AlarmUpdates(events, today, now, old(pendingAlarms))
    {
      var evs, pending, calls := events, pendingAlarms, storeCalls;
      var i := 0;
      while i < |evs|
        invariant 0 <= i <= |evs|
        invariant pendingAlarms == pending + Fired(evs[..i], ok[..i], today, now, pending)
        invariant storeCalls == calls + AlarmUpdates(evs[..i], today, now, pending)
      {
        PollStep(evs, ok, today, now, pending, i, pendingAlarms, storeCalls, calls);
        if IsDue(evs[i], today, now, pending) {
          TriggerAlarm(evs[i], ok[i]);
        }
        i := i + 1;
      }
      assert evs[..i] == evs && ok[..i] == ok;
    }

    /** `dismissAlarm`: drop the pending entries with that id. */
    method DismissAlarm(id: string)
      modifies this`pendingAlarms
      ensures pendingAlarms == RemoveId(old(pendingAlarms), id)
    {
      pendingAlarms := RemoveId(pendingAlarms, id);
    }

    /** `addEvent`: validate, then write the new event with both flags false. */
    method AddEvent(createdAt: string, ok: bool) returns (outcome: Outcome)
      modifies this`storeCalls, this`newEvent, this`alarmTime
      ensures outcome == Rejected <==> IsBlank(old(newEvent)) || selectedDate.None? || selectedDate == Some("")
      ensures outcome == Rejected || user.None? ==> storeCalls == old(storeCalls)
      ensures outcome != Rejected && user.Some? ==>
                storeCalls == old(storeCalls) + [AddDoc(EventData(None, old(newEvent), selectedDate.value,
                                                                  if old(alarmTime) == "" then None else Some(old(alarmTime)),
                                                                  false, false, user.value, createdAt))]
      ensures outcome == Done <==> outcome != Rejected && user.Some? && ok
      ensures outcome == Done ==> newEvent == "" && alarmTime == ""
      ensures outcome != Done ==> newEvent == old(newEvent) && alarmTime == old(alarmTime)
    {
      if Trim(newEvent) == [] || selectedDate.None? || selectedDate == Some("") {
        return Rejected;
      }
      if user.None? {
        // reading `user.uid` throws before the store is called
        return Failed;
      }
      var data := EventData(None, newEvent, selectedDate.value,
                            if alarmTime == "" then None else Some(alarmTime),
                            false, false, user.value, createdAt);
      storeCalls := storeCalls + [AddDoc(data)];
      if ok {
        newEvent := "";
        alarmTime := "";
        outcome := Done;
      } else {
        outcome := Failed;
      }
    }

    /** `toggleEvent`: flip `completed` of a loaded event; an unknown id throws before any store call. */
    method ToggleEvent(id: string, ok: bool) returns (outcome: Outcome)
      modifies this`storeCalls
      ensures !HasId(events, id) ==> outcome == Failed && storeCalls == old(storeCalls)
      ensures HasId(events, id) ==>
                storeCalls == old(storeCalls) + [UpdateCompleted(id, !FindById(events, id).value.completed)]
                && (outcome == Done <==> ok) && outcome != Rejected
    {
      var found := FindById(events, id);
      if found.None? {
        return Failed;
      }
      storeCalls := storeCalls + [UpdateCompleted(id, !found.value.completed)];
      outcome := if ok then Done else Failed;
    }

    /** `deleteEvent`: unconditional delete by id. */
    method DeleteEvent(id: string, ok: bool) returns (outcome: Outcome)
      modifies this`storeCalls
      ensures storeCalls == old(storeCalls) + [DeleteDoc(id)]
      ensures outcome == if ok then Done else Failed
    {
      storeCalls := storeCalls + [DeleteDoc(id)];
      outcome := if ok then Done else Failed;
    }
  }
}
