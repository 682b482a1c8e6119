# lunar-loom dashboard widgets, modelled in Dafny

This project models the rules inside six widgets of the lunar-loom study dashboard. The clock, `Math.random`, the Firestore store and the timers are replaced by plain inputs.

- **Space Scheduler** (`space_scheduler.dfy`, module `SpaceScheduler`):
  - builds `YYYY-MM-DD` date keys and the 1..N day grid of the current month, using the Gregorian month lengths;
  - buckets events into day cells and derives each cell's dots and overflow marker;
  - decides which events an alarm poll triggers;
  - keeps the pending-alarm list;
  - validates new events and toggles.

  The widget is a class, `Scheduler`. Its `storeCalls` field logs the calls it issues to the store. Whether each call succeeds is an input.
- **Pomodoro** (`pomodoro.dfy`, module `Pomodoro`): the work/break countdown as a class, `Timer`. One `Step` is one run of the timer effect. It also has the `mm:ss` display and the cycle statistics.
- **Space Farm** (`space_farm.dfy`, module `SpaceFarm`): the growth stage as a function of elapsed milliseconds. The counters and the plant list live in a class, `Farm`: planting appends a plant, and harvesting is guarded on a ripe plant.
- **Todo** (`todo.dfy`, module `Todo`): snapshot documents become items, sorted in place by status with an insertion sort on an array. Missions are validated before they are stored, and each status has a badge colour.
- **Alien Mailbox** (`alien_mailbox.dfy`, module `AlienMailbox`): the seven-message table and the draw pool, which is the unread messages or, once every message is read, all of them. The archive never holds two messages with one id.

  The delayed callback sees the archive as it was when the button was clicked: this is the `captured` parameter. So two fetches started before either completes both extend the same old archive. The second one's result replaces the first's.
- **Rage Room** (`rage_room.dfy`, module `RageRoom`): the punch counter with a combo on every tenth punch, the smash, and the void, which does nothing on blank input.

`text.dfy` (module `Text`) holds JavaScript's `trim`, its whitespace set, `String(n)` for non-negative integers and `padStart(2, '0')`. `wrappers.dfy` holds `Option` (for `null`) and `Outcome`, the result of an action against the store: rejected by validation, done, or failed.

Where the code and the project's written description of the widgets differ, the model follows the code:
- `toggleEvent` on an id that is not loaded reads `completed` of `undefined`. That throws before any store call, so the model fails with no call rather than doing nothing.
- `addEvent` and `addTodo` with no signed-in user throw on `user.uid` before the store is called.
- The scheduler snapshot spreads the document data after `id: doc.id`, so an `id` field inside the data wins. The to-do snapshot puts `id: doc.id` last, so there the document id wins.
- The to-do comparator gives `NaN` for an unknown status. The sort reads `NaN` as "equal", so the comparator is inconsistent and the order of such a list is not defined. The model promises a permutation always, and the status order whenever every status is known.
- `new Date(y, m, 0)` reads the years 0..99 as 1900..1999. `DaysInMonth` does the same.
- A failed alarm update is retried only by a poll in the same minute, not at the next tick. The next regular poll, 60 seconds on, shows another minute, so the event is not due there (`DueOnlyInItsMinute`).

## Model

| member | source | states |
|---|---|---|
| Text.TrimStart | src/components/Dashboard/Todo.jsx:32 | the result is a suffix that starts with a non-space, and every dropped character is white space |
| Text.TrimEnd | src/components/Dashboard/Todo.jsx:32 | the result is a prefix that ends with a non-space, and every dropped character is white space |
| Text.Trim | src/components/CosmicRageRoom.jsx:45 | `s.trim()` is empty exactly when every character of `s` is white space; otherwise it starts and ends with a non-space |
| Text.TrimInnerRun | src/components/Dashboard/Todo.jsx:32 | `s.trim()` is the run of `s` between a white-space prefix and a white-space suffix |
| Text.Decimal | src/components/Dashboard/SpaceScheduler.jsx:24 | `String(n)` is a non-empty digit run with no leading zero, one digit below 10 and at most two below 100 |
| Text.DecimalValue | src/components/Dashboard/SpaceScheduler.jsx:24 | the digits of `String(n)` read back as `n` |
| Text.DecimalInjective | src/components/Dashboard/SpaceScheduler.jsx:24 | distinct numbers render differently |
| Text.PadStart2 | src/components/Dashboard/SpaceScheduler.jsx:24-25 | the result keeps `s` as its suffix, has length `max(2, |s|)`, and is padded only with zeros |
| Text.LeadingZeroValue | src/components/Dashboard/SpaceScheduler.jsx:24-25 | a leading zero does not change a digit run's value |
| Text.TwoDigits | src/components/Dashboard/SpaceScheduler.jsx:24-25 | the result is digits denoting `n`, at least two of them, and exactly two iff `n < 100` |
| Text.TwoDigitsInjective | src/components/Dashboard/SpaceScheduler.jsx:24-25 | distinct numbers pad differently |
| SpaceScheduler.DaysInMonth | src/components/Dashboard/SpaceScheduler.jsx:32 | every month has 28..31 days |
| SpaceScheduler.YearLength | src/components/Dashboard/SpaceScheduler.jsx:32 | the twelve month lengths add up to 366 in a Gregorian leap year and 365 otherwise |
| SpaceScheduler.FebruaryLeap | src/components/Dashboard/SpaceScheduler.jsx:32 | February has 29 days exactly in leap years; every other month has at least 30 |
| SpaceScheduler.MonthDays | src/components/Dashboard/SpaceScheduler.jsx:33 | `days` has one entry per day of the month, and entry `i` is `i + 1` |
| SpaceScheduler.FormatDate | src/components/Dashboard/SpaceScheduler.jsx:21-27 | the key is the year's digits followed by `-MM-DD`: dashes six and three characters from the end |
| SpaceScheduler.FormatDateRoundTrip | src/components/Dashboard/SpaceScheduler.jsx:21-27 | the key reads back as the year, the 1-based month and the day |
| SpaceScheduler.DayKey | src/components/Dashboard/SpaceScheduler.jsx:231-233 | a day's key reads back as the year, the 1-based month and the day |
| SpaceScheduler.Today | src/components/Dashboard/SpaceScheduler.jsx:62 | today's key reads back as the clock's year, 1-based month and day |
| SpaceScheduler.FormatDateInjective | src/components/Dashboard/SpaceScheduler.jsx:21-27 | two dates share a key only if they are the same date |
| SpaceScheduler.ClockTime | src/components/Dashboard/SpaceScheduler.jsx:63 | the current time is five characters with a colon in the middle |
| SpaceScheduler.ClockTimeRoundTrip | src/components/Dashboard/SpaceScheduler.jsx:63 | the two fields of `HH:MM` read back as the hour and the minute |
| SpaceScheduler.Now | src/components/Dashboard/SpaceScheduler.jsx:63 | the current time is `HH:MM`, the two fields reading back as the clock's hour and minute |
| SpaceScheduler.EventsOn | src/components/Dashboard/SpaceScheduler.jsx:233 | an event is in a day's bucket iff it is loaded and dated with that day's key |
| SpaceScheduler.EventsOnConcat | src/components/Dashboard/SpaceScheduler.jsx:233 | filtering works piecewise on a concatenation, so the bucket keeps the loaded order and every copy of an event |
| SpaceScheduler.DayCell | src/components/Dashboard/SpaceScheduler.jsx:229-256 | cell `day` carries this month's key for day `day` (`FormatDate`, which reads back as that date), that key's bucket and its indicator; it is ringed iff it is today and highlighted iff its key is the selected date |
| SpaceScheduler.DayCellContents | src/components/Dashboard/SpaceScheduler.jsx:233-246 | a cell lists exactly the loaded events dated with its key, and shows no dots iff there are none |
| SpaceScheduler.CellIndicator | src/components/Dashboard/SpaceScheduler.jsx:246-256 | no marks iff the day has no events; otherwise `min(3, n)` dots, dot `i` green iff event `i` is completed, and an overflow marker iff `n > 3` |
| SpaceScheduler.FiveEventsOneDay | src/components/Dashboard/SpaceScheduler.jsx:246-256 | five events with the first two of three completed show green, green, yellow and the overflow marker |
| SpaceScheduler.Grid | src/components/Dashboard/SpaceScheduler.jsx:229-233 | one cell per day of the current month, cell `i` being day `i + 1` |
| SpaceScheduler.MapDays | src/components/Dashboard/SpaceScheduler.jsx:229 | `days.map(f)` over the days `1..n` has `n` entries, entry `i` being `f(i + 1)` |
| SpaceScheduler.EventInExactlyOneCell | src/components/Dashboard/SpaceScheduler.jsx:229-233 | an event dated on day `d` of the displayed month is in cell `d` and in no other cell |
| SpaceScheduler.DayBucket | src/components/Dashboard/SpaceScheduler.jsx:229-233 | the bucket of day `c` holds an event dated on day `d` iff `c == d` |
| SpaceScheduler.EventOutsideMonthNowhere | src/components/Dashboard/SpaceScheduler.jsx:229-233 | an event not dated in the displayed month appears in no cell |
| SpaceScheduler.Fired | src/components/Dashboard/SpaceScheduler.jsx:65-74 | a poll adds at most one pending entry per loaded event |
| SpaceScheduler.AlarmUpdates | src/components/Dashboard/SpaceScheduler.jsx:65-74 | a poll issues at most one update per loaded event |
| SpaceScheduler.FiredSound | src/components/Dashboard/SpaceScheduler.jsx:65-73 | every event a poll adds to the pending list is loaded, due (today's date, this minute's alarm time, not triggered, not pending), and had its update succeed |
| SpaceScheduler.FiredComplete | src/components/Dashboard/SpaceScheduler.jsx:65-73 | every due event whose update succeeds is added to the pending list |
| SpaceScheduler.NeverFires | src/components/Dashboard/SpaceScheduler.jsx:66-70 | an event with no alarm time, already triggered, or already pending is never fired |
| SpaceScheduler.FiresExactlyOnce | src/components/Dashboard/SpaceScheduler.jsx:65-93 | with distinct ids, a due event gets exactly one store update, and one pending entry iff that update succeeds |
| SpaceScheduler.UpdatedOnce | src/components/Dashboard/SpaceScheduler.jsx:65-74 | with distinct ids, a due event gets exactly one alarm update in a poll |
| SpaceScheduler.AlarmUpdatesSound | src/components/Dashboard/SpaceScheduler.jsx:65-74 | every update a poll issues marks a loaded event that was due |
| SpaceScheduler.NotDueNotUpdated | src/components/Dashboard/SpaceScheduler.jsx:65-74 | with distinct ids, a loaded event that is not due gets no update in a poll |
| SpaceScheduler.FiredOnce | src/components/Dashboard/SpaceScheduler.jsx:84-93 | with distinct ids, a due event gets one pending entry if its update succeeds and none otherwise |
| SpaceScheduler.NoRefireWhilePending | src/components/Dashboard/SpaceScheduler.jsx:70 | a second poll, against the pending list the first one produced, fires nothing the first one fired |
| SpaceScheduler.RetriedAfterFailure | src/components/Dashboard/SpaceScheduler.jsx:84-93 | an event whose update failed is not pending afterwards, so it is due again at a further poll in the same minute |
| SpaceScheduler.DueOnlyInItsMinute | src/components/Dashboard/SpaceScheduler.jsx:61-70 | an event due at a poll is not due at a poll whose clock shows another hour or minute |
| SpaceScheduler.FiredDistinct | src/components/Dashboard/SpaceScheduler.jsx:65-74 | with distinct event ids, one poll's fired events have distinct ids |
| SpaceScheduler.PendingStaysDistinct | src/components/Dashboard/SpaceScheduler.jsx:84-93 | a pending list with distinct ids keeps distinct ids after a poll |
| SpaceScheduler.HasIdConcat | src/components/Dashboard/SpaceScheduler.jsx:70 | `pendingAlarms.some(a => a.id === id)` holds on a concatenation iff it holds on one of the parts |
| SpaceScheduler.RemoveId | src/components/Dashboard/SpaceScheduler.jsx:96 | exactly the entries with the id are dropped; a list without the id is unchanged |
| SpaceScheduler.RemoveIdConcat | src/components/Dashboard/SpaceScheduler.jsx:96 | removal works piecewise on a concatenation, so the kept entries stay in order |
| SpaceScheduler.FromDoc | src/components/Dashboard/SpaceScheduler.jsx:44-47 | the listed event's id is the data's own `id` if it has one, else the document id; its text, date, alarm time, flags, user id and creation time are the data's |
| SpaceScheduler.FindById | src/components/Dashboard/SpaceScheduler.jsx:130 | the first loaded event with the id, or none iff no loaded event has it |
| SpaceScheduler.Scheduler.constructor | src/components/Dashboard/SpaceScheduler.jsx:14-19 | the widget starts with nothing selected, no events, empty inputs, no pending alarms and no store calls |
| SpaceScheduler.Scheduler.ApplySnapshot | src/components/Dashboard/SpaceScheduler.jsx:43-48 | the loaded list becomes the snapshot's documents, in order |
| SpaceScheduler.Scheduler.SelectDate | src/components/Dashboard/SpaceScheduler.jsx:240 | the selected key becomes the clicked day's key |
| SpaceScheduler.Scheduler.SetNewEvent | src/components/Dashboard/SpaceScheduler.jsx:346 | the event text becomes the typed text |
| SpaceScheduler.Scheduler.SetAlarmTime | src/components/Dashboard/SpaceScheduler.jsx:357 | the alarm input becomes the typed time |
| SpaceScheduler.Scheduler.TriggerAlarm | src/components/Dashboard/SpaceScheduler.jsx:84-93 | one update marks the event triggered; the event is appended to the pending list iff that update succeeds |
| SpaceScheduler.Scheduler.CheckAlarms | src/components/Dashboard/SpaceScheduler.jsx:60-77 | a poll at a valid clock appends the fired events to the pending list and logs `AlarmUpdates` at the clock's date and minute: one update per due event and none for any other |
| SpaceScheduler.Scheduler.TriggerDue | src/components/Dashboard/SpaceScheduler.jsx:65-74 | the `forEach` loop ends with the pending list and the log extended by `Fired` and `AlarmUpdates` of the whole list |
| SpaceScheduler.Scheduler.DismissAlarm | src/components/Dashboard/SpaceScheduler.jsx:95-97 | the pending list loses exactly the entries with the id; nothing else changes |
| SpaceScheduler.Scheduler.AddEvent | src/components/Dashboard/SpaceScheduler.jsx:99-126 | refused iff the text is blank or no date is selected; no call then or without a user; otherwise one new event with both flags false and a `null` alarm for an empty time; inputs cleared iff the write succeeds |
| SpaceScheduler.Scheduler.ToggleEvent | src/components/Dashboard/SpaceScheduler.jsx:128-138 | an unknown id fails with no call; otherwise one update flipping `completed` of the first event with the id |
| SpaceScheduler.Scheduler.DeleteEvent | src/components/Dashboard/SpaceScheduler.jsx:140-147 | one delete for the id |
| Pomodoro.PhaseLength | src/components/Dashboard/Pomodoro.jsx:58-61 | a phase starts at 1500 seconds in work mode and 300 in break mode |
| Pomodoro.FormatTime | src/components/Dashboard/Pomodoro.jsx:72-76 | the display has a colon three characters from the end, and is exactly five characters iff under 100 minutes |
| Pomodoro.FormatTimeReadsBack | src/components/Dashboard/Pomodoro.jsx:72-76 | minutes are digits, seconds are two digits below 60, and minutes times 60 plus seconds is the remaining time |
| Pomodoro.FormatTimeInjective | src/components/Dashboard/Pomodoro.jsx:72-76 | different remaining times are displayed differently |
| Pomodoro.CurrentInBlock | src/components/Dashboard/Pomodoro.jsx:177 | the "Current" indicator is always in 1..4 |
| Pomodoro.CompletedBlocks | src/components/Dashboard/Pomodoro.jsx:183 | the "Today" figure is the number of whole blocks of four cycles |
| Pomodoro.StatsDetermineCycles | src/components/Dashboard/Pomodoro.jsx:177-183 | the two figures together give back the cycle count |
| Pomodoro.Timer.constructor | src/components/Dashboard/Pomodoro.jsx:26-31 | a new timer stands at 25 minutes in work mode, paused, with no cycles |
| Pomodoro.Timer.Step | src/components/Dashboard/Pomodoro.jsx:34-52 | running with time left takes one second off and changes nothing else; running at zero in work mode counts a cycle, starts a 300-second break, shows the rocket and stops; at zero in break mode it starts a 1500-second work phase and stops; paused does nothing; cycles never decrease and time stays within 0..7200 |
| Pomodoro.Timer.HideRocket | src/components/Dashboard/Pomodoro.jsx:44 | the rocket is hidden |
| Pomodoro.Timer.ToggleTimer | src/components/Dashboard/Pomodoro.jsx:54-56 | only `isActive` flips |
| Pomodoro.Timer.ResetTimer | src/components/Dashboard/Pomodoro.jsx:58-61 | stopped, with the current phase's full length; mode and cycles kept |
| Pomodoro.Timer.ApplyCustomTime | src/components/Dashboard/Pomodoro.jsx:63-70 | a whole number of minutes in 1..120 becomes the time and stops the timer; any other input changes nothing |
| Pomodoro.Timer.Display | src/components/Dashboard/Pomodoro.jsx:124 | the display reads back as the remaining seconds (minutes, colon, two-digit seconds), and is exactly five characters under 100 minutes |
| SpaceFarm.StageFor | src/components/Dashboard/SpaceFarm.jsx:51-54 | stage 0 up to 6 hours, 1 up to 12, 2 up to 24, 3 after that; never above 3 |
| SpaceFarm.StageMonotone | src/components/Dashboard/SpaceFarm.jsx:51-54 | more elapsed time never gives a lower stage |
| SpaceFarm.Grown | src/components/Dashboard/SpaceFarm.jsx:46-57 | same count and order; each plant keeps every field but `stage`, which is recomputed from its planting time |
| SpaceFarm.GrownIdempotent | src/components/Dashboard/SpaceFarm.jsx:46-57 | recomputing twice at one instant is the same as once |
| SpaceFarm.GrownLaterNotLower | src/components/Dashboard/SpaceFarm.jsx:46-57 | recomputing later never lowers any plant's stage |
| SpaceFarm.FindPlant | src/components/Dashboard/SpaceFarm.jsx:87 | the index of the first plant with the id, or none iff no plant has it |
| SpaceFarm.RemovePlant | src/components/Dashboard/SpaceFarm.jsx:95 | exactly the plants with the id are dropped; without the id the list is unchanged |
| SpaceFarm.RemovePlantConcat | src/components/Dashboard/SpaceFarm.jsx:95 | removal works piecewise, so the kept plants stay in order |
| SpaceFarm.RemovePlantCount | src/components/Dashboard/SpaceFarm.jsx:95 | kept plants plus plants with the id make up the whole list |
| SpaceFarm.HarvestLeavesNoneWithId | src/components/Dashboard/SpaceFarm.jsx:95 | after removal no plant carries the harvested id |
| SpaceFarm.ProgressWidth | src/components/Dashboard/SpaceFarm.jsx:187 | for a real stage the bar is 25..100 percent wide, and full exactly when ripe |
| SpaceFarm.Farm.constructor | src/components/Dashboard/SpaceFarm.jsx:8-14 | an empty farm with zero counters |
| SpaceFarm.Farm.UpdatePlantGrowth | src/components/Dashboard/SpaceFarm.jsx:44-59 | the plant list becomes the given plants with stages recomputed, so every stage is in 0..3 |
| SpaceFarm.Farm.Load | src/components/Dashboard/SpaceFarm.jsx:26-33 | a saved farm restores its counters and its plants with current stages; no saved farm changes nothing |
| SpaceFarm.Farm.PlantTomato | src/components/Dashboard/SpaceFarm.jsx:62-83 | one more session, `m` more minutes, harvested unchanged, one stage-0 tomato with `m` minutes appended, watering shown |
| SpaceFarm.Farm.HarvestPlant | src/components/Dashboard/SpaceFarm.jsx:86-97 | nothing changes unless the first plant with the id is ripe; then one more harvest, every plant with the id removed, study totals untouched, credits equal to its study minutes |
| SpaceFarm.Farm.WaterPlants | src/components/Dashboard/SpaceFarm.jsx:100-104 | only the watering flag changes |
| SpaceFarm.Farm.StopWatering | src/components/Dashboard/SpaceFarm.jsx:102 | the watering flag is cleared |
| Todo.Rank | src/components/Dashboard/Todo.jsx:22 | `todo` ranks 0, `done` ranks 2, and `doing` lies between |
| Todo.RankInjective | src/components/Dashboard/Todo.jsx:22 | known statuses with one rank are one status |
| Todo.Compare | src/components/Dashboard/Todo.jsx:21-24 | positive iff the first status ranks higher; zero when either status is unknown |
| Todo.DoneItemsLast | src/components/Dashboard/Todo.jsx:21-24 | in a sorted list only `done` items follow a `done` item |
| Todo.TodoItemsFirst | src/components/Dashboard/Todo.jsx:21-24 | in a sorted list only `todo` items precede a `todo` item |
| Todo.FromDoc | src/components/Dashboard/Todo.jsx:19 | the item's id is the document id, overriding any `id` in the data; its title, status, creation time and user id are the data's |
| Todo.Items | src/components/Dashboard/Todo.jsx:17-20 | one item per document, in document order |
| Todo.ListedItemsAreDocuments | src/components/Dashboard/Todo.jsx:17-25 | every listed item is some document's item, under that document's id |
| Todo.WithStatus | src/components/Dashboard/Todo.jsx:21-24 | the items with one status, in list order, never more than the list |
| Todo.WithStatusMembers | src/components/Dashboard/Todo.jsx:21-24 | an item is in the filtered list iff it is in the list and has the status |
| Todo.WithStatusConcat | src/components/Dashboard/Todo.jsx:21-24 | filtering by status works piecewise on a concatenation |
| Todo.SwapKeepsStatusOrder | src/components/Dashboard/Todo.jsx:21-24 | swapping two neighbours of different statuses keeps the order within every status |
| Todo.SortedIsGrouped | src/components/Dashboard/Todo.jsx:21-24 | a list of known statuses in status order is its `todo` items, then its `doing` items, then its `done` items |
| Todo.StableSortIsGrouping | src/components/Dashboard/Todo.jsx:21-24 | a status-ordered list with the same order within each status as the input is exactly the input's `todo`, `doing` and `done` items, each group in input order |
| Todo.SortByStatus | src/components/Dashboard/Todo.jsx:21-24 | the array ends as a permutation of itself, keeps the order within each status, and is ordered by status whenever every status is known |
| Todo.InsertAt | src/components/Dashboard/Todo.jsx:21-24 | one insertion step keeps the elements and their order within each status, and extends the ordered prefix by one |
| Todo.StatusColor | src/components/Dashboard/Todo.jsx:67-74 | gray iff the status is unknown; red iff `todo`; yellow iff `doing`; green iff `done` |
| Todo.StatusColorInjective | src/components/Dashboard/Todo.jsx:67-74 | a known status's colour belongs to no other status |
| Todo.TodoList.constructor | src/components/Dashboard/Todo.jsx:9-11 | an empty list, empty input and no store calls |
| Todo.TodoList.ApplySnapshot | src/components/Dashboard/Todo.jsx:16-25 | the list holds exactly the snapshot's items, each as often, in snapshot order within each status; when every status is known it is the snapshot's `todo`, then `doing`, then `done` items |
| Todo.TodoList.SetNewTodo | src/components/Dashboard/Todo.jsx:113 | the input becomes the typed title |
| Todo.TodoList.AddTodo | src/components/Dashboard/Todo.jsx:31-45 | refused with no call iff the title is blank; no call without a user; otherwise one `todo` mission with the typed title, and the input cleared iff the write succeeds |
| Todo.TodoList.UpdateStatusOf | src/components/Dashboard/Todo.jsx:47-56 | one status update for the id |
| Todo.TodoList.DeleteTodo | src/components/Dashboard/Todo.jsx:58-65 | one delete for the id |
| AlienMailbox.Unread | src/components/Dashboard/AlienMailbox.jsx:91-93 | the messages whose ids are not saved, and only those |
| AlienMailbox.Pool | src/components/Dashboard/AlienMailbox.jsx:91-95 | never empty, drawn from the table; while any message is unsaved, exactly the unsaved messages; the whole table once all are saved |
| AlienMailbox.PoolOf | src/components/Dashboard/AlienMailbox.jsx:91-95 | never empty and drawn from the list; exactly the unread messages if any, else the whole list |
| AlienMailbox.PickIndex | src/components/Dashboard/AlienMailbox.jsx:96 | `Math.floor(r * n)` for `0 <= r < 1` is an index in 0..n-1 |
| AlienMailbox.DrawFrom | src/components/Dashboard/AlienMailbox.jsx:91-96 | the drawn message belongs to the pool and to the list drawn from |
| AlienMailbox.Draw | src/components/Dashboard/AlienMailbox.jsx:91-96 | the drawn message belongs to the pool and to the table |
| AlienMailbox.DrawIsUnread | src/components/Dashboard/AlienMailbox.jsx:91-96 | while some message is unsaved, the draw is not a saved message |
| AlienMailbox.AppendUnsavedDistinct | src/components/Dashboard/AlienMailbox.jsx:102-104 | appending a message whose id is absent keeps the ids distinct |
| AlienMailbox.IdSet | src/components/Dashboard/AlienMailbox.jsx:92 | the set built entry by entry holds exactly the ids for which `list.some(m => m.id === id)` holds |
| AlienMailbox.ArchiveAtMostSeven | src/components/Dashboard/AlienMailbox.jsx:102-105 | a duplicate-free archive of table messages has at most seven entries |
| AlienMailbox.Mailbox.constructor | src/components/Dashboard/AlienMailbox.jsx:70-73 | no message, closed, not loading, empty archive; the table drawn from is the seven messages |
| AlienMailbox.Mailbox.Load | src/components/Dashboard/AlienMailbox.jsx:78-83 | a stored archive replaces the current one; none changes nothing; the archive stays duplicate-free and inside the table |
| AlienMailbox.Mailbox.GetNewMessage | src/components/Dashboard/AlienMailbox.jsx:85-88 | loading shown, mailbox closed, and the current archive handed to the callback |
| AlienMailbox.Mailbox.ReceiveTransmission | src/components/Dashboard/AlienMailbox.jsx:90-110 | the drawn message is shown, loading is off, the mailbox is open, and the archive becomes the captured one plus the message iff its id was absent; it stays duplicate-free |
| AlienMailbox.Mailbox.CloseMailbox | src/components/Dashboard/AlienMailbox.jsx:113-115 | the mailbox closes |
| RageRoom.ComboMessage | src/components/CosmicRageRoom.jsx:31 | the combo announcement is its fixed prefix, `String(count)`, then its fixed suffix |
| RageRoom.ComboMessageCarriesCount | src/components/CosmicRageRoom.jsx:31 | the combo announcement's middle part reads back as the punch count |
| RageRoom.ComboMessageInjective | src/components/CosmicRageRoom.jsx:31 | different counts give different announcements |
| RageRoom.VoidMessage | src/components/CosmicRageRoom.jsx:47 | the void announcement is its fixed prefix, the anger exactly, then its fixed suffix |
| RageRoom.VoidMessageInjective | src/components/CosmicRageRoom.jsx:47 | different anger texts give different announcements |
| RageRoom.Room.constructor | src/components/CosmicRageRoom.jsx:8-12 | no anger, no punches, no last action, no animations |
| RageRoom.Room.SetAnger | src/components/CosmicRageRoom.jsx:115 | the anger box holds the typed text |
| RageRoom.Room.PlayPunch | src/components/CosmicRageRoom.jsx:22-35 | exactly one more punch; the combo is shown and announced with the count iff the new count is a multiple of 10; otherwise a plain hit is announced and the combo display is left as it was |
| RageRoom.Room.HideCombo | src/components/CosmicRageRoom.jsx:30 | the combo display is hidden |
| RageRoom.Room.PlaySmash | src/components/CosmicRageRoom.jsx:37-42 | the smash animation and its announcement; punches and anger untouched |
| RageRoom.Room.StopSmashing | src/components/CosmicRageRoom.jsx:40 | the smash animation stops |
| RageRoom.Room.PlayVoid | src/components/CosmicRageRoom.jsx:44-49 | blank anger changes nothing; otherwise the announcement quotes the anger and the box is cleared |

## Left out

- Firestore queries, subscriptions and errors are not modelled. Each widget records the calls it would issue, and each call's success is an input.
- Toasts, sounds, icons, CSS classes and framer-motion animation are not modelled. Only the flags that switch an animation on and off are kept.
- Timers, the 60-second alarm polling and React effect scheduling are not modelled. One alarm poll, one timer tick and each timeout are separate, synchronous steps. The race between an in-flight `triggerAlarm` and the next poll is not modelled.
- JavaScript `Date`, time zones and `toTimeString` are not modelled. The clock is given as integer fields. Farm times are integer milliseconds, and the planting time is kept as milliseconds rather than an ISO string.
- SpaceScheduler: the task panel filters events by `formatDate(selectedDate)`. That parses `YYYY-MM-DD` as UTC and can shift the day west of UTC. The model treats it as the identity on keys and does not model the panel's list.
- SpaceScheduler.FormatDate: does not model negative years or dates before year 0.
- SpaceFarm.StageFor: the source divides by 3 600 000 in floating point. The model compares integer milliseconds against 6, 12 and 24 hours. For whole milliseconds below 2^53 the two agree. The exact quotient either equals 6, 12 or 24, or differs from each by at least 1/3 600 000, which is far more than the rounding error. Fractional or larger times are not modelled.
- Pomodoro.Timer.ApplyCustomTime: `parseInt` on the typed text is not modelled. The parsed number, or `None` for `NaN`, is the input.
- Pomodoro: the "Cycle"/"Cycles" label and the final-minute warning are rendering only.
- AlienMailbox.Mailbox.Load: it assumes storage holds only what this widget wrote, an archive with distinct ids drawn from the table. An edited or corrupted stored value is not modelled.
- Todo.SortByStatus: with an unknown status the source's order is whatever its sort makes of an inconsistent comparator. The model's insertion sort keeps order within each status there too, which the source does not promise.
- AlienMailbox.Mailbox: the table is a field the constructor sets to the seven messages, rather than the module constant read directly.
- localStorage and JSON persistence are not modelled. The farm and the mailbox take the stored value as an input to `Load`, and the writes are left out.
- AlienMailbox.Message: message icons are not kept, and the mood colour table is rendering only.
- `Math.random()` is an input real in `[0, 1)`.
- Notes, sign-in and sign-up, the navigation bar, the footer, the pages and the music player are not part of this model.
