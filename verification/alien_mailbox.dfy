/**
 * The Alien Mailbox widget: a fixed table of seven messages, a draw from the messages not yet
 * saved (or from all of them once every one is saved), and an archive of saved messages that
 * never holds the same message twice. `Math.random()` is a real in `[0, 1)` given as input;
 * the 1.5-second transmission delay splits a fetch into its start and the timer callback.
 */
module AlienMailbox {
  import opened Wrappers

  /** A message; its icon is left out. */
  datatype Message = Message(id: nat, subject: string, content: string, mood: string)

  /** The `alienMessages` table. */
  const AlienMessages: seq<Message> := [
    Message(1, "Greetings from Zog-9!",
      "Dear Earthling, I heard you're stressed. On my planet, we relieve stress by floating upside down in anti-gravity pudding. Maybe try standing on your head while eating Jell-O? Works every time!",
      "silly"),
    Message(2, "Urgent Cosmic Advice!",
      "ATTENTION: Your planet's 'stress' is just your body's way of saying it wants to dance uncontrollably. I prescribe 3 minutes of flailing like you're being attacked by space bees.",
      "energetic"),
    Message(3, "Intergalactic Wisdom",
      "On my homeworld, we have a saying: 'A problem shared is a problem halved... unless you share it with a black hole, then it's gone forever!' Try yelling your worries into a pillow - same effect!",
      "wise"),
    Message(4, "You're Amazing!",
      "My 17 eyes can see your awesomeness from 300 light-years away! Remember: Even supernovas need to take breaks between explosions. You're doing great!",
      "uplifting"),
    Message(5, "Emergency Happiness Beam Activated!",
      "SENDING GOOD VIBES TO YOUR COORDINATES! According to my calculations, you're exactly where you need to be. Also, my calculator is made of cheese, so trust me on this.",
      "funny"),
    Message(6, "Secret Space Knowledge",
      "Did you know? The Andromeda Galaxy thinks your problems are approximately 0.0000001% as heavy as a neutrino. Basically weightless! Go eat some ice cream.",
      "scientific"),
    Message(7, "Alien High-Five!",
      "(That's my 7-fingered high-five)! You survived 100% of your bad days so far. That's better stats than most asteroids! Keep going!",
      "supportive")
  ]

  /** `list.some(m => m.id === id)`: some entry, at some index, carries the id. */
  predicate HasId(list: seq<Message>, id: nat) {
    exists m :: m in list && m.id == id
  }

  /** No two entries share an id. */
  predicate DistinctIds(list: seq<Message>) {
    forall k, l :: 0 <= k < l < |list| ==> list[k].id != list[l].id
  }

  /** `msgs.filter(msg => !saved.some(s => s.id === msg.id))`. */
  function Unread(msgs: seq<Message>, saved: seq<Message>): (r: seq<Message>)
    ensures forall m :: m in r <==> m in msgs && !HasId(saved, m.id)
    ensures |r| <= |msgs|
  {
    if msgs == [] then []
    else Unread(msgs[..|msgs| - 1], saved)
         + (if HasId(saved, msgs[|msgs| - 1].id) then [] else [msgs[|msgs| - 1]])
  }

  /** The draw pool: the unread messages, or the whole table when none is unread. */
  function Pool(saved: seq<Message>): (r: seq<Message>)
    ensures |r| > 0
    ensures forall m :: m in r ==> m in AlienMessages
    ensures (exists m :: m in AlienMessages && !HasId(saved, m.id)) ==>
              forall m :: m in r <==> m in AlienMessages && !HasId(saved, m.id)
    ensures (forall m :: m in AlienMessages ==> HasId(saved, m.id)) ==> r == AlienMessages
  {
    PoolOf(AlienMessages, saved)
  }

  /** The pool drawn from a non-empty list of messages. */
  function PoolOf(msgs: seq<Message>, saved: seq<Message>): (r: seq<Message>)
    requires |msgs| > 0
    ensures |r| > 0
    ensures forall m :: m in r ==> m in msgs
    ensures (exists m :: m in msgs && !HasId(saved, m.id)) ==>
              forall m :: m in r <==> m in msgs && !HasId(saved, m.id)
    ensures (forall m :: m in msgs ==> HasId(saved, m.id)) ==> r == msgs
  {
    var unread := Unread(msgs, saved);
    if |unread| > 0 then
      assert unread[0] in unread;
      unread
    else
      assert forall m :: m in msgs ==> HasId(saved, m.id);
      msgs
  }

  /** `Math.floor(r * n)` for `0 <= r < 1`: always an index into a list of length `n`. */
  function PickIndex(r: real, n: nat): (i: nat)
    requires 0.0 <= r < 1.0 && n > 0
    ensures i < n
  {
    assert 0.0 <= r * (n as real) < n as real;
    (r * (n as real)).Floor
  }

  /** The message the callback draws from the pool of a non-empty list. */
  function DrawFrom(msgs: seq<Message>, saved: seq<Message>, r: real): (m: Message)
    requires |msgs| > 0 && 0.0 <= r < 1.0
    ensures m in PoolOf(msgs, saved) && m in msgs
  {
    var pool := PoolOf(msgs, saved);
    pool[PickIndex(r, |pool|)]
  }

  /** The message the callback draws from the seven-message table. */
  function Draw(saved: seq<Message>, r: real): (m: Message)
    requires 0.0 <= r < 1.0
    ensures m in Pool(saved) && m in AlienMessages
  {
    DrawFrom(AlienMessages, saved, r)
  }

  /** While some message is unread, a draw never repeats a saved message. */
  lemma DrawIsUnread(saved: seq<Message>, r: real)
    requires 0.0 <= r < 1.0
    requires exists m :: m in AlienMessages && !HasId(saved, m.id)
    ensures !HasId(saved, Draw(saved, r).id)
  {
  }

  /** Appending a message whose id is not saved yet keeps the ids distinct. */
  lemma AppendUnsavedDistinct(saved: seq<Message>, m: Message)
    requires DistinctIds(saved) && !HasId(saved, m.id)
    ensures DistinctIds(saved + [m])
  {
    var r := saved + [m];
    forall k, l | 0 <= k < l < |r|
      ensures r[k].id != r[l].id
    {
      if l == |saved| {
        assert r[k] in saved;
      }
    }
  }

  /** The ids of a list, as a set. */
  function IdSet(list: seq<Message>): (s: set<nat>)
    ensures forall id :: id in s <==> HasId(list, id)
  {
    if list == [] then {}
    else
      var rest := list[..|list| - 1];
      assert list == rest + [list[|list| - 1]];
      IdSet(rest) + {list[|list| - 1].id}
  }

  /** A list with distinct ids has as many ids as entries. */
  lemma {:induction false} DistinctIdCount(list: seq<Message>)
    requires DistinctIds(list)
    ensures |IdSet(list)| == |list|
  {
    if list != [] {
      var rest := list[..|list| - 1];
      var last := list[|list| - 1];
      assert list == rest + [last];
      assert DistinctIds(rest);
      DistinctIdCount(rest);
    }
  }

  /** A list never has more ids than entries. */
  lemma {:induction false} IdCountBound(list: seq<Message>)
    ensures |IdSet(list)| <= |list|
  {
    if list != [] {
      IdCountBound(list[..|list| - 1]);
    }
  }

  /** A duplicate-free archive of table messages holds at most seven entries. */
  lemma ArchiveAtMostSeven(saved: seq<Message>)
    requires DistinctIds(saved)
    requires forall m :: m in saved ==> m in AlienMessages
    ensures |saved| <= 7
  {
    DistinctIdCount(saved);
    IdCountBound(AlienMessages);
    assert IdSet(saved) <= IdSet(AlienMessages);
    SubsetCard(IdSet(saved), IdSet(AlienMessages));
  }

  lemma SubsetCard(a: set<nat>, b: set<nat>)
    requires a <= b
    ensures |a| <= |b|
  {
    assert b == a + (b - a);
  }

  class Mailbox {
    /** The table the widget draws from, fixed at construction. */
    const table: seq<Message>
    var currentMessage: Option<Message>
    var mailboxOpen: bool
    var loading: bool
    var savedMessages: seq<Message>

    /** The archive holds table messages, each at most once. */
    ghost predicate Valid()
      reads this
    {
      |table| > 0 && DistinctIds(savedMessages) && forall m :: m in savedMessages ==> m in table
    }

    constructor ()
      ensures Valid() && table == AlienMessages
      ensures currentMessage.None? && !mailboxOpen && !loading && savedMessages == []
    {
      table := AlienMessages;
      currentMessage := None;
      mailboxOpen := false;
      loading := false;
      savedMessages := [];
    }

    /**
     * The mount effect: restore the archive kept in local storage, if there is one. Storage
     * holds what this widget wrote, so a stored archive has distinct ids and table messages.
     */
    method Load(stored: Option<seq<Message>>)
      requires Valid()
      requires stored.Some? ==>
                 DistinctIds(stored.value) && forall m :: m in stored.value ==> m in table
      modifies this`savedMessages
      ensures Valid()
      ensures savedMessages == if stored.Some? then stored.value else old(savedMessages)
    {
      if stored.Some? {
        savedMessages := stored.value;
      }
    }

    /**
     * `getNewMessage`: show the loading state and close the mailbox. `captured` is the archive
     * the delayed callback sees, the one current at the click.
     */
    method GetNewMessage() returns (captured: seq<Message>)
      requires Valid()
      modifies this`loading, this`mailboxOpen
      ensures Valid() && loading && !mailboxOpen && captured == savedMessages
    {
      loading := true;
      mailboxOpen := false;
      captured := savedMessages;
    }

    /**
     * The delayed callback: draw from the pool of `captured`, show the message, and archive it
     * as `captured` plus the message unless `captured` already has its id (then the archive is
     * left as it is now).
     */
    method ReceiveTransmission(captured: seq<Message>, r: real) returns (m: Message)
      requires Valid() && DistinctIds(captured) && forall x :: x in captured ==> x in table
      requires 0.0 <= r < 1.0
      modifies this`currentMessage, this`savedMessages, this`loading, this`mailboxOpen
      ensures Valid()
      ensures m == DrawFrom(table, captured, r)
      ensures currentMessage == Some(m) && !loading && mailboxOpen
      ensures savedMessages == if HasId(captured, m.id) then old(savedMessages) else captured + [m]
    {
      m := DrawFrom(table, captured, r);
      currentMessage := Some(m);
      if !HasId(captured, m.id) {
        savedMessages := captured + [m];
        AppendUnsavedDistinct(captured, m);
      }
      loading := false;
      mailboxOpen := true;
    }

    /** `closeMailbox`. */
    method CloseMailbox()
      requires Valid()
      modifies this`mailboxOpen
      ensures Valid() && !mailboxOpen
    {
      mailboxOpen := false;
    }
  }
}
