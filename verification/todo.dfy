/**
 * The mission-control to-do list: snapshot documents become items ordered by status
 * (`todo`, then `doing`, then `done`), new missions are validated before they are stored,
 * and each status has a badge colour. The store is a log of the calls the widget issues;
 * whether a call succeeds is an input.
 */
module Todo {
  import opened Wrappers
  import opened Text

  /** The fields a stored mission document holds; `idField` is an `id` key inside the data, if any. */
  datatype TodoData = TodoData(idField: Option<string>, title: string, status: string,
                               createdAt: string, userId: string)

  datatype Doc = Doc(docId: string, data: TodoData)

  /** A listed mission. */
  datatype Item = Item(id: string, title: string, status: string, createdAt: string, userId: string)

  datatype StoreCall =
    | AddDoc(data: TodoData)
    | UpdateStatus(id: string, status: string)
    | DeleteDoc(id: string)

  // ---------------------------------------------------------------------
  // Status order
  // ---------------------------------------------------------------------

  /** The statuses the `statusOrder` table knows. */
  predicate Known(status: string) {
    status == "todo" || status == "doing" || status == "done"
  }

  /** `statusOrder[status]` for a known status. */
  function Rank(status: string): (r: nat)
    requires Known(status)
    ensures r <= 2
    ensures status == "todo" <==> r == 0
    ensures status == "done" <==> r == 2
  {
    if status == "todo" then 0 else if status == "doing" then 1 else 2
  }

  /** Two known statuses with the same rank are the same status. */
  lemma RankInjective(s: string, t: string)
    requires Known(s) && Known(t) && Rank(s) == Rank(t)
    ensures s == t
  {
  }

  /**
   * The sort comparator: the difference of the ranks. An unknown status makes the difference
   * `NaN`, which the sort reads as 0, so such an item compares equal to anything.
   */
  function Compare(a: Item, b: Item): (c: int)
    ensures Known(a.status) && Known(b.status) ==> (c > 0 <==> Rank(a.status) > Rank(b.status))
    ensures !(Known(a.status) && Known(b.status)) ==> c == 0
  {
    if Known(a.status) && Known(b.status) then Rank(a.status) - Rank(b.status) else 0
  }

  predicate AllKnown(s: seq<Item>) {
    forall k :: 0 <= k < |s| ==> Known(s[k].status)
  }

  /** Every `todo` item precedes every `doing` item, which precedes every `done` item. */
  predicate SortedByStatus(s: seq<Item>)
    requires AllKnown(s)
  {
    forall k, l :: 0 <= k < l < |s| ==> Rank(s[k].status) <= Rank(s[l].status)
  }

  /** In a list sorted by status, no `done` item comes before a `todo` or `doing` item. */
  lemma DoneItemsLast(s: seq<Item>, k: nat, l: nat)
    requires AllKnown(s) && SortedByStatus(s)
    requires k < l < |s| && s[k].status == "done"
    ensures s[l].status == "done"
  {
    assert Rank(s[k].status) <= Rank(s[l].status);
  }

  /** In a list sorted by status, nothing but `todo` items comes before a `todo` item. */
  lemma TodoItemsFirst(s: seq<Item>, k: nat, l: nat)
    requires AllKnown(s) && SortedByStatus(s)
    requires k < l < |s| && s[l].status == "todo"
    ensures s[k].status == "todo"
  {
    assert Rank(s[k].status) <= Rank(s[l].status);
  }

  // ---------------------------------------------------------------------
  // Snapshot
  // ---------------------------------------------------------------------

  /** `{ ...doc.data(), id: doc.id }`: the document id overrides any `id` in the data. */
  function FromDoc(doc: Doc): (t: Item)
    ensures t.id == doc.docId
    ensures t.title == doc.data.title && t.status == doc.data.status
    ensures t.createdAt == doc.data.createdAt && t.userId == doc.data.userId
  {
    Item(doc.docId, doc.data.title, doc.data.status, doc.data.createdAt, doc.data.userId)
  }

  /** The snapshot's items in document order. */
  function Items(docs: seq<Doc>): (r: seq<Item>)
    ensures |r| == |docs|
    ensures forall k :: 0 <= k < |r| ==> r[k] == FromDoc(docs[k])
  {
    if docs == [] then [] else Items(docs[..|docs| - 1]) + [FromDoc(docs[|docs| - 1])]
  }

  /**
   * A list holding the snapshot's items, each as often, lists only documents' items, each under
   * its document's id.
   */
  lemma ListedItemsAreDocuments(docs: seq<Doc>, todos: seq<Item>)
    requires multiset(todos) == multiset(Items(docs))
    ensures forall t :: t in todos ==> exists d :: d in docs && t == FromDoc(d) && t.id == d.docId
  {
    forall t | t in todos
      ensures exists d :: d in docs && t == FromDoc(d) && t.id == d.docId
    {
      assert t in multiset(todos);
      assert t in Items(docs);
      var k :| 0 <= k < |Items(docs)| && Items(docs)[k] == t;
      assert docs[k] in docs;
    }
  }

  /** The first `n` items are known and ordered by status. */
  predicate PrefixSorted(s: seq<Item>, n: nat) {
    n <= |s| && AllKnown(s) && forall k, l :: 0 <= k < l < n ==> Rank(s[k].status) <= Rank(s[l].status)
  }

  /** The items with status `st`, in list order: `s.filter(t => t.status === st)`. */
  function WithStatus(s: seq<Item>, st: string): (r: seq<Item>)
    ensures |r| <= |s|
  {
    if s == [] then []
    else WithStatus(s[..|s| - 1], st) + (if s[|s| - 1].status == st then [s[|s| - 1]] else [])
  }

  /** The filter keeps exactly the items of status `st`. */
  lemma {:induction false} WithStatusMembers(s: seq<Item>, st: string)
    ensures forall t :: t in WithStatus(s, st) <==> t in s && t.status == st
  {
    if s != [] {
      var n := |s| - 1;
      WithStatusMembers(s[..n], st);
      assert s == s[..n] + [s[n]];
    }
  }

  /** Filtering by status works piecewise on a concatenation. */
  lemma {:induction false} WithStatusConcat(a: seq<Item>, b: seq<Item>, st: string)
    ensures WithStatus(a + b, st) == WithStatus(a, st) + WithStatus(b, st)
  {
    if b != [] {
      var n := |b| - 1;
      assert (a + b)[..|a + b| - 1] == a + b[..n];
      WithStatusConcat(a, b[..n], st);
    } else {
      assert a + b == a;
    }
  }

  /** The items of every status appear in `s` in the same relative order as in `t`. */
  ghost predicate SameStatusOrder(s: seq<Item>, t: seq<Item>) {
    forall st :: WithStatus(s, st) == WithStatus(t, st)
  }

  /** Filtering a list extended by one item: that item is kept iff it has the status. */
  lemma WithStatusSnoc(p: seq<Item>, x: Item, st: string)
    ensures WithStatus(p + [x], st) == WithStatus(p, st) + (if x.status == st then [x] else [])
  {
    assert (p + [x])[..|p|] == p;
  }

  /** Two items of different status give the same filtered list in either order. */
  lemma PairKeepsStatusOrder(x: Item, y: Item, st: string)
    requires x.status != y.status
    ensures WithStatus([x, y], st) == WithStatus([y, x], st)
  {
    WithStatusSnoc([x], y, st);
    WithStatusSnoc([y], x, st);
    WithStatusSnoc([], x, st);
    WithStatusSnoc([], y, st);
    assert [x] + [y] == [x, y] && [y] + [x] == [y, x];
    assert [] + [x] == [x] && [] + [y] == [y];
  }

  /** Swapping two neighbours of different status keeps the items of status `st` in order. */
  lemma SwapKeepsStatus(s: seq<Item>, j: nat, st: string)
    requires 0 < j < |s| && s[j - 1].status != s[j].status
    ensures WithStatus(s[j - 1 := s[j]][j := s[j - 1]], st) == WithStatus(s, st)
  {
    var t := s[j - 1 := s[j]][j := s[j - 1]];
    var front, back := s[..j - 1], s[j + 1..];
    assert s == (front + [s[j - 1], s[j]]) + back;
    assert t == (front + [s[j], s[j - 1]]) + back;
    WithStatusConcat(front + [s[j - 1], s[j]], back, st);
    WithStatusConcat(front, [s[j - 1], s[j]], st);
    WithStatusConcat(front + [s[j], s[j - 1]], back, st);
    WithStatusConcat(front, [s[j], s[j - 1]], st);
    PairKeepsStatusOrder(s[j - 1], s[j], st);
  }

  /** Swapping two neighbours of different status keeps the order within every status. */
  lemma SwapKeepsStatusOrder(s: seq<Item>, j: nat)
    requires 0 < j < |s| && s[j - 1].status != s[j].status
    ensures SameStatusOrder(s[j - 1 := s[j]][j := s[j - 1]], s)
  {
    forall st
      ensures WithStatus(s[j - 1 := s[j]][j := s[j - 1]], st) == WithStatus(s, st)
    {
      SwapKeepsStatus(s, j, st);
    }
  }

  /** `s` is its `todo` items, then its `doing` items, then its `done` items. */
  ghost predicate Grouped(s: seq<Item>) {
    s == WithStatus(s, "todo") + WithStatus(s, "doing") + WithStatus(s, "done")
  }

  /**
   * A list ordered by known statuses is its `todo` items, then its `doing` items, then its
   * `done` items, each group in list order.
   */
  lemma {:induction false} SortedIsGrouped(s: seq<Item>)
    requires AllKnown(s) && SortedByStatus(s)
    ensures Grouped(s)
  {
    if s != [] {
      var n := |s| - 1;
      var p, x := s[..n], s[n];
      assert s == p + [x];
      assert AllKnown(p) && SortedByStatus(p);
      SortedIsGrouped(p);
      // every earlier item ranks no higher than the last one
      assert forall k :: 0 <= k < n ==> Rank(p[k].status) <= Rank(x.status);
      if x.status == "done" {
        GroupedSnocDone(p, x);
      } else if x.status == "doing" {
        NoneWithStatus(p, "done");
        GroupedSnocDoing(p, x);
      } else {
        NoneWithStatus(p, "done");
        NoneWithStatus(p, "doing");
        GroupedSnocTodo(p, x);
      }
    }
  }

  lemma GroupedSnocDone(p: seq<Item>, x: Item)
    requires Grouped(p) && x.status == "done"
    ensures Grouped(p + [x])
  {
    WithStatusSnoc(p, x, "todo");
    WithStatusSnoc(p, x, "doing");
    WithStatusSnoc(p, x, "done");
    var todo, doing, done := WithStatus(p, "todo"), WithStatus(p, "doing"), WithStatus(p, "done");
    assert p + [x] == todo + doing + (done + [x]);
  }

  lemma GroupedSnocDoing(p: seq<Item>, x: Item)
    requires Grouped(p) && WithStatus(p, "done") == [] && x.status == "doing"
    ensures Grouped(p + [x])
  {
    WithStatusSnoc(p, x, "todo");
    WithStatusSnoc(p, x, "doing");
    WithStatusSnoc(p, x, "done");
    var todo, doing := WithStatus(p, "todo"), WithStatus(p, "doing");
    assert p + [x] == todo + (doing + [x]) + [];
  }

  lemma GroupedSnocTodo(p: seq<Item>, x: Item)
    requires Grouped(p) && WithStatus(p, "done") == [] && WithStatus(p, "doing") == [] && x.status == "todo"
    ensures Grouped(p + [x])
  {
    WithStatusSnoc(p, x, "todo");
    WithStatusSnoc(p, x, "doing");
    WithStatusSnoc(p, x, "done");
    var todo := WithStatus(p, "todo");
    assert p + [x] == (todo + [x]) + [] + [];
  }

  /**
   * A list ordered by known statuses that keeps the order within every status of `items` is
   * the `todo` items of `items`, then its `doing` items, then its `done` items.
   */
  lemma StableSortIsGrouping(items: seq<Item>, sorted: seq<Item>)
    requires AllKnown(sorted) && SortedByStatus(sorted) && SameStatusOrder(sorted, items)
    ensures sorted == WithStatus(items, "todo") + WithStatus(items, "doing") + WithStatus(items, "done")
  {
    SortedIsGrouped(sorted);
    assert WithStatus(sorted, "todo") == WithStatus(items, "todo");
    assert WithStatus(sorted, "doing") == WithStatus(items, "doing");
    assert WithStatus(sorted, "done") == WithStatus(items, "done");
  }

  /** A list without an item of status `st` filters to nothing. */
  lemma {:induction false} NoneWithStatus(p: seq<Item>, st: string)
    requires forall k :: 0 <= k < |p| ==> p[k].status != st
    ensures WithStatus(p, st) == []
  {
    if p != [] {
      NoneWithStatus(p[..|p| - 1], st);
    }
  }

  /** `todosArr.sort(...)`: a stable insertion sort in place with the status comparator. */
  method SortByStatus(a: array<Item>)
    modifies a
    ensures multiset(a[..]) == multiset(old(a[..]))
    ensures SameStatusOrder(a[..], old(a[..]))
    ensures AllKnown(old(a[..])) ==> AllKnown(a[..]) && SortedByStatus(a[..])
  {
    ghost var known := AllKnown(a[..]);
    var i := 0;
    while i < a.Length
      invariant 0 <= i <= a.Length
      invariant multiset(a[..]) == multiset(old(a[..]))
      invariant SameStatusOrder(a[..], old(a[..]))
      invariant known ==> PrefixSorted(a[..], i)
    {
      InsertAt(a, i, known);
      i := i + 1;
    }
  }

  /** One insertion pass: the item at `i` moves left past every item that ranks above it. */
  method InsertAt(a: array<Item>, i: nat, ghost known: bool)
    requires i < a.Length
    requires known ==> PrefixSorted(a[..], i)
    modifies a
    ensures multiset(a[..]) == multiset(old(a[..]))
    ensures SameStatusOrder(a[..], old(a[..]))
    ensures known ==> PrefixSorted(a[..], i + 1)
  {
    var j := i;
    while j > 0 && Compare(a[j - 1], a[j]) > 0
      invariant 0 <= j <= i
      invariant multiset(a[..]) == multiset(old(a[..]))
      invariant SameStatusOrder(a[..], old(a[..]))
      invariant known ==> SortedExcept(a[..], i, j)
    {
      ghost var s := a[..];
      a[j - 1], a[j] := a[j], a[j - 1];
      assert a[..] == s[j - 1 := s[j]][j := s[j - 1]];
      SwapKeepsStatusOrder(s, j);
      if known {
        SwapStep(s, i, j);
      }
      j := j - 1;
    }
    if known {
      InsertDone(a[..], i, j);
    }
  }

  /**
   * Items `0..i` are known and ordered, except that the item at `j` may rank below the items
   * before it (it ranks no higher than those after it).
   */
  predicate SortedExcept(s: seq<Item>, i: nat, j: nat) {
    j <= i < |s| && AllKnown(s)
    && forall k, l :: 0 <= k < l <= i && l != j ==> Rank(s[k].status) <= Rank(s[l].status)
  }

  /** Swapping the out-of-place item one step left keeps the rest in order. */
  lemma SwapStep(s: seq<Item>, i: nat, j: nat)
    requires SortedExcept(s, i, j) && 0 < j
    requires Rank(s[j - 1].status) > Rank(s[j].status)
    ensures SortedExcept(s[j - 1 := s[j]][j := s[j - 1]], i, j - 1)
  {
    var t := s[j - 1 := s[j]][j := s[j - 1]];
    assert AllKnown(t) by {
      forall k | 0 <= k < |t|
        ensures Known(t[k].status)
      {
        assert t[k] == s[k] || t[k] == s[j] || t[k] == s[j - 1];
      }
    }
    forall k, l | 0 <= k < l <= i && l != j - 1
      ensures Rank(t[k].status) <= Rank(t[l].status)
    {
      var k' := if k == j - 1 then j else if k == j then j - 1 else k;
      var l' := if l == j then j - 1 else l;
      assert t[k] == s[k'] && t[l] == s[l'];
    }
  }

  /** The pass stops at the start or below an item of no higher rank: then `0..i` is ordered. */
  lemma InsertDone(s: seq<Item>, i: nat, j: nat)
    requires SortedExcept(s, i, j)
    requires j == 0 || Compare(s[j - 1], s[j]) <= 0
    ensures PrefixSorted(s, i + 1)
  {
    forall k, l | 0 <= k < l <= i
      ensures Rank(s[k].status) <= Rank(s[l].status)
    {
      if l == j && k < j - 1 {
        assert Rank(s[k].status) <= Rank(s[j - 1].status);
      }
    }
  }

  // ---------------------------------------------------------------------
  // Badge colour
  // ---------------------------------------------------------------------

  /** `getStatusColor`: red, yellow and green for the known statuses, gray for anything else. */
  function StatusColor(status: string): (c: string)
    ensures c == "bg-gray-500" <==> !Known(status)
    ensures c == "bg-red-500" <==> status == "todo"
    ensures c == "bg-yellow-500" <==> status == "doing"
    ensures c == "bg-green-500" <==> status == "done"
  {
    match status
    case "todo" => "bg-red-500"
    case "doing" => "bg-yellow-500"
    case "done" => "bg-green-500"
    case _ => "bg-gray-500"
  }

  /** The badge tells the known statuses apart. */
  lemma StatusColorInjective(s: string, t: string)
    requires Known(s) && StatusColor(s) == StatusColor(t)
    ensures s == t
  {
  }

  // ---------------------------------------------------------------------
  // The widget
  // ---------------------------------------------------------------------

  class TodoList {
    var user: Option<string>
    var todos: seq<Item>
    var newTodo: string
    var storeCalls: seq<StoreCall>

    constructor (user: Option<string>)
      ensures this.user == user && todos == [] && newTodo == "" && storeCalls == []
    {
      this.user := user;
      todos := [];
      newTodo := "";
      storeCalls := [];
    }

    /**
     * The snapshot listener: push every document's item, then sort by status. The list holds
     * exactly the snapshot's items; it is ordered by status whenever every status is known.
     */
    method ApplySnapshot(docs: seq<Doc>)
      modifies this`todos
      ensures multiset(todos) == multiset(Items(docs))
      ensures SameStatusOrder(todos, Items(docs))
      ensures AllKnown(Items(docs)) ==> AllKnown(todos) && SortedByStatus(todos)
      ensures AllKnown(Items(docs)) ==>
                var items := Items(docs);
                todos == WithStatus(items, "todo") + WithStatus(items, "doing") + WithStatus(items, "done")
    {
      var arr: seq<Item> := [];
      for i := 0 to |docs|
        invariant arr == Items(docs[..i])
      {
        assert docs[..i + 1][..i] == docs[..i];
        arr := arr + [FromDoc(docs[i])];
      }
      assert docs[..|docs|] == docs;
      var a := new Item[|arr|](k requires 0 <= k < |arr| => arr[k]);
      assert a[..] == arr;
      SortByStatus(a);
      todos := a[..];
      if AllKnown(Items(docs)) {
        StableSortIsGrouping(Items(docs), todos);
      }
    }

    method SetNewTodo(s: string)
      modifies this`newTodo
      ensures newTodo == s
    {
      newTodo := s;
    }

    /**
     * `addTodo`: a whitespace-only title is refused without a store call. Without a signed-in
     * user, reading its uid throws before the store is called. Otherwise one `todo` mission with
     * the typed title is stored, and the input is cleared when that succeeds.
     */
    method AddTodo(createdAt: string, ok: bool) returns (outcome: Outcome)
      modifies this`storeCalls, this`newTodo
      ensures outcome == Rejected <==> IsBlank(old(newTodo))
      ensures outcome == Rejected || user.None? ==> storeCalls == old(storeCalls)
      ensures outcome != Rejected && user.Some? ==>
                storeCalls == old(storeCalls) + [AddDoc(TodoData(None, old(newTodo), "todo", createdAt, user.value))]
      ensures outcome == Done <==> outcome != Rejected && user.Some? && ok
      ensures newTodo == (if outcome == Done then "" else old(newTodo))
    {
      if Trim(newTodo) == [] {
        return Rejected;
      }
      if user.None? {
        // reading `user.uid` throws before the store is called
        return Failed;
      }
      storeCalls := storeCalls + [AddDoc(TodoData(None, newTodo, "todo", createdAt, user.value))];
      if ok {
        newTodo := "";
        outcome := Done;
      } else {
        outcome := Failed;
      }
    }

    /** `updateStatus`: one status update for the id, whatever the id. */
    method UpdateStatusOf(id: string, status: string, ok: bool) returns (outcome: Outcome)
      modifies this`storeCalls
      ensures storeCalls == old(storeCalls) + [UpdateStatus(id, status)]
      ensures outcome == (if ok then Done else Failed)
    {
      storeCalls := storeCalls + [UpdateStatus(id, status)];
      outcome := if ok then Done else Failed;
    }

    /** `deleteTodo`: one delete for the id. */
    method DeleteTodo(id: string, ok: bool) returns (outcome: Outcome)
      modifies this`storeCalls
      ensures storeCalls == old(storeCalls) + [DeleteDoc(id)]
      ensures outcome == (if ok then Done else Failed)
    {
      storeCalls := storeCalls + [DeleteDoc(id)];
      outcome := if ok then Done else Failed;
    }
  }
}
