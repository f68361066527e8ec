/** The kernel's intrusive circular list: linked items around an end marker, and the index that walks it. */
module KernelList {
  import opened Ticks
  import opened ListSpec

  // ListItem_t. The end marker (MiniListItem_t) is used through the same type.
  class ListItem {
    var value: Tick
    var owner: nat
    var next: ListItem?
    var previous: ListItem?
    var container: List?

    // vListInitialiseItem, with the value and owner set by the caller's macros.
    constructor (value: Tick, owner: nat)
      ensures container == null && this.value == value && this.owner == owner
    {
      this.value, this.owner := value, owner;
      next, previous, container := null, null, null;
    }
  }

  class List {
    var index: ListItem           // pxIndex
    var end: ListItem             // xListEnd
    var count: nat                // uxNumberOfItems
    ghost var ring: seq<ListItem> // the end marker followed by the items
    ghost var at: nat             // where in the ring the index is
    ghost var history: seq<Operation> // the sorted inserts and the removals so far

    // One cycle through the end marker in both directions.
    static ghost predicate Cycle(r: seq<ListItem>)
      reads r`next, r`previous
    {
      && |r| > 0
      && (forall i {:trigger r[i].next} :: 0 <= i < |r| - 1 ==> r[i].next == r[i + 1])
      && r[|r| - 1].next == r[0]
      && (forall i {:trigger r[i].previous} :: 1 <= i < |r| ==> r[i].previous == r[i - 1])
      && r[0].previous == r[|r| - 1]
    }

    static ghost predicate Distinct(r: seq<ListItem>) {
      forall i, j :: 0 <= i < j < |r| ==> r[i] != r[j]
    }

    // The links, and matching container, count and index fields.
    ghost predicate Valid()
      reads this, ring
    {
      && Cycle(ring) && Distinct(ring)
      && ring[0] == end && end.value == MAX_DELAY
      && (forall i :: 0 <= i < |ring| ==> ring[i].container == this)
      && count == |ring| - 1
      && at < |ring| && index == ring[at]
    }

    ghost function Items(): seq<ListItem>
      reads this, ring
      requires Valid()
    {
      ring[1..]
    }

    ghost function Entries(): seq<Entry>
      reads this, ring
      requires Valid()
    {
      EntriesOf(Items())
    }

    static ghost function EntriesOf(items: seq<ListItem>): seq<Entry>
      reads items
    {
      seq(|items|, i requires 0 <= i < |items| reads items => Entry(items[i].value, items[i].owner))
    }

    // The list holds what its sorted inserts and removals make: no item came through vListInsertEnd, and no value
    // was changed inside the list.
    ghost predicate Built()
      reads this, ring
      requires Valid()
    {
      Entries() == EntriesIn(Build(history))
    }

    // The order in which listGET_OWNER_OF_NEXT_ENTRY will return the items; the one it returned last comes last.
    ghost function Walk(): seq<ListItem>
      reads this, ring
      requires Valid()
    {
      WalkOf(Items(), at)
    }

    // vListInitialise
    constructor ()
      ensures Valid() && Items() == [] && fresh(end) && ring == [end]
      ensures history == [] && Built()
    {
      var marker := new ListItem(MAX_DELAY, 0);
      index, end := marker, marker;
      count := 0;
      ring, at, history := [marker], 0, [];
      new;
      end.next, end.previous, end.container := end, end, this;
    }

    static lemma Neighbours(r: seq<ListItem>, i: nat)
      requires Cycle(r) && i < |r|
      ensures r[i].next == r[if i == |r| - 1 then 0 else i + 1]
      ensures r[i].previous == r[if i == 0 then |r| - 1 else i - 1]
    {
    }

    static function Spliced<T>(s: seq<T>, k: nat, x: T): (r: seq<T>)
      requires k <= |s|
      ensures |r| == |s| + 1 && r[k] == x
      ensures forall i :: 0 <= i < k ==> r[i] == s[i]
      ensures forall i :: k < i < |r| ==> r[i] == s[i - 1]
    {
      s[..k] + [x] + s[k..]
    }

    // Linking `item` in between two neighbours keeps the cycle.
    static lemma SplicedCycle(r: seq<ListItem>, k: nat, item: ListItem)
      requires Distinct(r) && item !in r && 1 <= k <= |r|
      requires item.previous == r[k - 1] && r[k - 1].next == item
      requires k == |r| ==> item.next == r[0] && r[0].previous == item
      requires k < |r| ==> item.next == r[k] && r[k].previous == item
      requires forall i {:trigger r[i].next} :: 0 <= i < |r| - 1 && i != k - 1 ==> r[i].next == r[i + 1]
      requires forall i {:trigger r[i].previous} :: 1 <= i < |r| && i != k ==> r[i].previous == r[i - 1]
      requires k < |r| ==> r[|r| - 1].next == r[0] && r[0].previous == r[|r| - 1]
      ensures Cycle(Spliced(r, k, item)) && Distinct(Spliced(r, k, item))
    {
      var t := Spliced(r, k, item);
      forall i | 0 <= i < |t| - 1 ensures t[i].next == t[i + 1] {
        if i < k - 1 { assert t[i] == r[i] && t[i + 1] == r[i + 1]; }
        else if i > k { assert t[i] == r[i - 1] && t[i + 1] == r[i]; }
      }
      forall i | 1 <= i < |t| ensures t[i].previous == t[i - 1] {
        if i < k { assert t[i] == r[i] && t[i - 1] == r[i - 1]; }
        else if i > k + 1 { assert t[i] == r[i - 1] && t[i - 1] == r[i - 2]; }
      }
    }

    // The four link updates with which both inserts put `item` between two neighbours of a ring.
    static method Link(left: ListItem, item: ListItem, right: ListItem, ghost r: seq<ListItem>, ghost k: nat)
      requires Cycle(r) && Distinct(r) && item !in r
      requires 1 <= k <= |r| && left == r[k - 1]
      requires if k == |r| then right == r[0] else right == r[k]
      modifies left`next, right`previous, item`next, item`previous
      ensures Cycle(Spliced(r, k, item)) && Distinct(Spliced(r, k, item))
    {
      item.next := right;
      item.previous := left;
      left.next := item;
      right.previous := item;
      SplicedCycle(r, k, item);
    }

    // Both inserts: the new item becomes ring[k], the item and the list learn of it.
    method LinkAt(left: ListItem, item: ListItem, right: ListItem, ghost k: nat)
      requires Valid() && item.container == null
      requires 1 <= k <= |ring| && left == ring[k - 1]
      requires if k == |ring| then right == ring[0] else right == ring[k]
      modifies this, ring`next, ring`previous, item`next, item`previous, item`container
      ensures Valid() && end == old(end) && index == old(index) && history == old(history)
      ensures ring == Spliced(old(ring), k, item)
      ensures old(at) >= k ==> at == old(at) + 1
      ensures old(at) < k ==> at == old(at)
    {
      ghost var r := ring;
      assert item !in r;
      Link(left, item, right, r, k);
      item.container := this;
      count := count + 1;
      ring := Spliced(r, k, item);
      if at >= k { at := at + 1; }
      assert Cycle(ring) && Distinct(ring);
      assert forall i :: 0 <= i < |ring| ==> ring[i].container == this;
    }

    // vListInsertEnd: link the item in just before the index.
    method InsertEnd(item: ListItem)
      requires Valid() && item.container == null
      modifies this, ring`next, ring`previous, item`next, item`previous, item`container
      ensures Valid() && end == old(end) && index == old(index)
      ensures old(at) == 0 ==> at == 0 && ring == Spliced(old(ring), |old(ring)|, item)
      ensures old(at) > 0 ==> at == old(at) + 1 && ring == Spliced(old(ring), old(at), item)
      ensures old(at) == 0 ==> Walk() == old(Walk()) + [item]
      ensures old(at) > 0 ==> Walk() == Spliced(old(Walk()), |old(Walk())| - 1, item)
      ensures Walk()[|Walk()| - 1] == item <==> old(at) == 0
    {
      ghost var r, position := ring, at;
      LinkBeforeIndex(item);
      InsertEndWalk(r, position, item);
      LastExactly(r, position, item);
    }

    method LinkBeforeIndex(item: ListItem)
      requires Valid() && item.container == null
      modifies this, ring`next, ring`previous, item`next, item`previous, item`container
      ensures Valid() && end == old(end) && index == old(index) && item !in old(ring)
      ensures old(at) == 0 ==> at == 0 && ring == Spliced(old(ring), |old(ring)|, item)
      ensures old(at) > 0 ==> at == old(at) + 1 && ring == Spliced(old(ring), old(at), item)
    {
      ghost var k := if at == 0 then |ring| else at;
      Neighbours(ring, at);
      LinkAt(index.previous, item, index, k);
    }

    static lemma SplicedTail(r: seq<ListItem>, k: nat, item: ListItem)
      requires k < |r|
      ensures Spliced(r, k + 1, item)[1..] == Spliced(r[1..], k, item)
    {
    }

    static lemma SplicedEntries(items: seq<ListItem>, entries: seq<Entry>, k: nat, item: ListItem)
      requires k <= |items| == |entries|
      requires forall i :: 0 <= i < |items| ==> entries[i] == Entry(items[i].value, items[i].owner)
      ensures EntriesOf(Spliced(items, k, item)) == Spliced(entries, k, Entry(item.value, item.owner))
    {
    }

    // An item put in before the index comes last in the walk, save for the item the index itself stands on.
    static lemma InsertEndWalk(r: seq<ListItem>, at: nat, item: ListItem)
      requires at < |r|
      ensures at == 0 ==> WalkOf(Spliced(r, |r|, item)[1..], 0) == WalkOf(r[1..], 0) + [item]
      ensures at > 0 ==> WalkOf(Spliced(r, at, item)[1..], at + 1) == Spliced(WalkOf(r[1..], at), |r| - 2, item)
    {
      if at == 0 {
        assert Spliced(r, |r|, item)[1..] == r[1..] + [item];
      } else {
        var items := Spliced(r, at, item)[1..];
        assert items[at + 1..] == r[at + 1..] && items[..at + 1] == r[1..at] + [item, r[at]];
        assert WalkOf(r[1..], at) == r[at + 1..] + r[1..at] + [r[at]];
      }
    }

    // So it comes last exactly when the index stands on the marker.
    static lemma LastExactly(r: seq<ListItem>, at: nat, item: ListItem)
      requires at < |r| && item !in r
      ensures at == 0 ==> WalkOf(Spliced(r, |r|, item)[1..], 0)[|r| - 1] == item
      ensures at > 0 ==> WalkOf(Spliced(r, at, item)[1..], at + 1)[|r| - 1] == r[at] != item
    {
      InsertEndWalk(r, at, item);
    }

    // The search of vListInsert: past every item whose value does not exceed the new one. It ends because the end
    // marker holds the highest value there is, which is why that value itself is handled apart.
    method FindPosition(valueOfInsertion: Tick) returns (position: ListItem, ghost k: nat)
      requires Valid()
      ensures k < |ring| && position == ring[k]
      ensures valueOfInsertion == MAX_DELAY ==> k == |ring| - 1
      ensures forall i :: 1 <= i <= k ==> ring[i].value <= valueOfInsertion
      ensures k < |ring| - 1 ==> ring[k + 1].value > valueOfInsertion
    {
      Neighbours(ring, 0);
      if valueOfInsertion == MAX_DELAY {
        position, k := end.previous, |ring| - 1;
      } else {
        position, k := end, 0;
        while position.next.value <= valueOfInsertion
          invariant k < |ring| && position == ring[k]
          invariant position.next == ring[if k == |ring| - 1 then 0 else k + 1]
          invariant forall i :: 1 <= i <= k ==> ring[i].value <= valueOfInsertion
          decreases |ring| - k
        {
          position, k := position.next, k + 1;
          Neighbours(ring, k);
        }
      }
    }

    // vListInsert: link the item in after every item whose value does not exceed its own.
    method Insert(item: ListItem) returns (ghost k: nat)
      requires Valid() && item.container == null
      modifies this, ring`next, ring`previous, item`next, item`previous, item`container
      ensures Valid() && end == old(end) && index == old(index)
      ensures Entries() == ListSpec.Insert(old(Entries()), Entry(item.value, item.owner))
      ensures k <= |old(Items())| && Items() == Spliced(old(Items()), k, item)
      ensures history == old(history) + [InsertItem(Entry(item.value, item.owner))]
      ensures old(Built()) ==> Built()
    {
      ghost var e := Entry(item.value, item.owner);
      var position;
      position, k := FindPosition(item.value);
      InsertedHistory(history, Entries(), e);
      InsertPosition(Entries(), e, k);
      LinkBehind(position, item, k);
      Record(InsertItem(e));
    }

    ghost method Record(op: Operation)
      requires Valid()
      modifies this`history
      ensures Valid() && ring == old(ring) && history == old(history) + [op]
      ensures end == old(end) && index == old(index) && at == old(at) && Entries() == old(Entries())
    {
      history := history + [op];
    }

    // The linking part of vListInsert: the new item goes between `position` and its next item.
    method LinkBehind(position: ListItem, item: ListItem, ghost k: nat)
      requires Valid() && item.container == null
      requires k < |ring| && position == ring[k]
      modifies this, ring`next, ring`previous, item`next, item`previous, item`container
      ensures Valid() && end == old(end) && index == old(index) && history == old(history)
      ensures Items() == Spliced(old(Items()), k, item)
      ensures Entries() == old(Entries())[..k] + [Entry(item.value, item.owner)] + old(Entries())[k..]
    {
      ghost var r, entries := ring, Entries();
      Neighbours(ring, k);
      LinkAt(position, item, position.next, k + 1);
      assert forall i :: 0 <= i < |entries| ==> entries[i] == Entry(r[i + 1].value, r[i + 1].owner);
      InsertedEntries(r, k, item, entries);
      assert ring == Spliced(r, k + 1, item);
    }

    static lemma InsertedEntries(r: seq<ListItem>, k: nat, item: ListItem, entries: seq<Entry>)
      requires k < |r| == |entries| + 1
      requires forall i :: 0 <= i < |entries| ==> entries[i] == Entry(r[i + 1].value, r[i + 1].owner)
      ensures Spliced(r, k + 1, item)[1..] == Spliced(r[1..], k, item)
      ensures EntriesOf(Spliced(r, k + 1, item)[1..]) == entries[..k] + [Entry(item.value, item.owner)] + entries[k..]
    {
      SplicedTail(r, k, item);
      SplicedEntries(r[1..], entries, k, item);
    }

    static lemma InsertedHistory(history: seq<Operation>, entries: seq<Entry>, e: Entry)
      ensures entries == EntriesIn(Build(history)) ==>
        ListSpec.Insert(entries, e) == EntriesIn(Build(history + [InsertItem(e)]))
    {
      BuildStep(history, InsertItem(e));
      AppliedInsert(Build(history), e, |history|);
    }

    static lemma RemovedHistory(history: seq<Operation>, entries: seq<Entry>, k: nat)
      requires k < |entries|
      ensures entries == EntriesIn(Build(history)) ==>
        Cut(entries, k) == EntriesIn(Build(history + [RemoveAt(k)]))
      ensures OnlyItemOf(entries, k) ==> Cut(entries, k) == ListSpec.Remove(entries, entries[k].owner)
    {
      BuildStep(history, RemoveAt(k));
      if entries == EntriesIn(Build(history)) {
        AppliedRemove(Build(history), k, |history|);
      }
      if OnlyItemOf(entries, k) {
        RemovePosition(entries, entries[k].owner, k);
      }
    }

    // Take ring[k] out: its neighbours, the index if it stands there, the container and the count.
    method TakeOut(item: ListItem, ghost k: nat)
      requires Valid() && 1 <= k < |ring| && item == ring[k]
      modifies this, ring`next, ring`previous, item`container
      ensures Valid() && end == old(end) && item.container == null && history == old(history)
      ensures ring == Cut(old(ring), k) && at == if old(at) >= k then old(at) - 1 else old(at)
    {
      Unlink(item, ring, k);
      Forget(item, k);
    }

    method TakeOutEntry(item: ListItem, ghost k: nat)
      requires Valid() && 1 <= k < |ring| && item == ring[k]
      modifies this, ring`next, ring`previous, item`container
      ensures Valid() && end == old(end) && item.container == null && history == old(history) + [RemoveAt(k - 1)]
      ensures ring == Cut(old(ring), k) && at == if old(at) >= k then old(at) - 1 else old(at)
      ensures Entries() == Cut(old(Entries()), k - 1)
    {
      ghost var r, entries := ring, Entries();
      TakeOut(item, k);
      assert Entries() == Cut(entries, k - 1) by { CutEntries(r, k, entries); }
      Record(RemoveAt(k - 1));
    }

    // The rest of uxListRemove: the index, the container and the count, once the links pass the item by.
    method Forget(item: ListItem, ghost k: nat)
      requires 1 <= k < |ring| && item == ring[k] && item.previous == ring[k - 1]
      requires Cycle(Cut(ring, k)) && Distinct(Cut(ring, k)) && Distinct(ring)
      requires ring[0] == end && end.value == MAX_DELAY
      requires forall i :: 0 <= i < |ring| ==> ring[i].container == this
      requires count == |ring| - 1 && at < |ring| && index == ring[at]
      modifies this, item`container
      ensures Valid() && end == old(end) && item.container == null && history == old(history)
      ensures ring == Cut(old(ring), k) && at == if old(at) >= k then old(at) - 1 else old(at)
    {
      CutKeepsIndex(ring, at, k);
      if index == item {
        index := item.previous;
      }
      item.container := null;
      count := count - 1;
      at := if at >= k then at - 1 else at;
      ring := Cut(ring, k);
    }

    // uxListRemove, once the list of the item is known; the item is ring[k].
    method Remove(item: ListItem, ghost k: nat) returns (left: nat)
      requires Valid() && 1 <= k < |ring| && item == ring[k]
      modifies this, ring`next, ring`previous, item`container
      ensures Valid() && end == old(end) && item.container == null && left == |ring| - 1
      ensures ring == Cut(old(ring), k) && at == if old(at) >= k then old(at) - 1 else old(at)
      ensures Entries() == Cut(old(Entries()), k - 1)
      ensures OnlyItemOf(old(Entries()), k - 1) ==> Entries() == ListSpec.Remove(old(Entries()), item.owner)
      ensures history == old(history) + [RemoveAt(k - 1)]
      ensures old(Built()) ==> Built()
    {
      ghost var entries, operations := Entries(), history;
      assert entries[k - 1].owner == item.owner;
      TakeOutEntry(item, k);
      RemovedHistory(operations, entries, k - 1);
      left := count;
    }

    static lemma CutEntries(r: seq<ListItem>, k: nat, entries: seq<Entry>)
      requires 1 <= k < |r| == |entries| + 1
      requires forall i :: 0 <= i < |entries| ==> entries[i] == Entry(r[i + 1].value, r[i + 1].owner)
      ensures EntriesOf(Cut(r, k)[1..]) == Cut(entries, k - 1)
    {
    }

    // listGET_OWNER_OF_NEXT_ENTRY: step the index to the next item, skipping the end marker.
    method GetOwnerOfNextEntry() returns (owner: nat)
      requires Valid() && count > 0
      modifies this`index, this`at
      ensures Valid() && ring == old(ring) && history == old(history)
      ensures index == old(Walk())[0] && owner == index.owner
      ensures Walk() == old(Walk())[1..] + [old(Walk())[0]]
    {
      Neighbours(ring, at);
      index := index.next;
      at := if at == |ring| - 1 then 0 else at + 1;
      if index == end {
        Neighbours(ring, 0);
        index := index.next;
        at := 1;
      }
      owner := index.owner;
      WalkStep(ring[1..], old(at));
    }
  }

  // A list built with vListInsert and uxListRemove is sorted, and items of equal value stand in the order in which
  // they were inserted: the i-th item is that of the insert which history numbers arrivals[i].stamp.
  lemma LinkedSortedAndStable(list: List) returns (arrivals: seq<Arrival>)
    requires list.Valid() && list.Built()
    ensures Sorted(list.Entries())
    ensures EntriesIn(arrivals) == list.Entries() && Ordered(arrivals)
    ensures forall i :: 0 <= i < |arrivals| ==> Genuine(list.history, arrivals[i])
  {
    arrivals := Build(list.history);
    BuildSortedAndStable(list.history);
    assert forall i :: 0 <= i < |arrivals| ==> EntriesIn(arrivals)[i] == arrivals[i].entry;
  }

  // No other item of the list has the owner of this one.
  ghost predicate OnlyItemOf(s: seq<Entry>, k: nat) {
    k < |s| && forall i :: 0 <= i < |s| && i != k ==> s[i].owner != s[k].owner
  }

  // Inserted at the end of a list of one that has been walked, an item is returned before the other.
  method InsertedAfterWalking(a: ListItem, b: ListItem) returns (list: List)
    requires a != b && a.container == null && b.container == null
    modifies a`next, a`previous, a`container, b`next, b`previous, b`container
    ensures list.Valid() && list.Walk() == [b, a]
  {
    list := new List();
    list.InsertEnd(a);
    var _ := list.GetOwnerOfNextEntry();
    list.InsertEnd(b);
  }

  function WalkOf<T>(items: seq<T>, at: nat): seq<T>
    requires at <= |items|
  {
    items[at..] + items[..at]
  }

  // Stepping the index, over the end marker if need be, moves the first item of the walk to its end.
  lemma WalkStep(items: seq<ListItem>, at: nat)
    requires at <= |items| && items != []
    ensures WalkOf(items, if at == |items| then 1 else at + 1) == WalkOf(items, at)[1..] + [WalkOf(items, at)[0]]
    ensures WalkOf(items, at)[0] == items[if at == |items| then 0 else at]
  {
  }

  // The two link updates that take r[k] out of a ring.
  method Unlink(item: ListItem, ghost r: seq<ListItem>, ghost k: nat)
    requires List.Cycle(r) && List.Distinct(r) && 1 <= k < |r| && item == r[k]
    modifies r`next, r`previous
    ensures List.Cycle(Cut(r, k)) && List.Distinct(Cut(r, k))
    ensures item.previous == r[k - 1]
  {
    List.Neighbours(r, k);
    item.next.previous := item.previous;
    item.previous.next := item.next;
    ghost var t := Cut(r, k);
    forall i | 0 <= i < |t| - 1 ensures t[i].next == t[i + 1] {
      if i >= k { assert t[i] == r[i + 1] && t[i + 1] == r[i + 2]; }
    }
    forall i | 1 <= i < |t| ensures t[i].previous == t[i - 1] {
      if i > k { assert t[i] == r[i + 1] && t[i - 1] == r[i]; }
    }
  }

  function Cut<T>(s: seq<T>, k: nat): (r: seq<T>)
    requires k < |s|
    ensures |r| == |s| - 1
    ensures forall i :: 0 <= i < k ==> r[i] == s[i]
    ensures forall i :: k <= i < |r| ==> r[i] == s[i + 1]
  {
    s[..k] + s[k + 1..]
  }

  // uxListRemove: the item knows its list.
  method RemoveItem(item: ListItem) returns (left: nat, ghost k: nat)
    requires item.container != null && item.container.Valid() && item in item.container.Items()
    modifies item.container, item.container.ring`next, item.container.ring`previous, item`container
    ensures item.container == null
    ensures old(item.container).Valid() && left == |old(item.container).ring| - 1
    ensures 1 <= k < |old(item.container.ring)| && old(item.container.ring)[k] == item
    ensures old(item.container).ring == Cut(old(item.container.ring), k)
    ensures var list := old(item.container);
      && list.Entries() == Cut(old(item.container.Entries()), k - 1)
      && list.history == old(item.container.history) + [RemoveAt(k - 1)]
      && (OnlyItemOf(old(item.container.Entries()), k - 1) ==>
            list.Entries() == ListSpec.Remove(old(item.container.Entries()), item.owner))
      && (old(item.container.Built()) ==> list.Built())
    ensures var at := old(item.container.at); old(item.container).at == if at >= k then at - 1 else at
  {
    var list := item.container;
    k :| 1 <= k < |list.ring| && list.ring[k] == item;
    left := list.Remove(item, k);
  }

  lemma CutKeepsIndex(r: seq<ListItem>, at: nat, k: nat)
    requires List.Distinct(r) && at < |r| && 1 <= k < |r|
    ensures Cut(r, k)[if at >= k then at - 1 else at] == if at == k then r[k - 1] else r[at]
    ensures at != k ==> r[at] != r[k]
  {
  }

  // Where in the walk the k-th of n items comes when the index stands behind `at` items.
  function WalkPosition(n: nat, at: nat, k: nat): nat
    requires k < n && at <= n
    ensures WalkPosition(n, at, k) < n
  {
    if k >= at then k - at else n - at + k
  }

  // The removed item leaves the list and the walk, in which all other items keep their order.
  lemma RemovedFromWalk(r: seq<ListItem>, at: nat, k: nat)
    requires at < |r| && 1 <= k < |r|
    ensures Cut(r, k)[1..] == Cut(r[1..], k - 1)
    ensures WalkOf(r[1..], at)[WalkPosition(|r| - 1, at, k - 1)] == r[k]
    ensures WalkOf(Cut(r, k)[1..], if at >= k then at - 1 else at)
         == Cut(WalkOf(r[1..], at), WalkPosition(|r| - 1, at, k - 1))
  {
    assert Cut(r, k)[1..] == Cut(r[1..], k - 1);
    WalkCut(r[1..], at, k - 1);
  }

  lemma WalkCut<T>(s: seq<T>, at: nat, j: nat)
    requires at <= |s| && j < |s|
    ensures WalkOf(s, at)[WalkPosition(|s|, at, j)] == s[j]
    ensures WalkOf(Cut(s, j), if at > j then at - 1 else at) == Cut(WalkOf(s, at), WalkPosition(|s|, at, j))
  {
    if at > j {
      assert Cut(s, j)[at - 1..] == s[at..] && Cut(s, j)[..at - 1] == s[..j] + s[j + 1..at];
    } else {
      assert Cut(s, j)[at..] == s[at..j] + s[j + 1..] && Cut(s, j)[..at] == s[..at];
    }
  }
}
