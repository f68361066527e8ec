/** Kernel lists as sequences: what vListInsert and uxListRemove do to the items of a list. */
module ListSpec {
  import opened Ticks

  // A list item: xItemValue and pvOwner.
  datatype Entry = Entry(value: Tick, owner: nat)

  // vListInsert walks past every leading item whose value does not exceed the new one.
  function Insert(s: seq<Entry>, e: Entry): seq<Entry> {
    if s == [] || s[0].value > e.value then [e] + s else [s[0]] + Insert(s[1..], e)
  }

  // uxListRemove on the item owned by `owner`, a no-op when it is not in this list.
  function Remove(s: seq<Entry>, owner: nat): seq<Entry> {
    if s == [] then []
    else if s[0].owner == owner then Remove(s[1..], owner)
    else [s[0]] + Remove(s[1..], owner)
  }

  // The values under which `owner` appears in the list, in list order.
  function Values(s: seq<Entry>, owner: nat): seq<Tick> {
    if s == [] then []
    else if s[0].owner == owner then [s[0].value] + Values(s[1..], owner)
    else Values(s[1..], owner)
  }

  // The items with the given value, in list order: their arrival order.
  function Ties(s: seq<Entry>, value: Tick): seq<Entry> {
    if s == [] then []
    else if s[0].value == value then [s[0]] + Ties(s[1..], value)
    else Ties(s[1..], value)
  }

  ghost predicate Sorted(s: seq<Entry>) {
    forall i, j :: 0 <= i < j < |s| ==> s[i].value <= s[j].value
  }

  // How far below the wrap the values of a list lie, summed.
  function Headroom(s: seq<Entry>): nat {
    if s == [] then 0 else 0x1_0000_0000 - s[0].value + Headroom(s[1..])
  }

  lemma {:induction false} InsertMultiset(s: seq<Entry>, e: Entry)
    ensures multiset(Insert(s, e)) == multiset(s) + multiset{e}
  {
    if s == [] || s[0].value > e.value {
    } else {
      InsertMultiset(s[1..], e);
      assert s == [s[0]] + s[1..];
    }
  }

  lemma {:induction false} InsertHeadroom(s: seq<Entry>, e: Entry)
    ensures Headroom(Insert(s, e)) == Headroom(s) + WRAP - e.value
  {
    if s == [] || s[0].value > e.value {
      assert ([e] + s)[1..] == s;
    } else {
      InsertHeadroom(s[1..], e);
      assert Insert(s, e)[1..] == Insert(s[1..], e);
    }
  }

  lemma {:induction false} InsertSorted(s: seq<Entry>, e: Entry)
    requires Sorted(s)
    ensures Sorted(Insert(s, e))
  {
    if s == [] || s[0].value > e.value {
    } else {
      var rest, t := s[1..], Insert(s[1..], e);
      InsertSorted(rest, e);
      InsertMultiset(rest, e);
      forall j | 0 <= j < |t| ensures s[0].value <= t[j].value {
        assert t[j] in multiset(t);
        assert t[j] == e || t[j] in rest;
      }
      SortedCons(s[0], t);
    }
  }

  lemma SortedCons(e: Entry, s: seq<Entry>)
    requires Sorted(s) && forall j :: 0 <= j < |s| ==> e.value <= s[j].value
    ensures Sorted([e] + s)
  {
  }

  // Items of equal value keep their arrival order: the new one comes after all of them.
  lemma {:induction false} InsertTies(s: seq<Entry>, e: Entry, value: Tick)
    requires Sorted(s)
    ensures Ties(Insert(s, e), value) == if value == e.value then Ties(s, value) + [e] else Ties(s, value)
  {
    if s == [] {
      assert Insert(s, e) == [e];
      assert Ties([e][1..], value) == [];
    } else if s[0].value > e.value {
      assert ([e] + s)[1..] == s;
      NoTies(s, e.value);
    } else {
      InsertTies(s[1..], e, value);
      assert Insert(s, e)[1..] == Insert(s[1..], e);
    }
  }

  lemma {:induction false} NoTies(s: seq<Entry>, value: Tick)
    requires forall i :: 0 <= i < |s| ==> s[i].value != value
    ensures Ties(s, value) == []
  {
    if s != [] { NoTies(s[1..], value); }
  }

  lemma {:induction false} RemoveSorted(s: seq<Entry>, owner: nat)
    requires Sorted(s)
    ensures Sorted(Remove(s, owner))
    ensures forall e :: e in Remove(s, owner) <==> e in s && e.owner != owner
  {
    if s != [] {
      var rest := Remove(s[1..], owner);
      RemoveSorted(s[1..], owner);
      assert forall e :: e in s <==> e == s[0] || e in s[1..];
      if s[0].owner != owner {
        assert Remove(s, owner) == [s[0]] + rest;
        forall j | 0 <= j < |rest| ensures s[0].value <= rest[j].value {
          assert rest[j] in rest && rest[j] in s[1..];
        }
        SortedCons(s[0], rest);
      }
    }
  }

  lemma {:induction false} InsertValues(s: seq<Entry>, e: Entry, owner: nat)
    ensures e.owner != owner ==> Values(Insert(s, e), owner) == Values(s, owner)
    ensures e.owner == owner && Values(s, owner) == [] ==> Values(Insert(s, e), owner) == [e.value]
    ensures e.owner == owner ==> |Values(Insert(s, e), owner)| == |Values(s, owner)| + 1
  {
    if s == [] || s[0].value > e.value {
      assert ([e] + s)[1..] == s;
    } else {
      InsertValues(s[1..], e, owner);
      assert Insert(s, e)[1..] == Insert(s[1..], e);
    }
  }

  lemma {:induction false} RemoveValues(s: seq<Entry>, removed: nat, owner: nat)
    ensures Values(Remove(s, removed), owner) == if removed == owner then [] else Values(s, owner)
  {
    if s != [] {
      RemoveValues(s[1..], removed, owner);
      assert s[0].owner != removed ==> Remove(s, removed)[1..] == Remove(s[1..], removed);
    }
  }

  // The single entry an owner has in a list is one of the list's items.
  lemma {:induction false} ValueInList(s: seq<Entry>, owner: nat, value: Tick)
    requires value in Values(s, owner)
    ensures exists i :: 0 <= i < |s| && s[i] == Entry(value, owner)
  {
    if s[0].owner == owner && s[0].value == value {
      assert s[0] == Entry(value, owner);
    } else {
      ValueInList(s[1..], owner, value);
      var i :| 0 <= i < |s[1..]| && s[1..][i] == Entry(value, owner);
      assert s[i + 1] == Entry(value, owner);
    }
  }

  // Where vListInsert's search stops is where the new item goes.
  lemma {:induction false} InsertPosition(s: seq<Entry>, e: Entry, k: nat)
    requires k <= |s|
    requires forall i :: 0 <= i < k ==> s[i].value <= e.value
    requires k < |s| ==> s[k].value > e.value
    ensures Insert(s, e) == s[..k] + [e] + s[k..]
  {
    if k > 0 {
      InsertPosition(s[1..], e, k - 1);
      assert s[1..][..k - 1] == s[..k][1..];
    }
  }

  // Removing the one item of an owner.
  lemma {:induction false} RemovePosition(s: seq<Entry>, owner: nat, k: nat)
    requires k < |s| && s[k].owner == owner
    requires forall i :: 0 <= i < |s| && i != k ==> s[i].owner != owner
    ensures Remove(s, owner) == s[..k] + s[k + 1..]
  {
    if k == 0 {
      RemoveNone(s[1..], owner);
    } else {
      RemovePosition(s[1..], owner, k - 1);
      assert s[1..][..k - 1] == s[..k][1..];
    }
  }

  lemma {:induction false} RemoveNone(s: seq<Entry>, owner: nat)
    requires forall i :: 0 <= i < |s| ==> s[i].owner != owner
    ensures Remove(s, owner) == s
  {
    if s != [] { RemoveNone(s[1..], owner); }
  }

  // ----- lists built with vListInsert and uxListRemove only

  // One operation on one list: an item put in by its value, or the item at a position taken out.
  datatype Operation = InsertItem(e: Entry) | RemoveAt(position: nat)

  // An item with the number of the operation that put it in.
  datatype Arrival = Arrival(entry: Entry, stamp: nat)

  // Ascending values, and among equal values the earlier arrival first.
  ghost predicate Ordered(s: seq<Arrival>) {
    forall i, j :: 0 <= i < j < |s| ==>
      s[i].entry.value < s[j].entry.value || (s[i].entry.value == s[j].entry.value && s[i].stamp < s[j].stamp)
  }

  function EntriesIn(s: seq<Arrival>): seq<Entry> {
    seq(|s|, i requires 0 <= i < |s| => s[i].entry)
  }

  // How many leading items vListInsert's search passes.
  function Passed(s: seq<Entry>, value: Tick): (k: nat)
    ensures k <= |s| && (k < |s| ==> s[k].value > value)
    ensures forall i :: 0 <= i < k ==> s[i].value <= value
  {
    if s == [] || s[0].value > value then 0 else 1 + Passed(s[1..], value)
  }

  // The operation numbered n.
  function Applied(s: seq<Arrival>, op: Operation, n: nat): seq<Arrival> {
    match op
    case InsertItem(e) =>
      var k := Passed(EntriesIn(s), e.value);
      s[..k] + [Arrival(e, n)] + s[k..]
    case RemoveAt(p) => if p < |s| then s[..p] + s[p + 1..] else s
  }

  function Build(ops: seq<Operation>): seq<Arrival> {
    if ops == [] then [] else Applied(Build(ops[..|ops| - 1]), ops[|ops| - 1], |ops| - 1)
  }

  // In the list of entries an operation is one insert or one removal.
  lemma AppliedInsert(s: seq<Arrival>, e: Entry, n: nat)
    ensures EntriesIn(Applied(s, InsertItem(e), n)) == Insert(EntriesIn(s), e)
  {
    var k := Passed(EntriesIn(s), e.value);
    InsertPosition(EntriesIn(s), e, k);
    assert EntriesIn(s[..k] + [Arrival(e, n)] + s[k..]) == EntriesIn(s)[..k] + [e] + EntriesIn(s)[k..];
  }

  lemma AppliedRemove(s: seq<Arrival>, p: nat, n: nat)
    requires p < |s|
    ensures EntriesIn(Applied(s, RemoveAt(p), n)) == EntriesIn(s)[..p] + EntriesIn(s)[p + 1..]
  {
  }

  lemma BuildStep(ops: seq<Operation>, op: Operation)
    ensures Build(ops + [op]) == Applied(Build(ops), op, |ops|)
  {
    assert (ops + [op])[..|ops|] == ops;
  }

  // A later arrival behind every item not above it, and above every item behind it, keeps the order.
  lemma InsertedOrdered(s: seq<Arrival>, k: nat, a: Arrival)
    requires Ordered(s) && k <= |s|
    requires forall i :: 0 <= i < |s| ==> s[i].stamp < a.stamp
    requires forall i :: 0 <= i < k ==> s[i].entry.value <= a.entry.value
    requires k < |s| ==> s[k].entry.value > a.entry.value
    ensures Ordered(s[..k] + [a] + s[k..])
  {
    forall i | k <= i < |s| ensures a.entry.value < s[i].entry.value {
      assert s[k].entry.value <= s[i].entry.value;
    }
  }

  ghost predicate Genuine(ops: seq<Operation>, a: Arrival) {
    a.stamp < |ops| && ops[a.stamp] == InsertItem(a.entry)
  }

  // After any run of inserts and removes the list is sorted and items of equal value stand in the order in which
  // they came; each item is one that the run put in.
  lemma {:induction false} BuildSortedAndStable(ops: seq<Operation>)
    ensures Ordered(Build(ops))
    ensures forall i :: 0 <= i < |Build(ops)| ==> Genuine(ops, Build(ops)[i])
  {
    if ops != [] {
      var n := |ops| - 1;
      BuildSortedAndStable(ops[..n]);
      AppliedOrdered(ops[..n], ops[n]);
      assert ops[..n] + [ops[n]] == ops;
    }
  }

  lemma AppliedOrdered(ops: seq<Operation>, op: Operation)
    requires Ordered(Build(ops)) && forall i :: 0 <= i < |Build(ops)| ==> Genuine(ops, Build(ops)[i])
    ensures var after := Applied(Build(ops), op, |ops|);
      Ordered(after) && forall i :: 0 <= i < |after| ==> Genuine(ops + [op], after[i])
  {
    var s := Build(ops);
    AppliedMembers(s, op, |ops|);
    AllGenuine(ops, op, s, Applied(s, op, |ops|));
    match op
    case InsertItem(e) =>
      assert forall i :: 0 <= i < |s| ==> EntriesIn(s)[i] == s[i].entry;
      InsertedOrdered(s, Passed(EntriesIn(s), e.value), Arrival(e, |ops|));
    case RemoveAt(p) =>
      if p < |s| { CutOrdered(s, p); }
  }

  lemma AppliedMembers(s: seq<Arrival>, op: Operation, n: nat)
    ensures forall a :: a in Applied(s, op, n) ==> a in s || (op.InsertItem? && a == Arrival(op.e, n))
  {
  }

  lemma CutOrdered(s: seq<Arrival>, p: nat)
    requires Ordered(s) && p < |s|
    ensures Ordered(s[..p] + s[p + 1..])
  {
  }

  lemma AllGenuine(ops: seq<Operation>, op: Operation, s: seq<Arrival>, after: seq<Arrival>)
    requires forall i :: 0 <= i < |s| ==> Genuine(ops, s[i])
    requires forall a :: a in after ==> a in s || (op.InsertItem? && a == Arrival(op.e, |ops|))
    ensures forall i :: 0 <= i < |after| ==> Genuine(ops + [op], after[i])
  {
    forall i | 0 <= i < |after| ensures Genuine(ops + [op], after[i]) {
      assert after[i] in after;
    }
  }
}
