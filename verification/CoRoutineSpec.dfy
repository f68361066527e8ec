/** The co-routine scheduler: delays kept in two sorted lists and a simulated tick count that wraps. */
module CoRoutineSpec {
  import opened Ticks
  import opened ListSpec

  type Id = nat

  // prvCheckDelayedList readied `id` at simulated time `at`; it had been delayed until `due`.
  datatype Wake = Wake(id: Id, due: nat, at: nat)

  // `time` counts simulated ticks without wrapping, xCoRoutineTickCount is Wrap(time). `due` remembers when each
  // delayed co-routine is to wake.
  datatype Scheduler = Scheduler(
    time: nat,
    delayed: seq<Entry>,     // pxDelayedCoRoutineList
    overflow: seq<Entry>,    // pxOverflowDelayedCoRoutineList
    waiting: set<Id>,        // event list items in event lists
    pending: seq<Id>,        // xPendingReadyCoRoutineList
    ready: set<Id>,          // the members of all ready lists
    due: Id -> nat,
    woken: seq<Wake>)

  // vCoRoutineAddToDelayedList
  function Delay(s: Scheduler, id: Id, ticks: Tick, onEvent: bool): Scheduler {
    var e := Entry(AddTicks(Wrap(s.time), ticks), id);
    var r := s.(ready := s.ready - {id}, waiting := if onEvent then s.waiting + {id} else s.waiting,
                due := (i: Id) => if i == id then s.time + ticks else s.due(i));
    if e.value < Wrap(s.time) then r.(overflow := Insert(s.overflow, e)) else r.(delayed := Insert(s.delayed, e))
  }

  // One turn of the inner loop of prvCheckDelayedList.
  function WakeHead(s: Scheduler): Scheduler
    requires s.delayed != []
  {
    var id := s.delayed[0].owner;
    s.(delayed := s.delayed[1..], waiting := s.waiting - {id}, pending := Without(s.pending, id),
       ready := s.ready + {id}, woken := s.woken + [Wake(id, s.due(id), s.time)])
  }

  function Without(ids: seq<Id>, id: Id): seq<Id> {
    if ids == [] then [] else (if ids[0] == id then [] else [ids[0]]) + Without(ids[1..], id)
  }

  function Expire(s: Scheduler): Scheduler
    decreases |s.delayed|
  {
    if s.delayed == [] || Wrap(s.time) < s.delayed[0].value then s else Expire(WakeHead(s))
  }

  // One simulated tick: the lists change places when the count wraps.
  function SwapLists(s: Scheduler): Scheduler {
    s.(delayed := s.overflow, overflow := s.delayed)
  }

  function Advance(s: Scheduler): Scheduler {
    var r := s.(time := s.time + 1);
    if Wrap(r.time) == 0 then SwapLists(r) else r
  }

  function OneTick(s: Scheduler): Scheduler {
    Expire(Advance(s))
  }

  // The outer loop of prvCheckDelayedList.
  function CatchUp(s: Scheduler, passed: nat): Scheduler
    decreases passed
  {
    if passed == 0 then s else CatchUp(OneTick(s), passed - 1)
  }

  // xCoRoutineRemoveFromEventList
  function EventFor(s: Scheduler, id: Id): Scheduler {
    s.(waiting := s.waiting - {id}, pending := s.pending + [id])
  }

  // One turn of the loop of prvCheckPendingReadyList, and the loop.
  function ReadyPendingHead(s: Scheduler): Scheduler
    requires s.pending != []
  {
    var id := s.pending[0];
    s.(pending := s.pending[1..], delayed := Remove(s.delayed, id), overflow := Remove(s.overflow, id),
       ready := s.ready + {id})
  }

  function ReadyPending(s: Scheduler): Scheduler
    decreases |s.pending|
  {
    if s.pending == [] then s else ReadyPending(ReadyPendingHead(s))
  }

  function Created(ready: set<Id>): Scheduler {
    Scheduler(0, [], [], {}, [], ready, (id: Id) => 0, [])
  }

  // ----- what holds in every reachable state

  // A listed co-routine is not ready, its time has not come before `from`, and its list says which wrap of the
  // tick count it is in.
  predicate EntryOk(s: Scheduler, e: Entry, epoch: nat, from: nat) {
    && e.value == Wrap(s.due(e.owner)) && Epoch(s.due(e.owner)) == epoch
    && s.due(e.owner) >= from && e.owner !in s.ready
  }

  // Every co-routine is in the list once at most.
  ghost predicate Unique(list: seq<Entry>) {
    forall id: Id :: |Values(list, id)| <= 1
  }

  ghost predicate ListOk(s: Scheduler, list: seq<Entry>, epoch: nat, from: nat) {
    (forall e :: e in list ==> EntryOk(s, e, epoch, from)) && Sorted(list) && Unique(list)
  }

  predicate OnTime(w: Wake, time: nat) {
    w.at == w.due <= time
  }

  ghost predicate InvFrom(s: Scheduler, from: nat) {
    && ListOk(s, s.delayed, Epoch(s.time), from) && ListOk(s, s.overflow, Epoch(s.time) + 1, from)
    && (forall w :: w in s.woken ==> OnTime(w, s.time))
  }

  // Between ticks every delay still lies ahead.
  ghost predicate Inv(s: Scheduler) {
    InvFrom(s, s.time + 1)
  }

  // ----- lists

  lemma {:induction false} ListedHasValue(list: seq<Entry>, e: Entry)
    requires e in list
    ensures Values(list, e.owner) != []
  {
    if list[0] != e {
      ListedHasValue(list[1..], e);
    }
  }

  lemma {:induction false} InsertMembers(list: seq<Entry>, e: Entry, x: Entry)
    ensures x in Insert(list, e) <==> x == e || x in list
  {
    InsertMultiset(list, e);
    assert x in Insert(list, e) <==> x in multiset(Insert(list, e));
    assert x in list <==> x in multiset(list);
  }

  lemma {:induction false} NotListed(list: seq<Entry>, id: Id)
    requires forall e :: e in list ==> e.owner != id
    ensures Values(list, id) == []
  {
    if list != [] {
      NotListed(list[1..], id);
    }
  }

  lemma InsertUnique(list: seq<Entry>, e: Entry)
    requires Unique(list) && forall x :: x in list ==> x.owner != e.owner
    ensures Unique(Insert(list, e))
  {
    NotListed(list, e.owner);
    forall id: Id ensures |Values(Insert(list, e), id)| <= 1 {
      InsertValues(list, e, id);
    }
  }

  lemma RemoveUnique(list: seq<Entry>, removed: Id)
    requires Unique(list)
    ensures Unique(Remove(list, removed))
  {
    forall id: Id ensures |Values(Remove(list, removed), id)| <= 1 {
      RemoveValues(list, removed, id);
    }
  }

  // Behind its head a list of unique co-routines does not hold the head's.
  lemma TailUnique(list: seq<Entry>)
    requires Unique(list) && list != []
    ensures Unique(list[1..]) && forall e :: e in list[1..] ==> e.owner != list[0].owner
  {
    forall id: Id ensures |Values(list[1..], id)| <= 1 {
      assert |Values(list, id)| <= 1;
    }
    forall e | e in list[1..] ensures e.owner != list[0].owner {
      ListedHasValue(list[1..], e);
      assert |Values(list, list[0].owner)| <= 1;
    }
  }

  // ----- every step keeps the invariant

  // The list vCoRoutineAddToDelayedList picks is the one for the wrap the time to wake is in.
  lemma DelayEpoch(time: nat, ticks: Tick)
    ensures AddTicks(Wrap(time), ticks) == Wrap(time + ticks)
    ensures Epoch(time + ticks) == Epoch(time) + if AddTicks(Wrap(time), ticks) < Wrap(time) then 1 else 0
  {
    WrapDetected(time, time + ticks);
  }

  lemma InsertKeepsList(s: Scheduler, r: Scheduler, list: seq<Entry>, e: Entry, epoch: nat, from: nat)
    requires ListOk(s, list, epoch, from) && e.owner in s.ready && r.ready == s.ready - {e.owner}
    requires forall id :: id != e.owner ==> r.due(id) == s.due(id)
    requires EntryOk(r, e, epoch, from)
    ensures ListOk(r, Insert(list, e), epoch, from)
  {
    forall x | x in Insert(list, e) ensures EntryOk(r, x, epoch, from) {
      InsertMembers(list, e, x);
      assert x in list ==> EntryOk(s, x, epoch, from);
    }
    InsertSorted(list, e);
    forall x | x in list ensures x.owner != e.owner {
      assert EntryOk(s, x, epoch, from);
    }
    InsertUnique(list, e);
  }

  // The same list, seen from a state in which one co-routine more has left the ready list.
  lemma OtherListKept(s: Scheduler, r: Scheduler, list: seq<Entry>, id: Id, epoch: nat, from: nat)
    requires ListOk(s, list, epoch, from) && id in s.ready && r.ready == s.ready - {id}
    requires forall i :: i != id ==> r.due(i) == s.due(i)
    ensures ListOk(r, list, epoch, from)
  {
    forall e | e in list ensures EntryOk(r, e, epoch, from) {
      assert EntryOk(s, e, epoch, from);
    }
  }

  // A delay of at least one tick keeps the invariant, and only such a one does.
  lemma DelayKeepsExactly(s: Scheduler, id: Id, ticks: Tick, onEvent: bool)
    requires Inv(s) && id in s.ready
    ensures Inv(Delay(s, id, ticks, onEvent)) <==> ticks > 0
  {
    DelayEpoch(s.time, ticks);
    var e, r := Entry(AddTicks(Wrap(s.time), ticks), id), Delay(s, id, ticks, onEvent);
    if ticks > 0 {
      if e.value < Wrap(s.time) {
        InsertKeepsList(s, r, s.overflow, e, Epoch(s.time) + 1, s.time + 1);
        OtherListKept(s, r, s.delayed, id, Epoch(s.time), s.time + 1);
      } else {
        InsertKeepsList(s, r, s.delayed, e, Epoch(s.time), s.time + 1);
        OtherListKept(s, r, s.overflow, id, Epoch(s.time) + 1, s.time + 1);
      }
    } else {
      InsertMembers(s.delayed, e, e);
      assert e in r.delayed && !EntryOk(r, e, Epoch(r.time), r.time + 1);
    }
  }

  lemma LaterInEpoch(time: nat, due: nat)
    requires due > time && Epoch(due) == Epoch(time)
    ensures Wrap(time + 1) != 0
  {
  }

  // The current list is always empty when the tick count wraps: the case the source calls an error.
  lemma EmptyAtWrap(s: Scheduler)
    requires Inv(s) && Wrap(s.time + 1) == 0
    ensures s.delayed == []
  {
    if s.delayed != [] {
      assert EntryOk(s, s.delayed[0], Epoch(s.time), s.time + 1);
      LaterInEpoch(s.time, s.due(s.delayed[0].owner));
    }
  }

  // A delay of zero just before the wrap brings that case about.
  lemma ZeroDelayAtWrap(s: Scheduler, id: Id)
    requires Inv(s) && id in s.ready && Wrap(s.time + 1) == 0
    ensures Delay(s, id, 0, false).delayed == [Entry(MAX_DELAY, id)]
  {
    EmptyAtWrap(s);
  }

  lemma AdvanceKeeps(s: Scheduler)
    requires Inv(s)
    ensures InvFrom(Advance(s), Advance(s).time)
  {
    var r := Advance(s);
    if Wrap(r.time) == 0 {
      EmptyAtWrap(s);
    }
    forall e | e in r.delayed ensures EntryOk(r, e, Epoch(r.time), r.time) {
      assert e in s.delayed ==> EntryOk(s, e, Epoch(s.time), s.time + 1);
      assert e in s.overflow ==> EntryOk(s, e, Epoch(s.time) + 1, s.time + 1);
    }
    forall e | e in r.overflow ensures EntryOk(r, e, Epoch(r.time) + 1, r.time) {
      assert EntryOk(s, e, Epoch(s.time) + 1, s.time + 1);
    }
  }

  lemma WakeHeadKeeps(s: Scheduler)
    requires InvFrom(s, s.time) && s.delayed != [] && Wrap(s.time) >= s.delayed[0].value
    ensures InvFrom(WakeHead(s), s.time)
  {
    var head, r := s.delayed[0], WakeHead(s);
    assert EntryOk(s, head, Epoch(s.time), s.time);
    TailUnique(s.delayed);
    forall e | e in r.delayed ensures EntryOk(r, e, Epoch(s.time), s.time) {
      assert EntryOk(s, e, Epoch(s.time), s.time);
    }
    forall e | e in r.overflow ensures EntryOk(r, e, Epoch(s.time) + 1, s.time) {
      assert EntryOk(s, e, Epoch(s.time) + 1, s.time);
    }
    assert OnTime(Wake(head.owner, s.due(head.owner), s.time), s.time);
  }

  lemma {:induction false} ExpireKeeps(s: Scheduler)
    requires InvFrom(s, s.time)
    ensures Inv(Expire(s)) && Expire(s).time == s.time
    decreases |s.delayed|
  {
    if s.delayed == [] || Wrap(s.time) < s.delayed[0].value {
      forall e | e in s.delayed ensures EntryOk(s, e, Epoch(s.time), s.time + 1) {
        assert EntryOk(s, e, Epoch(s.time), s.time);
        assert s.delayed[0].value <= e.value;
      }
      forall e | e in s.overflow ensures EntryOk(s, e, Epoch(s.time) + 1, s.time + 1) {
        assert EntryOk(s, e, Epoch(s.time) + 1, s.time);
      }
    } else {
      WakeHeadKeeps(s);
      ExpireKeeps(WakeHead(s));
    }
  }

  lemma OneTickKeeps(s: Scheduler)
    requires Inv(s)
    ensures Inv(OneTick(s)) && OneTick(s).time == s.time + 1
  {
    AdvanceKeeps(s);
    ExpireKeeps(Advance(s));
  }

  lemma RemoveKeepsList(s: Scheduler, r: Scheduler, list: seq<Entry>, id: Id, epoch: nat, from: nat)
    requires ListOk(s, list, epoch, from) && r.ready == s.ready + {id} && r.due == s.due
    ensures ListOk(r, Remove(list, id), epoch, from)
  {
    RemoveSorted(list, id);
    RemoveUnique(list, id);
    forall e | e in Remove(list, id) ensures EntryOk(r, e, epoch, from) {
      assert EntryOk(s, e, epoch, from);
    }
  }

  lemma {:induction false} ReadyPendingKeeps(s: Scheduler)
    requires Inv(s)
    ensures Inv(ReadyPending(s)) && ReadyPending(s).time == s.time
    decreases |s.pending|
  {
    if s.pending != [] {
      var r := ReadyPendingHead(s);
      RemoveKeepsList(s, r, s.delayed, s.pending[0], Epoch(s.time), s.time + 1);
      RemoveKeepsList(s, r, s.overflow, s.pending[0], Epoch(s.time) + 1, s.time + 1);
      ReadyPendingKeeps(r);
    }
  }

  // ----- whole runs

  datatype Step =
    | AddToDelayedList(id: Id, ticks: Tick, onEvent: bool)  // by the running co-routine
    | RemoveFromEventList(id: Id)                           // by an interrupt
    | CheckPendingReadyList
    | PassTick                                              // one turn of prvCheckDelayedList

  // The crDELAY macro and the blocking queue calls ask for a delay only when it is not zero.
  predicate Enabled(s: Scheduler, step: Step) {
    match step
    case AddToDelayedList(id, ticks, _) => id in s.ready && ticks > 0
    case RemoveFromEventList(id) => id in s.waiting
    case CheckPendingReadyList => true
    case PassTick => true
  }

  function Next(s: Scheduler, step: Step): Scheduler {
    match step
    case AddToDelayedList(id, ticks, onEvent) => Delay(s, id, ticks, onEvent)
    case RemoveFromEventList(id) => EventFor(s, id)
    case CheckPendingReadyList => ReadyPending(s)
    case PassTick => OneTick(s)
  }

  lemma StepKeeps(s: Scheduler, step: Step)
    requires Inv(s) && Enabled(s, step)
    ensures Inv(Next(s, step))
  {
    match step
    case AddToDelayedList(id, ticks, onEvent) => DelayKeepsExactly(s, id, ticks, onEvent);
    case RemoveFromEventList(id) => EventKeeps(s, id);
    case CheckPendingReadyList => ReadyPendingKeeps(s);
    case PassTick => OneTickKeeps(s);
  }

  lemma EventKeeps(s: Scheduler, id: Id)
    requires Inv(s)
    ensures Inv(EventFor(s, id))
  {
    var r := EventFor(s, id);
    forall e | e in r.delayed ensures EntryOk(r, e, Epoch(s.time), s.time + 1) {
      assert EntryOk(s, e, Epoch(s.time), s.time + 1);
    }
    forall e | e in r.overflow ensures EntryOk(r, e, Epoch(s.time) + 1, s.time + 1) {
      assert EntryOk(s, e, Epoch(s.time) + 1, s.time + 1);
    }
  }

  // ----- a delay that no event ends

  predicate Listed(s: Scheduler, id: Id) {
    exists e | e in s.delayed + s.overflow :: e.owner == id
  }

  // It has woken when it was due, or it still waits for that, and for nothing else.
  predicate Tracks(s: Scheduler, id: Id, due: nat) {
    || Wake(id, due, due) in s.woken
    || (Listed(s, id) && s.due(id) == due && id !in s.waiting && id !in s.pending && id !in s.ready)
  }

  lemma {:induction false} WithoutMembers(ids: seq<Id>, id: Id, x: Id)
    ensures x in Without(ids, id) <==> x in ids && x != id
  {
    if ids != [] {
      WithoutMembers(ids[1..], id, x);
    }
  }

  lemma ListedIn(s: Scheduler, id: Id, e: Entry)
    requires (e in s.delayed || e in s.overflow) && e.owner == id
    ensures Listed(s, id)
  {
    assert e in s.delayed + s.overflow;
  }

  lemma DelayTracks(s: Scheduler, id: Id, ticks: Tick)
    requires Inv(s) && id in s.ready && id !in s.waiting && id !in s.pending
    ensures Tracks(Delay(s, id, ticks, false), id, s.time + ticks)
  {
    var e := Entry(AddTicks(Wrap(s.time), ticks), id);
    InsertMembers(s.delayed, e, e);
    InsertMembers(s.overflow, e, e);
    ListedIn(Delay(s, id, ticks, false), id, e);
  }

  lemma OtherDelayTracks(s: Scheduler, id: Id, due: nat, other: Id, ticks: Tick, onEvent: bool)
    requires Tracks(s, id, due) && other in s.ready
    ensures Tracks(Delay(s, other, ticks, onEvent), id, due)
  {
    if Wake(id, due, due) !in s.woken {
      var x: Entry :| x in s.delayed + s.overflow && x.owner == id;
      var e := Entry(AddTicks(Wrap(s.time), ticks), other);
      InsertMembers(s.delayed, e, x);
      InsertMembers(s.overflow, e, x);
      ListedIn(Delay(s, other, ticks, onEvent), id, x);
    }
  }

  lemma ReadyHeadTracks(s: Scheduler, id: Id, due: nat)
    requires Inv(s) && Tracks(s, id, due) && s.pending != []
    ensures Tracks(ReadyPendingHead(s), id, due)
  {
    if Wake(id, due, due) !in s.woken {
      var x: Entry :| x in s.delayed + s.overflow && x.owner == id;
      RemoveSorted(s.delayed, s.pending[0]);
      RemoveSorted(s.overflow, s.pending[0]);
      ListedIn(ReadyPendingHead(s), id, x);
    }
  }

  lemma {:induction false} ReadyPendingTracks(s: Scheduler, id: Id, due: nat)
    requires Inv(s) && Tracks(s, id, due)
    ensures Tracks(ReadyPending(s), id, due)
    decreases |s.pending|
  {
    if s.pending != [] {
      var r := ReadyPendingHead(s);
      RemoveKeepsList(s, r, s.delayed, s.pending[0], Epoch(s.time), s.time + 1);
      RemoveKeepsList(s, r, s.overflow, s.pending[0], Epoch(s.time) + 1, s.time + 1);
      ReadyHeadTracks(s, id, due);
      ReadyPendingTracks(r, id, due);
    }
  }

  lemma WakeHeadTracks(s: Scheduler, id: Id, due: nat)
    requires InvFrom(s, s.time) && Tracks(s, id, due) && s.delayed != [] && Wrap(s.time) >= s.delayed[0].value
    ensures Tracks(WakeHead(s), id, due)
  {
    var head, r := s.delayed[0], WakeHead(s);
    assert EntryOk(s, head, Epoch(s.time), s.time);
    WithoutMembers(s.pending, head.owner, id);
    if Wake(id, due, due) !in s.woken && head.owner != id {
      var x: Entry :| x in s.delayed + s.overflow && x.owner == id;
      assert s.delayed == [head] + s.delayed[1..];
      ListedIn(r, id, x);
    }
  }

  lemma {:induction false} ExpireTracks(s: Scheduler, id: Id, due: nat)
    requires InvFrom(s, s.time) && Tracks(s, id, due)
    ensures Tracks(Expire(s), id, due)
    decreases |s.delayed|
  {
    if s.delayed != [] && Wrap(s.time) >= s.delayed[0].value {
      WakeHeadKeeps(s);
      WakeHeadTracks(s, id, due);
      ExpireTracks(WakeHead(s), id, due);
    }
  }

  lemma TickTracks(s: Scheduler, id: Id, due: nat)
    requires Inv(s) && Tracks(s, id, due)
    ensures Tracks(OneTick(s), id, due)
  {
    AdvanceKeeps(s);
    if Wake(id, due, due) !in s.woken {
      var x: Entry :| x in s.delayed + s.overflow && x.owner == id;
      ListedIn(Advance(s), id, x);
    }
    ExpireTracks(Advance(s), id, due);
  }

  lemma StepTracks(s: Scheduler, step: Step, id: Id, due: nat)
    requires Inv(s) && Enabled(s, step) && Tracks(s, id, due)
    ensures Tracks(Next(s, step), id, due)
  {
    match step
    case AddToDelayedList(other, ticks, onEvent) => OtherDelayTracks(s, id, due, other, ticks, onEvent);
    case RemoveFromEventList(other) =>
      if Wake(id, due, due) !in s.woken {
        var x: Entry :| x in s.delayed + s.overflow && x.owner == id;
        ListedIn(EventFor(s, other), id, x);
      }
    case CheckPendingReadyList => ReadyPendingTracks(s, id, due);
    case PassTick => TickTracks(s, id, due);
  }

  ghost predicate RunAllowed(s: Scheduler, run: seq<Step>)
    decreases |run|
  {
    run != [] ==> Enabled(s, run[0]) && RunAllowed(Next(s, run[0]), run[1..])
  }

  function Run(s: Scheduler, run: seq<Step>): Scheduler
    decreases |run|
  {
    if run == [] then s else Run(Next(s, run[0]), run[1..])
  }

  lemma {:induction false} RunKeeps(s: Scheduler, run: seq<Step>)
    requires Inv(s) && RunAllowed(s, run)
    ensures Inv(Run(s, run))
    decreases |run|
  {
    if run != [] {
      StepKeeps(s, run[0]);
      RunKeeps(Next(s, run[0]), run[1..]);
    }
  }

  // What CheckDelayedList does after ticks have passed is a run of that many steps, so what holds of runs holds of it.
  lemma {:induction false} CatchUpIsRun(s: Scheduler, passed: nat)
    ensures var ticks := seq(passed, _ => PassTick);
            RunAllowed(s, ticks) && Run(s, ticks) == CatchUp(s, passed)
    decreases passed
  {
    if passed > 0 {
      CatchUpIsRun(OneTick(s), passed - 1);
      assert seq(passed, _ => PassTick)[1..] == seq(passed - 1, _ => PassTick);
    }
  }

  lemma {:induction false} RunTracks(s: Scheduler, run: seq<Step>, id: Id, due: nat)
    requires Inv(s) && RunAllowed(s, run) && Tracks(s, id, due)
    ensures Inv(Run(s, run)) && Tracks(Run(s, run), id, due)
    decreases |run|
  {
    if run != [] {
      StepKeeps(s, run[0]);
      StepTracks(s, run[0], id, due);
      RunTracks(Next(s, run[0]), run[1..], id, due);
    }
  }

  // In any run, the delayed list is empty whenever the tick count is about to wrap, and every wake-up it has made
  // was at the tick its co-routine was due.
  lemma NoErrorAtWrap(ready: set<Id>, run: seq<Step>)
    requires RunAllowed(Created(ready), run)
    ensures var s := Run(Created(ready), run);
            && (Wrap(s.time + 1) == 0 ==> s.delayed == [])
            && (forall w :: w in s.woken ==> w.at == w.due)
  {
    RunKeeps(Created(ready), run);
    var s := Run(Created(ready), run);
    if Wrap(s.time + 1) == 0 {
      EmptyAtWrap(s);
    }
    forall w | w in s.woken ensures w.at == w.due {
      assert OnTime(w, s.time);
    }
  }

  // ----- no co-routine is lost

  // In how many places a co-routine is: the two lists and the ready lists.
  function Places(s: Scheduler, id: Id): nat {
    |Values(s.delayed, id)| + |Values(s.overflow, id)| + if id in s.ready then 1 else 0
  }

  // Each of these co-routines is in exactly one place and no others are anywhere. Those that wait for an event, and
  // those for which one has come, are not ready.
  ghost predicate Whole(s: Scheduler, ids: set<Id>) {
    && (forall id: Id :: Places(s, id) == if id in ids then 1 else 0)
    && (forall id :: id in s.waiting ==> id in ids && id !in s.ready && id !in s.pending)
    && (forall id :: id in s.pending ==> id in ids && id !in s.ready)
  }

  lemma DelayKeepsWhole(s: Scheduler, id: Id, ticks: Tick, onEvent: bool, ids: set<Id>)
    requires Whole(s, ids) && id in s.ready
    ensures Whole(Delay(s, id, ticks, onEvent), ids)
  {
    var e, r := Entry(AddTicks(Wrap(s.time), ticks), id), Delay(s, id, ticks, onEvent);
    forall x: Id ensures Places(r, x) == Places(s, x) {
      InsertValues(s.delayed, e, x);
      InsertValues(s.overflow, e, x);
    }
    assert Places(s, id) == if id in ids then 1 else 0;
  }

  lemma WakeHeadKeepsWhole(s: Scheduler, ids: set<Id>)
    requires Whole(s, ids) && s.delayed != []
    ensures Whole(WakeHead(s), ids)
  {
    var id, r := s.delayed[0].owner, WakeHead(s);
    assert Places(s, id) == if id in ids then 1 else 0;
    forall x: Id ensures Places(r, x) == Places(s, x) && (x in r.pending <==> x in s.pending && x != id) {
      WithoutMembers(s.pending, id, x);
    }
  }

  lemma {:induction false} ExpireKeepsWhole(s: Scheduler, ids: set<Id>)
    requires Whole(s, ids)
    ensures Whole(Expire(s), ids)
    decreases |s.delayed|
  {
    if s.delayed != [] && Wrap(s.time) >= s.delayed[0].value {
      WakeHeadKeepsWhole(s, ids);
      ExpireKeepsWhole(WakeHead(s), ids);
    }
  }

  lemma TickKeepsWhole(s: Scheduler, ids: set<Id>)
    requires Whole(s, ids)
    ensures Whole(OneTick(s), ids)
  {
    forall id: Id ensures Places(Advance(s), id) == Places(s, id) {
    }
    ExpireKeepsWhole(Advance(s), ids);
  }

  // What readying the pending co-routines does: just they leave their lists and become ready.
  lemma {:induction false} PendingBecomeReady(s: Scheduler, id: Id)
    ensures var r := ReadyPending(s);
            && r.pending == [] && r.waiting == s.waiting
            && (id in r.ready <==> id in s.ready || id in s.pending)
            && Values(r.delayed, id) == (if id in s.pending then [] else Values(s.delayed, id))
            && Values(r.overflow, id) == (if id in s.pending then [] else Values(s.overflow, id))
    decreases |s.pending|
  {
    if s.pending != [] {
      RemoveValues(s.delayed, s.pending[0], id);
      RemoveValues(s.overflow, s.pending[0], id);
      assert id in s.pending <==> id == s.pending[0] || id in s.pending[1..];
      PendingBecomeReady(ReadyPendingHead(s), id);
    }
  }

  lemma ReadyPendingKeepsWhole(s: Scheduler, ids: set<Id>)
    requires Whole(s, ids)
    ensures Whole(ReadyPending(s), ids)
  {
    var r := ReadyPending(s);
    PendingBecomeReady(s, 0);
    forall id: Id
      ensures Places(r, id) == (if id in ids then 1 else 0) && (id in r.ready <==> id in s.ready || id in s.pending)
    {
      PendingBecomeReady(s, id);
      assert Places(s, id) == if id in ids then 1 else 0;
    }
  }

  lemma StepKeepsWhole(s: Scheduler, step: Step, ids: set<Id>)
    requires Whole(s, ids) && Enabled(s, step)
    ensures Whole(Next(s, step), ids)
  {
    match step
    case AddToDelayedList(id, ticks, onEvent) => DelayKeepsWhole(s, id, ticks, onEvent, ids);
    case RemoveFromEventList(id) =>
      forall x: Id ensures Places(EventFor(s, id), x) == Places(s, x) {
      }
    case CheckPendingReadyList => ReadyPendingKeepsWhole(s, ids);
    case PassTick => TickKeepsWhole(s, ids);
  }

  lemma {:induction false} RunKeepsWhole(s: Scheduler, run: seq<Step>, ids: set<Id>)
    requires Whole(s, ids) && RunAllowed(s, run)
    ensures Whole(Run(s, run), ids)
    decreases |run|
  {
    if run != [] {
      StepKeepsWhole(s, run[0], ids);
      RunKeepsWhole(Next(s, run[0]), run[1..], ids);
    }
  }

  // In every run each co-routine that was created is ready or in one of the two lists, never in two places. It waits
  // for an event, or one has come for it, only while it is in a list.
  lemma NoneLost(ready: set<Id>, run: seq<Step>, id: Id)
    requires RunAllowed(Created(ready), run)
    ensures var s := Run(Created(ready), run);
            && Places(s, id) == (if id in ready then 1 else 0)
            && (id in s.waiting || id in s.pending ==> |Values(s.delayed, id)| + |Values(s.overflow, id)| == 1)
            && !(id in s.waiting && id in s.pending)
  {
    RunKeepsWhole(Created(ready), run, ready);
  }

  // ----- who becomes ready with a tick

  lemma {:induction false} ListedExactly(list: seq<Entry>, id: Id)
    ensures Values(list, id) != [] <==> exists e | e in list :: e.owner == id
  {
    if exists e | e in list :: e.owner == id {
      var e :| e in list && e.owner == id;
      ListedHasValue(list, e);
    } else {
      NotListed(list, id);
    }
  }

  // A listed co-routine is not due yet.
  lemma NotDueYet(s: Scheduler, id: Id, from: nat)
    requires InvFrom(s, from) && (Values(s.delayed, id) != [] || Values(s.overflow, id) != [])
    ensures s.due(id) >= from
  {
    ListedExactly(s.delayed, id);
    ListedExactly(s.overflow, id);
    if Values(s.delayed, id) != [] {
      var e :| e in s.delayed && e.owner == id;
      assert EntryOk(s, e, Epoch(s.time), from);
    } else {
      var e :| e in s.overflow && e.owner == id;
      assert EntryOk(s, e, Epoch(s.time) + 1, from);
    }
  }

  lemma {:induction false} ExpireKeepsOthers(s: Scheduler, id: Id)
    requires InvFrom(s, s.time)
    ensures var r := Expire(s);
            && r.due == s.due && s.ready <= r.ready
            && (s.due(id) > s.time && id !in s.ready ==> id !in r.ready)
    decreases |s.delayed|
  {
    if s.delayed != [] && Wrap(s.time) >= s.delayed[0].value {
      assert EntryOk(s, s.delayed[0], Epoch(s.time), s.time);
      WakeHeadKeeps(s);
      ExpireKeepsOthers(WakeHead(s), id);
    }
  }

  // A tick readies just the listed co-routines whose time has come.
  lemma TickReadiesExactly(s: Scheduler, ids: set<Id>, id: Id)
    requires Inv(s) && Whole(s, ids)
    ensures var r := OneTick(s);
            && (id in r.ready <==> id in s.ready || (id in ids && s.due(id) == s.time + 1))
            && r.due == s.due && r.time == s.time + 1
  {
    var r := OneTick(s);
    AdvanceKeeps(s);
    OneTickKeeps(s);
    TickKeepsWhole(s, ids);
    ExpireKeepsOthers(Advance(s), id);
    assert Places(s, id) == Places(r, id) == if id in ids then 1 else 0;
    if id in ids && id !in s.ready {
      NotDueYet(s, id, s.time + 1);
      if id !in r.ready {
        NotDueYet(r, id, r.time + 1);
      }
    }
  }

  // A co-routine delayed for 1 to 2^32 - 1 ticks that waits for no event is not ready and in one list until it is due,
  // and ready and in no list after just the tick at which it is, whatever else is delayed, readied or woken meanwhile
  // and however often the tick count wraps.
  lemma DelayedWakesOnTime(ready: set<Id>, before: seq<Step>, id: Id, ticks: Tick, run: seq<Step>)
    requires RunAllowed(Created(ready), before)
    requires var s := Run(Created(ready), before);
             && id in s.ready && id !in s.waiting && id !in s.pending && ticks > 0
             && RunAllowed(Delay(s, id, ticks, false), run)
    ensures var s := Run(Created(ready), before);
            var r, due := Run(Delay(s, id, ticks, false), run), s.time + ticks;
            r.time < due ==>
              && id !in r.ready && |Values(r.delayed, id)| + |Values(r.overflow, id)| == 1
              && (id in OneTick(r).ready <==> OneTick(r).time == due)
              && (OneTick(r).time == due ==>
                    Values(OneTick(r).delayed, id) == [] && Values(OneTick(r).overflow, id) == [])
  {
    var s := Run(Created(ready), before);
    RunKeeps(Created(ready), before);
    RunKeepsWhole(Created(ready), before, ready);
    var d, due := Delay(s, id, ticks, false), s.time + ticks;
    DelayKeepsExactly(s, id, ticks, false);
    DelayKeepsWhole(s, id, ticks, false, ready);
    DelayTracks(s, id, ticks);
    RunTracks(d, run, id, due);
    RunKeepsWhole(d, run, ready);
    var r := Run(d, run);
    if r.time < due {
      StillWaits(r, id, due);
      assert Places(s, id) == Places(r, id) == 1;
      TickReadiesExactly(r, ready, id);
      TickKeepsWhole(r, ready);
      assert Places(OneTick(r), id) == 1;
    }
  }

  lemma StillWaits(s: Scheduler, id: Id, due: nat)
    requires Inv(s) && Tracks(s, id, due) && s.time < due
    ensures id !in s.ready && s.due(id) == due
  {
    assert Wake(id, due, due) in s.woken ==> OnTime(Wake(id, due, due), s.time);
  }

  // ----- a wait that an event may end

  // A delayed co-routine waits for an event exactly when it asked for one.
  lemma DelayWaits(s: Scheduler, id: Id, ticks: Tick, onEvent: bool, ids: set<Id>)
    requires Whole(s, ids) && id in s.ready
    ensures var r := Delay(s, id, ticks, onEvent);
            && id !in r.ready && id !in r.pending && (id in r.waiting <==> onEvent)
            && |Values(r.delayed, id)| + |Values(r.overflow, id)| == 1 && r.due(id) == s.time + ticks
  {
    DelayKeepsWhole(s, id, ticks, onEvent, ids);
    assert Places(s, id) == Places(Delay(s, id, ticks, onEvent), id) == if id in ids then 1 else 0;
  }

  // It goes on waiting until its event comes or it is ready, and with its event it is pending until it is ready.
  predicate StillToCome(s: Scheduler, id: Id, came: bool) {
    id in s.ready || if came then id in s.pending else id in s.waiting
  }

  lemma {:induction false} ExpireStillToCome(s: Scheduler, id: Id, came: bool)
    requires StillToCome(s, id, came)
    ensures StillToCome(Expire(s), id, came)
    decreases |s.delayed|
  {
    if s.delayed != [] && Wrap(s.time) >= s.delayed[0].value {
      WithoutMembers(s.pending, s.delayed[0].owner, id);
      ExpireStillToCome(WakeHead(s), id, came);
    }
  }

  // It does not run and delay itself again, and no other event than the one looked at is given to it.
  predicate LeavesWaiting(step: Step, id: Id, came: bool) {
    step.AddToDelayedList? || (step.RemoveFromEventList? && !came) ==> step.id != id
  }

  lemma StepStillToCome(s: Scheduler, step: Step, id: Id, came: bool)
    requires StillToCome(s, id, came) && Enabled(s, step) && LeavesWaiting(step, id, came)
    ensures StillToCome(Next(s, step), id, came)
  {
    match step
    case CheckPendingReadyList => PendingBecomeReady(s, id);
    case PassTick => ExpireStillToCome(Advance(s), id, came);
    case _ =>
  }

  lemma {:induction false} RunStillToCome(s: Scheduler, run: seq<Step>, id: Id, came: bool)
    requires StillToCome(s, id, came) && RunAllowed(s, run)
    requires forall i :: 0 <= i < |run| ==> LeavesWaiting(run[i], id, came)
    ensures StillToCome(Run(s, run), id, came)
    decreases |run|
  {
    if run != [] {
      StepStillToCome(s, run[0], id, came);
      RunStillToCome(Next(s, run[0]), run[1..], id, came);
    }
  }

  // A co-routine delayed with an event: as long as neither has come it waits, so that the event can be given to it.
  // From the event on, whatever else happens, the next look at the pending co-routines finds it ready or readies it.
  lemma EventReadies(ready: set<Id>, before: seq<Step>, id: Id, ticks: Tick, run: seq<Step>, later: seq<Step>)
    requires RunAllowed(Created(ready), before) && id in Run(Created(ready), before).ready && ticks > 0
    requires var d := Delay(Run(Created(ready), before), id, ticks, true);
             RunAllowed(d, run) && RunAllowed(EventFor(Run(d, run), id), later)
    requires forall i :: 0 <= i < |run| ==> LeavesWaiting(run[i], id, false)
    requires forall i :: 0 <= i < |later| ==> LeavesWaiting(later[i], id, true)
    ensures var r := Run(Delay(Run(Created(ready), before), id, ticks, true), run);
            && (id in r.ready || Enabled(r, RemoveFromEventList(id)))
            && id in ReadyPending(Run(EventFor(r, id), later)).ready
  {
    var s := Run(Created(ready), before);
    RunKeepsWhole(Created(ready), before, ready);
    DelayWaits(s, id, ticks, true, ready);
    RunStillToCome(Delay(s, id, ticks, true), run, id, false);
    EventStays(Run(Delay(s, id, ticks, true), run), later, id);
  }

  lemma EventStays(s: Scheduler, later: seq<Step>, id: Id)
    requires RunAllowed(EventFor(s, id), later) && forall i :: 0 <= i < |later| ==> LeavesWaiting(later[i], id, true)
    ensures id in ReadyPending(Run(EventFor(s, id), later)).ready
  {
    RunStillToCome(EventFor(s, id), later, id, true);
    PendingBecomeReady(Run(EventFor(s, id), later), id);
  }

  // ----- the log of wake-ups

  // That a delayed co-routine wakes on time, once more in the log.
  lemma WakeLogged(ready: set<Id>, before: seq<Step>, id: Id, ticks: Tick, run: seq<Step>)
    requires RunAllowed(Created(ready), before)
    requires var s := Run(Created(ready), before);
             && id in s.ready && id !in s.waiting && id !in s.pending && ticks > 0
             && RunAllowed(Delay(s, id, ticks, false), run)
    ensures var s := Run(Created(ready), before);
            var r, due := Run(Delay(s, id, ticks, false), run), s.time + ticks;
            Wake(id, due, due) in r.woken <==> r.time >= due
  {
    RunKeeps(Created(ready), before);
    var s := Run(Created(ready), before);
    var d, due := Delay(s, id, ticks, false), s.time + ticks;
    DelayKeepsExactly(s, id, ticks, false);
    DelayTracks(s, id, ticks);
    RunTracks(d, run, id, due);
    var r := Run(d, run);
    if Wake(id, due, due) in r.woken {
      assert OnTime(Wake(id, due, due), r.time);
    } else {
      var x: Entry :| x in r.delayed + r.overflow && x.owner == id;
      assert x in r.delayed ==> EntryOk(r, x, Epoch(r.time), r.time + 1);
      assert x in r.overflow ==> EntryOk(r, x, Epoch(r.time) + 1, r.time + 1);
    }
  }
}
