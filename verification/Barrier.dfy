/**
 xEventGroupSync as a reusable barrier: tasks that rendezvous again and again, each setting its own bits and waiting
 for the same mask. It is one exactly when every task brings a bit of the mask that no other task sets.
 */
module Barrier {
  import opened EventGroups

  // What each of the tasks sets, and the mask they all wait for.
  datatype Parties = Parties(sets: seq<Bits>, wanted: Bits)

  datatype Meeting = Meeting(
    group: Group,
    begun: TaskId -> nat,    // calls of xEventGroupSync begun
    done: TaskId -> nat,     // and those that have returned
    result: TaskId -> Bits)   // what the last one returned

  datatype Step =
    | Arrive(t: TaskId)
    | Leave(t: TaskId)        // a woken task runs again
    | SetOther(bits: Bits)    // somebody changes bits outside the mask
    | ClearOther(bits: Bits)

  function Union(sets: seq<Bits>): Bits {
    if sets == [] then {} else sets[0] + Union(sets[1..])
  }

  function Others(p: Parties, t: TaskId): Bits
    requires t < |p.sets|
  {
    Union(p.sets[..t]) + Union(p.sets[t + 1..])
  }

  // The tasks' bits together make the mask.
  predicate Complete(p: Parties) {
    p.wanted != {} && p.wanted <= Union(p.sets)
  }

  // Nobody can be done without.
  predicate NeedsAll(p: Parties) {
    forall t | 0 <= t < |p.sets| :: !(p.wanted <= Others(p, t))
  }

  function Created(): Meeting {
    Meeting(EventGroups.Created().group, (t: TaskId) => 0, (t: TaskId) => 0, (t: TaskId) => {})
  }

  predicate Enabled(p: Parties, s: Meeting, step: Step) {
    match step
    case Arrive(t) => t < |p.sets| && s.begun(t) == s.done(t)
    case Leave(t) => t < |p.sets| && t in s.group.values
    case SetOther(bits) => bits !! p.wanted
    case ClearOther(bits) => bits !! p.wanted
  }

  function Plus(f: TaskId -> nat, t: TaskId): TaskId -> nat {
    (u: TaskId) => if u == t then f(u) + 1 else f(u)
  }

  function Put(f: TaskId -> Bits, t: TaskId, bits: Bits): TaskId -> Bits {
    (u: TaskId) => if u == t then bits else f(u)
  }

  function Arrived(p: Parties, s: Meeting, t: TaskId): Meeting
    requires t < |p.sets|
  {
    var (group, outcome) := Sync(s.group, t, p.sets[t], p.wanted, true);
    match outcome
    case Returns(bits) => Meeting(group, Plus(s.begun, t), Plus(s.done, t), Put(s.result, t, bits))
    case Blocks => Meeting(group, Plus(s.begun, t), s.done, s.result)
  }

  function Left(p: Parties, s: Meeting, t: TaskId): Meeting
    requires t in s.group.values
  {
    var (group, bits) := Resume(s.group, t, Waiter(t, p.wanted, true, true));
    Meeting(group, s.begun, Plus(s.done, t), Put(s.result, t, bits))
  }

  function Next(p: Parties, s: Meeting, step: Step): Meeting
    requires Enabled(p, s, step)
  {
    match step
    case Arrive(t) => Arrived(p, s, t)
    case Leave(t) => Left(p, s, t)
    case SetOther(bits) => s.(group := SetBits(s.group, bits))
    case ClearOther(bits) => s.(group := ClearBits(s.group, bits))
  }

  // ----- what holds in every reachable state of round r

  predicate Waits(s: Meeting, t: TaskId) {
    exists w | w in s.group.waiting :: w.task == t
  }

  predicate WaitersOk(p: Parties, waiting: seq<Waiter>) {
    forall w | w in waiting :: w.task < |p.sets| && w == Waiter(w.task, p.wanted, true, true)
  }

  // What the waiting tasks have set.
  function SetBy(p: Parties, waiting: seq<Waiter>): Bits
    requires WaitersOk(p, waiting)
  {
    if waiting == [] then {}
    else
      assert waiting[0] in waiting;
      p.sets[waiting[0].task] + SetBy(p, waiting[1..])
  }

  // A task waits in the round, or has left the last one, or has still to leave it with the bits that ended it.
  predicate TaskOk(p: Parties, s: Meeting, r: nat, t: TaskId) {
    if Waits(s, t) then
      s.begun(t) == r + 1 && s.done(t) == r && t !in s.group.values && (r > 0 ==> p.wanted <= s.result(t))
    else if t in s.group.values then
      && s.begun(t) == r && s.done(t) == r - 1 && (r > 1 ==> p.wanted <= s.result(t))
      && s.group.values[t].Unblocked? && p.wanted <= s.group.values[t].bits
    else s.begun(t) == r && s.done(t) == r && (r > 0 ==> p.wanted <= s.result(t))
  }

  ghost predicate Inv(p: Parties, s: Meeting, r: nat) {
    && WaitersOk(p, s.group.waiting) && DistinctTasks(s.group.waiting)
    && (forall t: TaskId :: t < |p.sets| ==> TaskOk(p, s, r, t))
    && s.group.bits * p.wanted == SetBy(p, s.group.waiting) * p.wanted
    && !(p.wanted <= s.group.bits)
  }

  // ----- all waiters are satisfied together

  lemma {:induction false} AllWake(p: Parties, waiting: seq<Waiter>, bits: Bits)
    requires WaitersOk(p, waiting) && p.wanted <= bits
    ensures EventGroups.Left(waiting, bits) == []
  {
    if waiting != [] {
      assert waiting[0] in waiting;
      AllWake(p, waiting[1..], bits);
    }
  }

  lemma {:induction false} NoneWakes(p: Parties, waiting: seq<Waiter>, bits: Bits, values: map<TaskId, ItemValue>)
    requires WaitersOk(p, waiting) && !(p.wanted <= bits)
    ensures EventGroups.Left(waiting, bits) == waiting && ClearMask(waiting, bits) == {}
    ensures Woken(waiting, bits, values) == values
  {
    if waiting != [] {
      assert waiting[0] in waiting;
      NoneWakes(p, waiting[1..], bits, values);
    }
  }

  lemma {:induction false} SetByAppend(p: Parties, waiting: seq<Waiter>, w: Waiter)
    requires WaitersOk(p, waiting + [w])
    ensures w in waiting + [w] && WaitersOk(p, waiting)
    ensures SetBy(p, waiting + [w]) == SetBy(p, waiting) + p.sets[w.task]
  {
    assert forall v :: v in waiting ==> v in waiting + [w];
    assert (waiting + [w])[|waiting|] == w;
    if waiting == [] {
      assert [] + [w] == [w];
    } else {
      assert (waiting + [w])[1..] == waiting[1..] + [w];
      assert forall v :: v in waiting[1..] + [w] ==> v in waiting + [w];
      SetByAppend(p, waiting[1..], w);
    }
  }

  // ----- whoever is missing is missed

  lemma {:induction false} UnionHas(sets: seq<Bits>, i: nat)
    requires i < |sets|
    ensures sets[i] <= Union(sets)
  {
    if i > 0 {
      UnionHas(sets[1..], i - 1);
    }
  }

  lemma OthersHave(p: Parties, t: TaskId, u: TaskId)
    requires t < |p.sets| && u < |p.sets| && t != u
    ensures p.sets[t] <= Others(p, u)
  {
    if t < u {
      UnionHas(p.sets[..u], t);
    } else {
      UnionHas(p.sets[u + 1..], t - u - 1);
    }
  }

  lemma {:induction false} SetByOthers(p: Parties, waiting: seq<Waiter>, u: TaskId)
    requires WaitersOk(p, waiting) && u < |p.sets| && forall w :: w in waiting ==> w.task != u
    ensures SetBy(p, waiting) <= Others(p, u)
  {
    if waiting != [] {
      assert waiting[0] in waiting;
      OthersHave(p, waiting[0].task, u);
      SetByOthers(p, waiting[1..], u);
    }
  }

  // The mask is full only when everyone has come.
  lemma FullMeansAll(p: Parties, s: Meeting, r: nat, t: TaskId, u: TaskId)
    requires NeedsAll(p) && Inv(p, s, r) && t < |p.sets| && u < |p.sets| && t != u
    requires p.wanted <= s.group.bits + p.sets[t]
    ensures Waits(s, u)
  {
    if !Waits(s, u) {
      SetByOthers(p, s.group.waiting, u);
      OthersHave(p, t, u);
      forall b | b in p.wanted ensures b in Others(p, u) {
        assert b in s.group.bits ==> b in s.group.bits * p.wanted;
      }
    }
  }

  // ----- every step keeps the invariant

  lemma ArriveLast(p: Parties, s: Meeting, r: nat, t: TaskId)
    requires NeedsAll(p) && p.wanted != {} && Inv(p, s, r) && Enabled(p, s, Arrive(t))
    requires p.wanted <= s.group.bits + p.sets[t]
    ensures Inv(p, Arrived(p, s, t), r + 1)
  {
    var now, n := s.group.bits + p.sets[t], Arrived(p, s, t);
    AllWake(p, s.group.waiting, now);
    assert n.group.waiting == [] && n.group.bits * p.wanted == {};
    var next := r + 1;
    forall u: TaskId | u < |p.sets| ensures TaskOk(p, n, next, u) {
      assert TaskOk(p, s, r, u);
      WokenExactly(s.group.waiting, now, s.group.values, u);
      if u != t {
        FullMeansAll(p, s, r, t, u);
        var w :| w in s.group.waiting && w.task == u;
        assert Satisfied(now, w);
      } else {
        assert !Waits(s, t);
      }
    }
  }

  lemma UnionMeets(a: Bits, b: Bits, more: Bits, mask: Bits)
    requires a * mask == b * mask
    ensures (a + more) * mask == (b + more) * mask
  {
    forall x | x in mask ensures x in a <==> x in b {
      assert x in a * mask <==> x in b * mask;
    }
  }

  lemma ArriveEarly(p: Parties, s: Meeting, r: nat, t: TaskId)
    requires Inv(p, s, r) && Enabled(p, s, Arrive(t))
    requires !(p.wanted <= s.group.bits + p.sets[t])
    ensures Inv(p, Arrived(p, s, t), r)
  {
    var now, n, w := s.group.bits + p.sets[t], Arrived(p, s, t), Waiter(t, p.wanted, true, true);
    assert TaskOk(p, s, r, t) && !Waits(s, t);
    NoneWakes(p, s.group.waiting, now, s.group.values);
    assert n.group == Group(now, s.group.waiting + [w], s.group.values);
    assert WaitersOk(p, n.group.waiting);
    SetByAppend(p, s.group.waiting, w);
    UnionMeets(s.group.bits, SetBy(p, s.group.waiting), p.sets[t], p.wanted);
    forall u: TaskId | u < |p.sets| ensures TaskOk(p, n, r, u) {
      assert TaskOk(p, s, r, u);
      assert Waits(n, u) <==> Waits(s, u) || u == t by {
        assert w in n.group.waiting;
        assert forall v :: v in n.group.waiting <==> v in s.group.waiting || v == w;
      }
    }
  }

  lemma LeaveKeeps(p: Parties, s: Meeting, r: nat, t: TaskId)
    requires Inv(p, s, r) && Enabled(p, s, Leave(t))
    ensures Inv(p, Left(p, s, t), r)
  {
    var n := Left(p, s, t);
    assert TaskOk(p, s, r, t);
    forall u: TaskId | u < |p.sets| ensures TaskOk(p, n, r, u) {
      assert TaskOk(p, s, r, u);
      assert Waits(n, u) <==> Waits(s, u);
    }
  }

  lemma OtherBitsKeep(p: Parties, s: Meeting, r: nat, bits: Bits)
    requires Inv(p, s, r) && bits * p.wanted == s.group.bits * p.wanted
    ensures Inv(p, s.(group := s.group.(bits := bits)), r)
  {
    var n := s.(group := s.group.(bits := bits));
    forall u: TaskId | u < |p.sets| ensures TaskOk(p, n, r, u) {
      assert TaskOk(p, s, r, u);
      assert Waits(n, u) <==> Waits(s, u);
    }
    assert p.wanted <= bits ==> bits * p.wanted == p.wanted;
    assert s.group.bits * p.wanted == p.wanted ==> p.wanted <= s.group.bits;
  }

  lemma StepKeeps(p: Parties, s: Meeting, r: nat, step: Step) returns (next: nat)
    requires NeedsAll(p) && p.wanted != {} && Inv(p, s, r) && Enabled(p, s, step)
    ensures r <= next && Inv(p, Next(p, s, step), next)
  {
    next := r;
    match step
    case Arrive(t) =>
      if p.wanted <= s.group.bits + p.sets[t] {
        ArriveLast(p, s, r, t);
        next := r + 1;
      } else {
        ArriveEarly(p, s, r, t);
      }
    case Leave(t) => LeaveKeeps(p, s, r, t);
    case SetOther(bits) =>
      var now := s.group.bits + bits;
      NoneWakes(p, s.group.waiting, now, s.group.values);
      OtherBitsKeep(p, s, r, now);
      assert now - {} == now;
    case ClearOther(bits) => OtherBitsKeep(p, s, r, s.group.bits - bits);
  }

  ghost predicate RunAllowed(p: Parties, s: Meeting, run: seq<Step>)
    decreases |run|
  {
    run != [] ==> Enabled(p, s, run[0]) && RunAllowed(p, Next(p, s, run[0]), run[1..])
  }

  ghost function Run(p: Parties, s: Meeting, run: seq<Step>): Meeting
    requires RunAllowed(p, s, run)
    decreases |run|
  {
    if run == [] then s else Run(p, Next(p, s, run[0]), run[1..])
  }

  lemma {:induction false} RunKeeps(p: Parties, s: Meeting, r: nat, run: seq<Step>) returns (last: nat)
    requires NeedsAll(p) && p.wanted != {} && Inv(p, s, r) && RunAllowed(p, s, run)
    ensures Inv(p, Run(p, s, run), last)
    decreases |run|
  {
    last := r;
    if run != [] {
      var next := StepKeeps(p, s, r, run[0]);
      last := RunKeeps(p, Next(p, s, run[0]), next, run[1..]);
    }
  }

  lemma CreatedInv(p: Parties)
    requires p.wanted != {}
    ensures Inv(p, Created(), 0)
  {
    forall t: TaskId | t < |p.sets| ensures TaskOk(p, Created(), 0, t) {
    }
  }

  // In any run, however often the tasks meet: nobody returns from a meeting before everybody has come to it, every
  // return value has the whole mask, and between meetings the mask is clear.
  ghost predicate IsBarrier(p: Parties, s: Meeting) {
    && (forall t: TaskId, u: TaskId :: t < |p.sets| && u < |p.sets| ==> s.done(t) <= s.begun(u))
    && (forall t: TaskId :: t < |p.sets| && s.done(t) > 0 ==> p.wanted <= s.result(t))
    && (s.group.waiting == [] ==> s.group.bits !! p.wanted)
  }

  lemma TasksInRound(p: Parties, s: Meeting, r: nat)
    requires forall t: TaskId :: t < |p.sets| ==> TaskOk(p, s, r, t)
    ensures forall t: TaskId :: t < |p.sets| ==> s.done(t) <= r && (s.done(t) > 0 ==> p.wanted <= s.result(t))
    ensures forall t: TaskId :: t < |p.sets| ==> r <= s.begun(t)
  {
    forall t: TaskId | t < |p.sets|
      ensures s.done(t) <= r <= s.begun(t) && (s.done(t) > 0 ==> p.wanted <= s.result(t))
    {
      assert TaskOk(p, s, r, t);
      if Waits(s, t) {
        assert s.done(t) == r;
      } else if t in s.group.values {
        assert s.done(t) == r - 1;
      } else {
        assert s.done(t) == r;
      }
    }
  }

  lemma InvMakesBarrier(p: Parties, s: Meeting, r: nat)
    requires Inv(p, s, r)
    ensures IsBarrier(p, s)
  {
    TasksInRound(p, s, r);
    forall t: TaskId, u: TaskId | t < |p.sets| && u < |p.sets| ensures s.done(t) <= s.begun(u) {
      assert s.done(t) <= r && r <= s.begun(u);
    }
    if s.group.waiting == [] {
      forall b | b in s.group.bits ensures b !in p.wanted {
        assert b in p.wanted <==> b in s.group.bits * p.wanted;
      }
    }
  }

  lemma NeedsAllMakesBarrier(p: Parties, run: seq<Step>)
    requires Complete(p) && NeedsAll(p) && RunAllowed(p, Created(), run)
    ensures IsBarrier(p, Run(p, Created(), run))
  {
    CreatedInv(p);
    var r := RunKeeps(p, Created(), 0, run);
    InvMakesBarrier(p, Run(p, Created(), run), r);
  }

  // ----- without a bit that only it sets, a task is not waited for

  lemma {:induction false} RunExtends(p: Parties, s: Meeting, run: seq<Step>, step: Step)
    requires RunAllowed(p, s, run) && Enabled(p, Run(p, s, run), step)
    ensures RunAllowed(p, s, run + [step]) && Run(p, s, run + [step]) == Next(p, Run(p, s, run), step)
    decreases |run|
  {
    if run == [] {
      assert [] + [step] == [step] && [step][1..] == [];
    } else {
      RunExtends(p, Next(p, s, run[0]), run[1..], step);
      assert (run + [step])[1..] == run[1..] + [step];
    }
  }

  // What the first k tasks set, u left out.
  function Below(p: Parties, u: TaskId, k: nat): Bits
    requires k <= |p.sets|
  {
    if k == 0 then {} else Below(p, u, k - 1) + if k - 1 == u then {} else p.sets[k - 1]
  }

  lemma {:induction false} BelowHas(p: Parties, u: TaskId, k: nat, t: TaskId)
    requires t < k <= |p.sets| && t != u
    ensures p.sets[t] <= Below(p, u, k)
  {
    if t < k - 1 {
      BelowHas(p, u, k - 1, t);
    }
  }

  lemma {:induction false} UnionLeast(sets: seq<Bits>, all: Bits)
    requires forall i :: 0 <= i < |sets| ==> sets[i] <= all
    ensures Union(sets) <= all
  {
    if sets != [] {
      UnionLeast(sets[1..], all);
    }
  }

  lemma OthersBelow(p: Parties, u: TaskId)
    requires u < |p.sets|
    ensures Others(p, u) <= Below(p, u, |p.sets|)
  {
    forall t: TaskId | t < |p.sets| && t != u ensures p.sets[t] <= Below(p, u, |p.sets|) {
      BelowHas(p, u, |p.sets|, t);
    }
    UnionLeast(p.sets[..u], Below(p, u, |p.sets|));
    UnionLeast(p.sets[u + 1..], Below(p, u, |p.sets|));
  }

  // The first k tasks but u have come, and all of them wait.
  ghost predicate Gathered(p: Parties, s: Meeting, u: TaskId, k: nat)
    requires k <= |p.sets|
  {
    && WaitersOk(p, s.group.waiting) && !(p.wanted <= s.group.bits) && s.group.bits == Below(p, u, k)
    && (forall t: TaskId :: s.begun(t) == (if t < k && t != u then 1 else 0))
    && (forall t: TaskId :: s.done(t) == 0)
  }

  // One more comes: it waits, or it returns without u.
  lemma OneMoreComes(p: Parties, s: Meeting, u: TaskId, k: nat)
    requires u < |p.sets| && k < |p.sets| && k != u && Gathered(p, s, u, k)
    ensures var n := Arrived(p, s, k); Gathered(p, n, u, k + 1) || !IsBarrier(p, n)
  {
    var now, n := s.group.bits + p.sets[k], Arrived(p, s, k);
    assert s.begun(u) == 0;
    if p.wanted <= now {
      assert n.done(k) == 1 && n.begun(u) == 0;
    } else {
      NoneWakes(p, s.group.waiting, now, s.group.values);
      assert n.group == Group(now, s.group.waiting + [Waiter(k, p.wanted, true, true)], s.group.values);
    }
  }

  lemma GatherOneMore(p: Parties, run: seq<Step>, u: TaskId, k: nat) returns (longer: seq<Step>)
    requires u < |p.sets| && k < |p.sets| && RunAllowed(p, Created(), run)
    requires Gathered(p, Run(p, Created(), run), u, k)
    ensures RunAllowed(p, Created(), longer)
    ensures var s := Run(p, Created(), longer); Gathered(p, s, u, k + 1) || !IsBarrier(p, s)
  {
    longer := run;
    if k != u {
      OneMoreComes(p, Run(p, Created(), run), u, k);
      RunExtends(p, Created(), run, Arrive(k));
      longer := run + [Arrive(k)];
    }
  }

  lemma {:induction false} Gather(p: Parties, u: TaskId, k: nat) returns (run: seq<Step>)
    requires p.wanted != {} && u < |p.sets| && k <= |p.sets|
    ensures RunAllowed(p, Created(), run)
    ensures var s := Run(p, Created(), run); Gathered(p, s, u, k) || !IsBarrier(p, s)
  {
    run := [];
    if k > 0 {
      run := Gather(p, u, k - 1);
      if Gathered(p, Run(p, Created(), run), u, k - 1) {
        run := GatherOneMore(p, run, u, k - 1);
      }
    }
  }

  // The rendezvous is a barrier in every run exactly when it needs all its tasks.
  lemma BarrierExactly(p: Parties)
    requires Complete(p)
    ensures NeedsAll(p) <==> forall run :: RunAllowed(p, Created(), run) ==> IsBarrier(p, Run(p, Created(), run))
  {
    if NeedsAll(p) {
      forall run | RunAllowed(p, Created(), run) ensures IsBarrier(p, Run(p, Created(), run)) {
        NeedsAllMakesBarrier(p, run);
      }
    } else {
      var u: TaskId :| 0 <= u < |p.sets| && p.wanted <= Others(p, u);
      var run := Gather(p, u, |p.sets|);
      OthersBelow(p, u);
    }
  }

  // Two tasks that set the same bit: the first passes while the second has not come.
  lemma SameBit()
    ensures var p := Parties([{1}, {1}], {1});
            && Complete(p) && !NeedsAll(p)
            && RunAllowed(p, Created(), [Arrive(0)])
            && var s := Run(p, Created(), [Arrive(0)]); s.done(0) == 1 && s.begun(1) == 0 && !IsBarrier(p, s)
  {
    var p := Parties([{1}, {1}], {1});
    assert Union(p.sets) == p.sets[0] + Union(p.sets[1..]) && 1 in p.sets[0];
    assert p.sets[1..] == [{1}] && Union([{1}]) == {1} + Union([{1}][1..]);
    assert Others(p, 0) == Union(p.sets[..0]) + Union(p.sets[1..]);
    RunExtends(p, Created(), [], Arrive(0));
    assert [] + [Arrive(0)] == [Arrive(0)];
    var s := Arrived(p, Created(), 0);
    assert s.done(0) == 1 && s.begun(1) == 0;
  }
}
