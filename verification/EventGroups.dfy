/**
 Event groups: bits, the tasks waiting for them, and what a woken task finds in its event list item. Every operation
 runs with the scheduler suspended or in a critical section, so a run is a sequence of whole operations.
 A word of event bits is the set of its bits here; EventWords relates the two.
 */
module EventGroups {
  type TaskId = nat
  // A bit is the word in which it alone is set.
  type Bit = bv32
  type Bits = set<Bit>

  // A task in xTasksWaitingForBits, with what its event list item says it waits for.
  datatype Waiter = Waiter(task: TaskId, wanted: Bits, clear: bool, all: bool)

  // What the event list item of a task says when it has left the list: eventUNBLOCKED_DUE_TO_BIT_SET is there with
  // the bits of the moment, or it is not.
  datatype ItemValue = Unblocked(bits: Bits) | TimedOut

  datatype Group = Group(bits: Bits, waiting: seq<Waiter>, values: map<TaskId, ItemValue>)

  datatype Outcome = Returns(value: Bits) | Blocks

  // prvTestWaitCondition
  predicate Met(bits: Bits, wanted: Bits, all: bool) {
    if all then wanted <= bits else bits * wanted != {}
  }

  predicate Satisfied(bits: Bits, w: Waiter) {
    Met(bits, w.wanted, w.all)
  }

  // The waiters that stay, the bits to clear for those that go, and the item values of those.
  function Left(waiting: seq<Waiter>, bits: Bits): seq<Waiter> {
    if waiting == [] then []
    else if Satisfied(bits, waiting[0]) then Left(waiting[1..], bits)
    else [waiting[0]] + Left(waiting[1..], bits)
  }

  function ClearMask(waiting: seq<Waiter>, bits: Bits): Bits {
    if waiting == [] then {}
    else
      (if Satisfied(bits, waiting[0]) && waiting[0].clear then waiting[0].wanted else {})
      + ClearMask(waiting[1..], bits)
  }

  function Woken(waiting: seq<Waiter>, bits: Bits, values: map<TaskId, ItemValue>): map<TaskId, ItemValue> {
    if waiting == [] then values
    else if Satisfied(bits, waiting[0]) then Woken(waiting[1..], bits, values[waiting[0].task := Unblocked(bits)])
    else Woken(waiting[1..], bits, values)
  }

  // xEventGroupSetBits
  function SetBits(g: Group, toSet: Bits): Group {
    var bits := g.bits + toSet;
    Group(bits - ClearMask(g.waiting, bits), Left(g.waiting, bits), Woken(g.waiting, bits, g.values))
  }

  // xEventGroupClearBits
  function ClearBits(g: Group, clear: Bits): Group {
    g.(bits := g.bits - clear)
  }

  function Block(g: Group, w: Waiter): Group {
    g.(waiting := g.waiting + [w])
  }

  // xEventGroupWaitBits up to where it blocks.
  function WaitBits(g: Group, w: Waiter, blockTime: bool): (Group, Outcome) {
    if Satisfied(g.bits, w) then (if w.clear then ClearBits(g, w.wanted) else g, Returns(g.bits))
    else if !blockTime then (g, Returns(g.bits))
    else (Block(g, w), Blocks)
  }

  // xEventGroupSync up to where it blocks.
  function Sync(g: Group, t: TaskId, toSet: Bits, wanted: Bits, blockTime: bool): (Group, Outcome) {
    var after := SetBits(g, toSet);
    if wanted <= g.bits + toSet then (ClearBits(after, wanted), Returns(g.bits + toSet))
    else if !blockTime then (after, Returns(after.bits))
    else (Block(after, Waiter(t, wanted, true, true)), Blocks)
  }

  // The block time of a waiting task is over: its item keeps the value it waited with.
  function TimeOut(g: Group, i: nat): Group
    requires i < |g.waiting|
  {
    g.(waiting := g.waiting[..i] + g.waiting[i + 1..], values := g.values[g.waiting[i].task := TimedOut])
  }

  // What a task does when it runs again: it returns what its item says, or after a timeout what the bits say now.
  function Resume(g: Group, t: TaskId, w: Waiter): (Group, Bits)
    requires t in g.values
  {
    var rest := g.(values := g.values - {t});
    match g.values[t]
    case Unblocked(bits) => (rest, bits)
    case TimedOut => (if Satisfied(g.bits, w) && w.clear then ClearBits(rest, w.wanted) else rest, g.bits)
  }

  // ----- what a set does

  // The waiters that stay are those that are not satisfied, all judged by the same bits.
  lemma {:induction false} LeftExactly(waiting: seq<Waiter>, bits: Bits, w: Waiter)
    ensures w in Left(waiting, bits) <==> w in waiting && !Satisfied(bits, w)
  {
    if waiting != [] {
      LeftExactly(waiting[1..], bits, w);
      assert waiting == [waiting[0]] + waiting[1..];
    }
  }

  // Some waiter that is satisfied by the bits clears this one on exit.
  ghost predicate ClearedOnExit(waiting: seq<Waiter>, bits: Bits, b: Bit) {
    exists w :: w in waiting && Satisfied(bits, w) && w.clear && b in w.wanted
  }

  // The bits cleared are those some satisfied waiter waited for and clears on exit.
  lemma {:induction false} ClearMaskExactly(waiting: seq<Waiter>, bits: Bits, b: Bit)
    ensures b in ClearMask(waiting, bits) <==> ClearedOnExit(waiting, bits, b)
  {
    if waiting != [] {
      ClearMaskExactly(waiting[1..], bits, b);
      assert forall w :: w in waiting <==> w == waiting[0] || w in waiting[1..];
    }
  }

  ghost predicate DistinctTasks(waiting: seq<Waiter>) {
    forall i, j :: 0 <= i < j < |waiting| ==> waiting[i].task != waiting[j].task
  }

  // A task is handed the bits of the moment exactly when it is a satisfied waiter; all others keep their values.
  lemma {:induction false} WokenExactly(waiting: seq<Waiter>, bits: Bits, values: map<TaskId, ItemValue>, t: TaskId)
    requires DistinctTasks(waiting)
    ensures var r := Woken(waiting, bits, values);
            if exists w :: w in waiting && w.task == t && Satisfied(bits, w) then t in r && r[t] == Unblocked(bits)
            else (t in r <==> t in values) && (t in values ==> r[t] == values[t])
  {
    if waiting != [] {
      assert forall w :: w in waiting <==> w == waiting[0] || w in waiting[1..];
      WokenExactly(waiting[1..], bits,
                   if Satisfied(bits, waiting[0]) then values[waiting[0].task := Unblocked(bits)] else values, t);
    }
  }

  // A bit is set after a set exactly when it was or was to be set, and no waiter that goes with it clears it on exit.
  lemma SetBitsExactly(g: Group, toSet: Bits, b: Bit)
    ensures b in SetBits(g, toSet).bits <==>
      && (b in g.bits || b in toSet)
      && !ClearedOnExit(g.waiting, g.bits + toSet, b)
  {
    ClearMaskExactly(g.waiting, g.bits + toSet, b);
  }

  // ----- what a caller finds and leaves behind

  // A wait answers at once exactly when it is met or may not block, with the bits it finds. If it is met and clears on
  // exit none of its bits stay set, and all others do. A wait that blocks changes no bit.
  lemma WaitAnswers(g: Group, w: Waiter, blockTime: bool, b: Bit)
    ensures var (r, outcome) := WaitBits(g, w, blockTime);
            && outcome == (if Met(g.bits, w.wanted, w.all) || !blockTime then Returns(g.bits) else Blocks)
            && (b in r.bits <==> b in g.bits && !(Met(g.bits, w.wanted, w.all) && w.clear && b in w.wanted))
            && r.waiting == (if outcome == Blocks then g.waiting + [w] else g.waiting) && r.values == g.values
  {
  }

  // A rendezvous answers at once exactly when its bits are all there once its own are set, or it may not block. When
  // they are, it answers with them and none of them stays set; otherwise it leaves what the set leaves.
  lemma SyncAnswers(g: Group, t: TaskId, toSet: Bits, wanted: Bits, blockTime: bool, b: Bit)
    ensures var (r, outcome) := Sync(g, t, toSet, wanted, blockTime);
            var after, met := SetBits(g, toSet), wanted <= g.bits + toSet;
            var late := if outcome == Blocks then [Waiter(t, wanted, true, true)] else [];
            && outcome == (if met then Returns(g.bits + toSet) else if blockTime then Blocks else Returns(after.bits))
            && (b in r.bits <==> b in after.bits && !(met && b in wanted))
            && r.waiting == after.waiting + late && r.values == after.values
  {
  }

  // A task that was woken returns the bits of that moment and changes none. One whose time was over returns the bits
  // of now; if they meet its call after all and it clears on exit, none of its bits stay set, and all others do.
  lemma ResumeAnswers(g: Group, t: TaskId, w: Waiter, b: Bit)
    requires t in g.values
    ensures var (r, value) := Resume(g, t, w);
            var late := g.values[t] == TimedOut && Met(g.bits, w.wanted, w.all);
            && value == (if g.values[t].Unblocked? then g.values[t].bits else g.bits)
            && (b in r.bits <==> b in g.bits && !(late && w.clear && b in w.wanted))
            && r.waiting == g.waiting && r.values == g.values - {t}
  {
  }

  // ----- whole runs

  // `calls` remembers the call of every task that has blocked and not returned.
  datatype State = State(group: Group, calls: map<TaskId, Waiter>)

  datatype Event =
    | Set(bits: Bits)                               // by a task, or by the daemon for an interrupt
    | Clear(bits: Bits)
    | Wait(call: Waiter, blockTime: bool)
    | Rendezvous(t: TaskId, toSet: Bits, wanted: Bits, blockTime: bool)
    | Expire(i: nat)                                // the tick interrupt takes the i-th waiter off the list
    | RunAgain(t: TaskId)

  predicate Enabled(s: State, event: Event) {
    match event
    case Set(_) => true
    case Clear(_) => true
    case Wait(call, _) => call.task !in s.calls && call.wanted != {}
    case Rendezvous(t, _, wanted, _) => t !in s.calls && wanted != {}
    case Expire(i) => i < |s.group.waiting|
    case RunAgain(t) => t in s.group.values && t in s.calls
  }

  function Next(s: State, event: Event): State
    requires Enabled(s, event)
  {
    match event
    case Set(bits) => s.(group := SetBits(s.group, bits))
    case Clear(bits) => s.(group := ClearBits(s.group, bits))
    case Wait(call, blockTime) =>
      var (group, outcome) := WaitBits(s.group, call, blockTime);
      State(group, if outcome.Blocks? then s.calls[call.task := call] else s.calls)
    case Rendezvous(t, toSet, wanted, blockTime) =>
      var (group, outcome) := Sync(s.group, t, toSet, wanted, blockTime);
      State(group, if outcome.Blocks? then s.calls[t := Waiter(t, wanted, true, true)] else s.calls)
    case Expire(i) => s.(group := TimeOut(s.group, i))
    case RunAgain(t) => State(Resume(s.group, t, s.calls[t]).0, s.calls - {t})
  }

  // No task waits for bits that are there.
  ghost predicate NobodyOverlooked(g: Group) {
    forall w :: w in g.waiting ==> !Satisfied(g.bits, w)
  }

  // A blocked task is in the list with its call, or it has an item value; an unblocked one was satisfied by its bits.
  ghost predicate CallsOk(s: State) {
    && DistinctTasks(s.group.waiting)
    && (forall w :: w in s.group.waiting ==>
          w.task in s.calls && s.calls[w.task] == w && w.task !in s.group.values)
    && (forall t :: t in s.group.values ==> t in s.calls && s.calls[t].task == t)
    && (forall t :: t in s.group.values && s.group.values[t].Unblocked? ==>
          Satisfied(s.group.values[t].bits, s.calls[t]))
  }

  ghost predicate Inv(s: State) {
    NobodyOverlooked(s.group) && CallsOk(s)
  }

  lemma {:induction false} LeftDistinct(waiting: seq<Waiter>, bits: Bits)
    requires DistinctTasks(waiting)
    ensures DistinctTasks(Left(waiting, bits))
  {
    if waiting != [] {
      LeftDistinct(waiting[1..], bits);
      forall w | w in Left(waiting[1..], bits) ensures w in waiting[1..] {
        LeftExactly(waiting[1..], bits, w);
      }
      assert forall w :: w in waiting[1..] ==> w.task != waiting[0].task;
    }
  }

  lemma SetKeepsWaiters(s: State, toSet: Bits)
    requires Inv(s)
    ensures NobodyOverlooked(SetBits(s.group, toSet)) && DistinctTasks(SetBits(s.group, toSet).waiting)
    ensures forall w :: w in SetBits(s.group, toSet).waiting ==> w in s.group.waiting
  {
    var g, bits := s.group, s.group.bits + toSet;
    LeftDistinct(g.waiting, bits);
    forall w | w in Left(g.waiting, bits)
      ensures w in g.waiting && !Satisfied(bits - ClearMask(g.waiting, bits), w)
    {
      LeftExactly(g.waiting, bits, w);
    }
  }

  lemma SetKeepsValues(s: State, toSet: Bits, t: TaskId)
    requires Inv(s)
    ensures var r := SetBits(s.group, toSet);
            && (t in r.values ==> t in s.calls && s.calls[t].task == t)
            && (t in r.values && r.values[t].Unblocked? ==> Satisfied(r.values[t].bits, s.calls[t]))
            && (forall w :: w in r.waiting && w.task == t ==> t !in r.values)
  {
    var g, bits := s.group, s.group.bits + toSet;
    WokenExactly(g.waiting, bits, g.values, t);
    forall w | w in Left(g.waiting, bits) && w.task == t ensures t !in Woken(g.waiting, bits, g.values) {
      LeftExactly(g.waiting, bits, w);
    }
  }

  lemma SetKeeps(s: State, toSet: Bits)
    requires Inv(s)
    ensures Inv(s.(group := SetBits(s.group, toSet)))
  {
    SetKeepsWaiters(s, toSet);
    forall t: TaskId
      ensures var r := SetBits(s.group, toSet);
              && (t in r.values ==> t in s.calls && s.calls[t].task == t)
              && (t in r.values && r.values[t].Unblocked? ==> Satisfied(r.values[t].bits, s.calls[t]))
              && (forall w :: w in r.waiting && w.task == t ==> t !in r.values)
    {
      SetKeepsValues(s, toSet, t);
    }
  }

  lemma ClearKeeps(s: State, clear: Bits)
    requires Inv(s)
    ensures Inv(s.(group := ClearBits(s.group, clear)))
  {
    forall w | w in s.group.waiting ensures !Satisfied(s.group.bits - clear, w) {
      assert !Satisfied(s.group.bits, w);
    }
  }

  lemma BlockKeeps(s: State, w: Waiter)
    requires Inv(s) && w.task !in s.calls && !Satisfied(s.group.bits, w)
    ensures Inv(State(Block(s.group, w), s.calls[w.task := w]))
  {
    assert forall v :: v in Block(s.group, w).waiting <==> v in s.group.waiting || v == w;
    forall v | v in s.group.waiting ensures v.task != w.task {
    }
  }

  lemma TimeOutKeeps(s: State, i: nat)
    requires Inv(s) && i < |s.group.waiting|
    ensures Inv(s.(group := TimeOut(s.group, i)))
  {
    var before, after := s.group.waiting, TimeOut(s.group, i).waiting;
    forall w | w in after ensures w in before && w.task != before[i].task {
      var j :| 0 <= j < |after| && after[j] == w;
      assert w == before[if j < i then j else j + 1];
    }
  }

  lemma StepKeeps(s: State, event: Event)
    requires Inv(s) && Enabled(s, event)
    ensures Inv(Next(s, event))
  {
    match event
    case Set(bits) => SetKeeps(s, bits);
    case Clear(bits) => ClearKeeps(s, bits);
    case Wait(call, blockTime) =>
      if Satisfied(s.group.bits, call) {
        ClearKeeps(s, call.wanted);
      } else if blockTime {
        BlockKeeps(s, call);
      }
    case Rendezvous(t, toSet, wanted, blockTime) =>
      SetKeeps(s, toSet);
      var after := s.(group := SetBits(s.group, toSet));
      if wanted <= s.group.bits + toSet {
        ClearKeeps(after, wanted);
      } else if blockTime {
        BlockKeeps(after, Waiter(t, wanted, true, true));
      }
    case Expire(i) => TimeOutKeeps(s, i);
    case RunAgain(t) =>
      ClearKeeps(s, s.calls[t].wanted);
  }

  ghost predicate RunAllowed(s: State, run: seq<Event>)
    decreases |run|
  {
    run != [] ==> Enabled(s, run[0]) && RunAllowed(Next(s, run[0]), run[1..])
  }

  ghost function Run(s: State, run: seq<Event>): State
    requires RunAllowed(s, run)
    decreases |run|
  {
    if run == [] then s else Run(Next(s, run[0]), run[1..])
  }

  // xEventGroupCreate
  function Created(): State {
    State(Group({}, [], map[]), map[])
  }

  lemma {:induction false} RunKeeps(s: State, run: seq<Event>)
    requires Inv(s) && RunAllowed(s, run)
    ensures Inv(Run(s, run))
    decreases |run|
  {
    if run != [] {
      StepKeeps(s, run[0]);
      RunKeeps(Next(s, run[0]), run[1..]);
    }
  }

  // After any run no task waits for bits that are there, and a woken task returns bits that meet its call.
  lemma NobodyWaitsInVain(run: seq<Event>, t: TaskId)
    requires RunAllowed(Created(), run)
    ensures NobodyOverlooked(Run(Created(), run).group)
    ensures var s := Run(Created(), run);
            t in s.group.values && s.group.values[t].Unblocked? ==>
              Enabled(s, RunAgain(t)) && Satisfied(Resume(s.group, t, s.calls[t]).1, s.calls[t])
  {
    RunKeeps(Created(), run);
  }

  // ----- no blocked task is forgotten

  // A task that has blocked and not returned is in the list with its call, or has been told why it was taken off.
  ghost predicate Remembered(s: State, t: TaskId) {
    t in s.calls ==> s.calls[t].task == t && (t in s.group.values || s.calls[t] in s.group.waiting)
  }

  lemma SetRemembers(s: State, toSet: Bits, t: TaskId)
    requires Inv(s) && Remembered(s, t)
    ensures Remembered(s.(group := SetBits(s.group, toSet)), t)
  {
    var g, bits := s.group, s.group.bits + toSet;
    WokenExactly(g.waiting, bits, g.values, t);
    if t in s.calls {
      LeftExactly(g.waiting, bits, s.calls[t]);
    }
  }

  lemma TimeOutRemembers(s: State, i: nat, t: TaskId)
    requires Inv(s) && i < |s.group.waiting| && Remembered(s, t)
    ensures Remembered(s.(group := TimeOut(s.group, i)), t)
  {
    if t in s.calls && s.calls[t] in s.group.waiting {
      var before, after := s.group.waiting, TimeOut(s.group, i).waiting;
      var j :| 0 <= j < |before| && before[j] == s.calls[t];
      assert j != i ==> after[if j < i then j else j - 1] == before[j];
    }
  }

  lemma StepRemembers(s: State, event: Event, t: TaskId)
    requires Inv(s) && Enabled(s, event) && Remembered(s, t)
    ensures Remembered(Next(s, event), t)
  {
    match event
    case Set(bits) => SetRemembers(s, bits, t);
    case Rendezvous(_, toSet, _, _) => SetRemembers(s, toSet, t);
    case Expire(i) => TimeOutRemembers(s, i, t);
    case _ =>
  }

  lemma {:induction false} RunRemembers(s: State, run: seq<Event>, t: TaskId)
    requires Inv(s) && RunAllowed(s, run) && Remembered(s, t)
    ensures Remembered(Run(s, run), t)
    decreases |run|
  {
    if run != [] {
      StepKeeps(s, run[0]);
      StepRemembers(s, run[0], t);
      RunRemembers(Next(s, run[0]), run[1..], t);
    }
  }

  // In every run: a task that has blocked is in the list with the call it made, or it can run again and is not.
  lemma NobodyForgotten(run: seq<Event>, t: TaskId)
    requires RunAllowed(Created(), run) && t in Run(Created(), run).calls
    ensures var s := Run(Created(), run);
            && (Enabled(s, RunAgain(t)) <==> s.calls[t] !in s.group.waiting)
            && (s.calls[t] in s.group.waiting ==> s.calls[t].task == t && !Satisfied(s.group.bits, s.calls[t]))
  {
    RunKeeps(Created(), run);
    RunRemembers(Created(), run, t);
  }
}
