/**
 The recursive mutex: any number of tasks inside xQueueTakeMutexRecursive and xQueueGiveMutexRecursive, interleaved at
 every read and write of the holder and of the call count. One holder at most, and its count is never off.
 */
module RecursiveMutex {
  type TaskId = nat

  const COUNTS := 0x1_0000_0000

  // UBaseType_t
  type Count = n: nat | n < COUNTS

  // xMutexHolder
  datatype Holder = None | Some(task: TaskId)

  // Where a task stands in its call.
  datatype Phase =
    | Idle
    | TakeTest                    // before it compares the holder with itself
    | Taking                      // in xQueueSemaphoreTake
    | TakeCount                   // entitled, before it reads the count to increment it
    | TakeWrite(value: Count)     // before it writes value + 1
    | GiveTest
    | GiveCount
    | GiveWrite(value: Count)     // before it writes value - 1
    | GiveCheck                   // before it compares the count with zero
    | Giving                      // in xQueueGenericSend

  datatype State = State(
    tokens: nat,                  // uxMessagesWaiting, the queue has length 1
    holder: Holder,
    count: Count,                 // uxRecursiveCallCount
    phases: TaskId -> Phase,
    held: TaskId -> int)          // takes that returned pdPASS less gives that did

  datatype Step =
    | Take(t: TaskId)
    | Give(t: TaskId)
    | Advance(t: TaskId)          // one read, write or critical section of the call t is in
    | GiveUp(t: TaskId)           // the block time of xQueueSemaphoreTake is over

  // xQueueCreateMutex: prvInitialiseMutex has sent the token.
  function Created(): State {
    State(1, None, 0, (t: TaskId) => Idle, (t: TaskId) => 0)
  }

  predicate Enabled(s: State, step: Step) {
    match step
    case Take(t) => s.phases(t) == Idle
    case Give(t) => s.phases(t) == Idle
    case Advance(t) => s.phases(t) != Idle
    case GiveUp(t) => s.phases(t) == Taking
  }

  function At(s: State, t: TaskId, phase: Phase): State {
    s.(phases := (u: TaskId) => if u == t then phase else s.phases(u))
  }

  function Returns(s: State, t: TaskId, change: int): State {
    At(s, t, Idle).(held := (u: TaskId) => if u == t then s.held(u) + change else s.held(u))
  }

  // The critical section of xQueueSemaphoreTake: it may find no token and block or look again.
  function TakeToken(s: State, t: TaskId): State {
    if s.tokens > 0 then At(s, t, TakeCount).(tokens := s.tokens - 1, holder := Some(t)) else s
  }

  // That of xQueueGenericSend with block time zero: a full queue is left alone, and the caller is not told.
  function ReturnToken(s: State, t: TaskId): State {
    if s.tokens < 1 then Returns(s, t, -1).(tokens := s.tokens + 1, holder := None) else Returns(s, t, -1)
  }

  function Advanced(s: State, t: TaskId): State
    requires s.phases(t) != Idle
  {
    match s.phases(t)
    case TakeTest => At(s, t, if s.holder == Some(t) then TakeCount else Taking)
    case Taking => TakeToken(s, t)
    case TakeCount => At(s, t, TakeWrite(s.count))
    case TakeWrite(value) => Returns(s, t, 1).(count := (value + 1) % COUNTS)
    case GiveTest => At(s, t, if s.holder == Some(t) then GiveCount else Idle)
    case GiveCount => At(s, t, GiveWrite(s.count))
    case GiveWrite(value) => At(s, t, GiveCheck).(count := (value - 1) % COUNTS)
    case GiveCheck => if s.count == 0 then At(s, t, Giving) else Returns(s, t, -1)
    case Giving => ReturnToken(s, t)
  }

  function Next(s: State, step: Step): State
    requires Enabled(s, step)
  {
    match step
    case Take(t) => At(s, t, TakeTest)
    case Give(t) => At(s, t, GiveTest)
    case Advance(t) => Advanced(s, t)
    case GiveUp(t) => At(s, t, Idle)
  }

  // ----- what holds in every reachable state

  // A task that does not hold the mutex has not got past its test.
  predicate Outsider(phase: Phase, held: int) {
    held == 0 && (phase.Idle? || phase.TakeTest? || phase.Taking? || phase.GiveTest?)
  }

  // The holder's count, wherever it is between reading and writing it.
  predicate HolderOk(phase: Phase, held: int, count: Count) {
    match phase
    case Idle => count == held && held > 0
    case TakeTest => count == held && held > 0
    case Taking => false
    case TakeCount => count == held
    case TakeWrite(value) => value == count == held
    case GiveTest => count == held && held > 0
    case GiveCount => count == held && held > 0
    case GiveWrite(value) => value == count == held && held > 0
    case GiveCheck => count == held - 1
    case Giving => count == 0 && held == 1
  }

  predicate TaskOk(s: State, t: TaskId) {
    if s.holder == Some(t) then HolderOk(s.phases(t), s.held(t), s.count) else Outsider(s.phases(t), s.held(t))
  }

  ghost predicate Inv(s: State) {
    && (forall t: TaskId :: TaskOk(s, t))
    && s.tokens == (if s.holder == None then 1 else 0)
    && (s.holder == None ==> s.count == 0)
  }

  // The step is not the one that counts a take of a task with as many takes as the count can hold.
  predicate BelowWrap(s: State, step: Step) {
    !(step.Advance? && s.phases(step.t).TakeWrite? && s.held(step.t) == COUNTS - 1)
  }

  // Of all steps just that one spoils the count.
  lemma StepKeeps(s: State, step: Step)
    requires Inv(s) && Enabled(s, step)
    ensures Inv(Next(s, step)) <==> BelowWrap(s, step)
    ensures CountRight(Next(s, step)) <==> BelowWrap(s, step)
  {
    var r := Next(s, step);
    assert TaskOk(s, step.t);
    if BelowWrap(s, step) {
      forall u: TaskId ensures TaskOk(r, u) {
        assert TaskOk(s, u);
      }
      InvSays(r);
    } else {
      assert r.phases(step.t) == Idle && r.count == 0 && r.held(step.t) == COUNTS;
      assert !TaskOk(r, step.t);
    }
  }

  // Between its calls the holder finds its count right.
  ghost predicate CountRight(s: State) {
    forall t: TaskId :: s.phases(t) == Idle && s.holder == Some(t) ==> s.count == s.held(t)
  }

  lemma InvSays(s: State)
    requires Inv(s)
    ensures CountRight(s)
  {
    forall t: TaskId | s.phases(t) == Idle && s.holder == Some(t) ensures s.count == s.held(t) {
      assert TaskOk(s, t);
    }
  }

  ghost predicate RunAllowed(s: State, run: seq<Step>)
    decreases |run|
  {
    run != [] ==> Enabled(s, run[0]) && RunAllowed(Next(s, run[0]), run[1..])
  }

  ghost predicate RunBelowWrap(s: State, run: seq<Step>)
    requires RunAllowed(s, run)
    decreases |run|
  {
    run != [] ==> BelowWrap(s, run[0]) && RunBelowWrap(Next(s, run[0]), run[1..])
  }

  ghost function Run(s: State, run: seq<Step>): State
    requires RunAllowed(s, run)
    decreases |run|
  {
    if run == [] then s else Run(Next(s, run[0]), run[1..])
  }

  lemma {:induction false} RunKeeps(s: State, run: seq<Step>)
    requires Inv(s) && RunAllowed(s, run) && RunBelowWrap(s, run)
    ensures Inv(Run(s, run))
    decreases |run|
  {
    if run != [] {
      StepKeeps(s, run[0]);
      RunKeeps(Next(s, run[0]), run[1..]);
    }
  }

  ghost predicate AlwaysRight(s: State, run: seq<Step>)
    requires RunAllowed(s, run)
    decreases |run|
  {
    CountRight(s) && (run != [] ==> AlwaysRight(Next(s, run[0]), run[1..]))
  }

  // The count is right throughout a run exactly when no take in it is counted at the bound.
  lemma {:induction false} RightExactly(s: State, run: seq<Step>)
    requires Inv(s) && RunAllowed(s, run)
    ensures AlwaysRight(s, run) <==> RunBelowWrap(s, run)
    decreases |run|
  {
    InvSays(s);
    if run != [] {
      StepKeeps(s, run[0]);
      if BelowWrap(s, run[0]) {
        RightExactly(Next(s, run[0]), run[1..]);
      }
    }
  }

  lemma AlwaysRightExactly(run: seq<Step>)
    requires RunAllowed(Created(), run)
    ensures AlwaysRight(Created(), run) <==> RunBelowWrap(Created(), run)
  {
    RightExactly(Created(), run);
  }

  // Two tasks never hold the mutex together, and a task between calls holds it exactly when it is owed gives; the
  // count then says how many.
  lemma MutualExclusion(run: seq<Step>, t: TaskId, u: TaskId)
    requires RunAllowed(Created(), run) && RunBelowWrap(Created(), run)
    ensures var s := Run(Created(), run);
            && (s.held(t) > 0 && s.held(u) > 0 ==> t == u)
            && s.held(t) >= 0
            && (s.phases(t) == Idle ==> (s.held(t) > 0 <==> s.holder == Some(t)))
            && (s.phases(t) == Idle && s.held(t) > 0 ==> s.count == s.held(t))
  {
    RunKeeps(Created(), run);
    assert TaskOk(Run(Created(), run), t) && TaskOk(Run(Created(), run), u);
  }

  // The token is in the queue exactly when nobody holds the mutex or is about to count a take: it comes back
  // when the count unwinds to zero, not before and not later.
  lemma TokenWhenUnheld(run: seq<Step>)
    requires RunAllowed(Created(), run) && RunBelowWrap(Created(), run)
    ensures var s := Run(Created(), run);
            && s.tokens <= 1
            && (s.tokens == 1 <==>
                  forall t: TaskId :: s.held(t) == 0 && !s.phases(t).TakeCount? && !s.phases(t).TakeWrite?)
  {
    RunKeeps(Created(), run);
    var s := Run(Created(), run);
    if s.holder == None {
      forall t: TaskId ensures s.held(t) == 0 && !s.phases(t).TakeCount? && !s.phases(t).TakeWrite? {
        assert TaskOk(s, t);
      }
    } else {
      assert TaskOk(s, s.holder.task);
    }
  }

  // A give is refused exactly when the caller does not hold the mutex, and the send behind a give never fails.
  lemma GivesAnswerRight(run: seq<Step>, t: TaskId)
    requires RunAllowed(Created(), run) && RunBelowWrap(Created(), run)
    ensures var s := Run(Created(), run);
            && (s.phases(t) == GiveTest ==> (Next(s, Advance(t)).phases(t) == Idle <==> s.held(t) == 0))
            && (s.phases(t) == Giving ==> s.tokens == 0)
  {
    RunKeeps(Created(), run);
    assert TaskOk(Run(Created(), run), t);
  }

  // ----- the bound on nesting is needed

  lemma {:induction false} RunExtends(s: State, run: seq<Step>, step: Step)
    requires RunAllowed(s, run) && Enabled(Run(s, run), step)
    ensures RunAllowed(s, run + [step]) && Run(s, run + [step]) == Next(Run(s, run), step)
    decreases |run|
  {
    if run == [] {
      assert [] + [step] == [step] && [step][1..] == [];
    } else {
      RunExtends(Next(s, run[0]), run[1..], step);
      assert (run + [step])[1..] == run[1..] + [step];
    }
  }

  // t takes the mutex it holds, or one nobody holds.
  lemma TakesOnce(run: seq<Step>, t: TaskId) returns (longer: seq<Step>)
    requires RunAllowed(Created(), run)
    requires var s := Run(Created(), run);
             s.phases(t) == Idle && (s.holder == Some(t) || (s.holder == None && s.tokens == 1))
    ensures RunAllowed(Created(), longer)
    ensures var s, r := Run(Created(), run), Run(Created(), longer);
            && r.phases(t) == Idle && r.holder == Some(t) && r.held(t) == s.held(t) + 1
            && r.count == (s.count + 1) % COUNTS && r.tokens == if s.holder == None then 0 else s.tokens
  {
    RunExtends(Created(), run, Take(t));
    longer := run + [Take(t)];
    RunExtends(Created(), longer, Advance(t));
    longer := longer + [Advance(t)];
    if Run(Created(), run).holder == None {
      RunExtends(Created(), longer, Advance(t));
      longer := longer + [Advance(t)];
    }
    RunExtends(Created(), longer, Advance(t));
    longer := longer + [Advance(t)];
    RunExtends(Created(), longer, Advance(t));
    longer := longer + [Advance(t)];
  }

  // A take of the idle holder, run to its end, leaves the count right exactly when the holder had a count to spare.
  lemma TakeCountsExactly(run: seq<Step>, t: TaskId) returns (longer: seq<Step>)
    requires RunAllowed(Created(), run) && RunBelowWrap(Created(), run)
    requires Run(Created(), run).phases(t) == Idle && Run(Created(), run).holder == Some(t)
    ensures RunAllowed(Created(), longer)
    ensures var s, r := Run(Created(), run), Run(Created(), longer);
            && r.phases(t) == Idle && r.holder == Some(t) && r.held(t) == s.held(t) + 1
            && (r.count == r.held(t) <==> s.held(t) < COUNTS - 1)
  {
    RunKeeps(Created(), run);
    assert TaskOk(Run(Created(), run), t);
    longer := TakesOnce(run, t);
  }

  lemma {:induction false} TakesOften(n: nat, t: TaskId) returns (run: seq<Step>)
    ensures RunAllowed(Created(), run)
    ensures var s := Run(Created(), run);
            && s.phases(t) == Idle && s.held(t) == n && s.count == n % COUNTS
            && (n > 0 ==> s.holder == Some(t) && s.tokens == 0)
            && (n == 0 ==> s == Created())
  {
    run := [];
    if n > 0 {
      run := TakesOften(n - 1, t);
      run := TakesOnce(run, t);
    }
  }

  lemma GivesLast(run: seq<Step>, t: TaskId) returns (longer: seq<Step>)
    requires RunAllowed(Created(), run)
    requires var s := Run(Created(), run); s.phases(t) == Idle && s.holder == Some(t) && s.count == 1 && s.tokens == 0
    ensures RunAllowed(Created(), longer)
    ensures var s, r := Run(Created(), run), Run(Created(), longer);
            r.tokens == 1 && r.holder == None && r.held(t) == s.held(t) - 1
  {
    RunExtends(Created(), run, Give(t));
    longer := run + [Give(t)];
    RunExtends(Created(), longer, Advance(t));
    longer := longer + [Advance(t)];
    RunExtends(Created(), longer, Advance(t));
    longer := longer + [Advance(t)];
    RunExtends(Created(), longer, Advance(t));
    longer := longer + [Advance(t)];
    RunExtends(Created(), longer, Advance(t));
    longer := longer + [Advance(t)];
    RunExtends(Created(), longer, Advance(t));
    longer := longer + [Advance(t)];
  }

  // A task that takes the mutex once more than the count can hold gives it away with its first give, though it
  // still owes a full count of them.
  lemma WrapGivesAway(t: TaskId) returns (run: seq<Step>)
    ensures RunAllowed(Created(), run)
    ensures var s := Run(Created(), run); s.tokens == 1 && s.holder == None && s.held(t) == COUNTS
  {
    run := TakesOften(COUNTS + 1, t);
    run := GivesLast(run, t);
  }
}
