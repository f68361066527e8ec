/**
 Whole runs of the timer daemon for a one-shot timer that is left alone: its callback runs once, not before its time,
 and until then the timer is recorded in exactly one place, afterwards nowhere.
 */
module TimerOneShot {
  import opened Ticks
  import opened ListSpec
  import opened TimerSpec
  import opened TimerLists
  import opened TimerSchedule

  // A one-shot timer started as planned either waits for its one expiry, or has had it.
  ghost predicate Waits(v: View, last: nat, plan: Plan) {
    v.timer == Timer(plan.period, false) && |v.times| == plan.before && Recorded(v, last, plan.period, plan.start)
  }

  ghost predicate Fired(v: View, plan: Plan, now: nat) {
    && v.timer == Timer(plan.period, false) && |v.times| == plan.before + 1 && RecordedNowhere(v)
    && plan.start + plan.period <= v.times[plan.before] <= now
  }

  ghost predicate ViewOnce(v: View, last: nat, plan: Plan, now: nat) {
    plan.start <= now && (Waits(v, last, plan) || Fired(v, plan, now))
  }

  ghost predicate Once(d: Daemon, x: TimerId, plan: Plan, now: nat) {
    ViewOnce(ViewOf(d, x), d.last, plan, now)
  }

  // ----- switching the lists

  lemma DrainFires(d: Daemon, x: TimerId, plan: Plan, now: nat, env: Arrivals)
    requires Once(d, x, plan, now) && LeavesAlone(env, x) && Epoch(now) == Epoch(d.last) + 1
    requires d.current != [] && d.current[0].owner == x
    ensures Fired(ViewOf(DrainHead(d, now, env), x), plan, now)
  {
    ViewPop(d, x);
    DrainXRuns(d, x, now, env);
    assert DrainHead(d, now, env) == RunCallback(d.(current := d.current[1..]), x, now, env);
    EpochOrder(plan.start + plan.period, now);
  }

  lemma DrainKeepsOnce(d: Daemon, x: TimerId, plan: Plan, now: nat, env: Arrivals)
    requires Once(d, x, plan, now) && LeavesAlone(env, x) && Epoch(now) == Epoch(d.last) + 1 && d.current != []
    ensures Once(DrainHead(d, now, env), x, plan, now) && DrainHead(d, now, env).last == d.last
  {
    DrainKeepsLast(d, now, env);
    if d.current[0].owner == x {
      DrainFires(d, x, plan, now, env);
    } else {
      DrainOther(d, x, now, env);
    }
  }

  lemma SwapKeepsOnce(d: Daemon, x: TimerId, plan: Plan, now: nat, env: Arrivals)
    requires Once(d, x, plan, now) && d.current == [] && Epoch(now) == Epoch(d.last) + 1
    ensures Once(SwitchLists(d, now, env).(last := now), x, plan, now)
  {
    var r := SwitchLists(d, now, env).(last := now);
    assert ViewOf(r, x) == ViewOf(d, x).(current := ViewOf(d, x).overflow, overflow := []);
  }

  lemma {:induction false} SwitchListsKeepsOnce(d: Daemon, x: TimerId, plan: Plan, now: nat, env: Arrivals)
    requires Once(d, x, plan, now) && LeavesAlone(env, x) && Epoch(now) == Epoch(d.last) + 1
    ensures Once(SwitchLists(d, now, env).(last := now), x, plan, now)
    decreases Headroom(d.current)
  {
    if d.current == [] {
      SwapKeepsOnce(d, x, plan, now, env);
    } else {
      DrainKeepsOnce(d, x, plan, now, env);
      SwitchListsKeepsOnce(DrainHead(d, now, env), x, plan, now, env);
    }
  }

  lemma SampleKeepsOnce(d: Daemon, x: TimerId, plan: Plan, time: nat, now: nat, env: Arrivals)
    requires Once(d, x, plan, time) && LeavesAlone(env, x)
    requires time <= now && d.last <= now && SampledInTime(d, now)
    ensures Once(Sample(d, now, env), x, plan, now)
  {
    if now < d.last + WRAP {
      WrapDetected(d.last, now);
      if MustSwitch(d, now) {
        SwitchListsKeepsOnce(d, x, plan, now, env);
      } else {
        assert ViewOf(d.(last := now), x) == ViewOf(d, x);
      }
    } else {
      assert ViewOf(Sample(d, now, env), x) == ViewOf(d, x);
    }
  }

  // ----- the steps of the daemon

  // The head of the current list is due: the timer leaves the list for good and its callback runs.
  lemma ExpiryFires(d: Daemon, x: TimerId, plan: Plan, now: nat, env: Arrivals)
    requires Once(d, x, plan, now) && LeavesAlone(env, x) && d.last == now
    requires d.current != [] && d.current[0].owner == x && d.current[0].value <= Wrap(now)
    ensures Waits(ViewOf(d, x), now, plan) && Fired(ViewOf(ProcessExpired(d, now, env), x), plan, now)
    ensures ProcessExpired(d, now, env).last == now
  {
    ViewPop(d, x);
    DrainXRuns(d, x, now, env);
    assert ProcessExpired(d, now, env) == RunCallback(d.(current := d.current[1..]), x, now, env);
  }

  lemma ProcessTimerOrBlockKeepsOnce(d: Daemon, x: TimerId, plan: Plan, time: nat, now: nat, env: Arrivals)
    requires Once(d, x, plan, time) && LeavesAlone(env, x)
    requires time <= now && d.last <= now && SampledInTime(d, now)
    ensures Once(ProcessTimerOrBlock(d, now, env), x, plan, now)
  {
    SampleKeepsOnce(d, x, plan, time, now, env);
    if !MustSwitch(d, now) && !Blocks(d, now) {
      var d1 := Sample(d, now, env);
      if d1.current[0].owner == x {
        ExpiryFires(d1, x, plan, now, env);
      } else {
        ProcessExpiredOther(d1, x, now, env);
      }
    }
  }

  lemma ReceiveOtherKeepsOnce(d: Daemon, x: TimerId, plan: Plan, time: nat, now: nat, env: Arrivals)
    requires Once(d, x, plan, time) && LeavesAlone(env, x)
    requires time <= now && d.last <= now && SampledInTime(d, now)
    requires d.queue != [] && d.queue[0].timer != x && !d.queue[0].kind.PendedFunctionCall?
    ensures Once(ReceiveCommand(d, now, env), x, plan, now)
  {
    var c := d.queue[0];
    ViewTakeCommand(d, x);
    ViewTakeOut(d.(queue := d.queue[1..]), c.timer, x);
    var d1 := TakeOut(d.(queue := d.queue[1..]), c.timer);
    SampleKeepsOnce(d1, x, plan, time, now, env);
    var d2 := Sample(d1, now, env);
    if IsStart(c.kind) {
      ExecuteOtherStart(d2, c, x, now, env);
    } else if c.kind in {ChangePeriod, ChangePeriodFromISR} {
      ExecuteOtherPeriod(d2, c, x, now, env);
    }
  }

  // A start command of a one-shot timer that is recorded nowhere: an overdue one runs its callback at once, and that
  // is all; another one is listed.
  lemma ExecuteOnce(d: Daemon, c: Command, x: TimerId, plan: Plan, now: nat, env: Arrivals)
    requires LeavesAlone(env, x) && c.timer == x && IsStart(c.kind) && c.value == Wrap(plan.start)
    requires plan.start <= now < plan.start + WRAP && d.last == now
    requires ViewOf(d, x).timer == Timer(plan.period, false) && RecordedNowhere(ViewOf(d, x))
    requires |ViewOf(d, x).times| == plan.before
    ensures Once(Execute(d, c, now, env), x, plan, now) && Execute(d, c, now, env).last == now
  {
    ViewInsertX(d, x, plan.period, plan.start, now);
    ViewCallback(d, x, x, now, env);
    var next := AddTicks(c.value, plan.period);
    var (d1, expired) := InsertTimer(d, x, next, Wrap(now), c.value);
    assert Execute(d, c, now, env) == if expired then RunCallback(d, x, now, env) else d1;
  }

  lemma HandlesStartOnce(d: Daemon, x: TimerId, plan: Plan, now: nat, env: Arrivals)
    requires LeavesAlone(env, x) && d.timers(x) == Timer(plan.period, false) && d.queue != []
    requires d.queue[0].timer == x && IsStart(d.queue[0].kind) && d.queue[0].value == Wrap(plan.start)
    requires CommandsFor(d.queue[1..], x) == [] && plan.start <= now < plan.start + WRAP
    requires |FiringTimes(d.fired, x)| == plan.before
    ensures Once(ReceiveCommand(d, now, env), x, plan, now) && ReceiveCommand(d, now, env).last == now
  {
    var d1 := TakeOut(d.(queue := d.queue[1..]), x);
    TakenForStart(d, x);
    SampleKeepsAbsent(d1, x, now, env);
    ExecuteOnce(Sample(d1, now, env), d.queue[0], x, plan, now, env);
  }

  lemma ReceiveKeepsOnce(d: Daemon, x: TimerId, plan: Plan, time: nat, now: nat, env: Arrivals)
    requires Once(d, x, plan, time) && d.last <= time && LeavesAlone(env, x) && d.queue != []
    requires time <= now && SampledInTime(d, now) && HandledInTime(d, x, plan, now)
    ensures Once(ReceiveCommand(d, now, env), x, plan, now) && ReceiveCommand(d, now, env).last <= now
  {
    var c := d.queue[0];
    ReceiveKeepsLast(d, now, env);
    ViewTakeCommand(d, x);
    assert CommandsFor([c], x) != [] <==> c.timer == x && !c.kind.PendedFunctionCall?;
    if !c.kind.PendedFunctionCall? {
      if c.timer == x {
        assert Waits(ViewOf(d, x), d.last, plan);
        HandlesStartOnce(d, x, plan, now, env);
      } else {
        ReceiveOtherKeepsOnce(d, x, plan, time, now, env);
      }
    }
  }

  // ----- whole runs

  lemma StepKeepsOnce(d: Daemon, e: Event, time: nat, x: TimerId, plan: Plan, env: Arrivals)
    requires Once(d, x, plan, time) && d.last <= time && LeavesAlone(env, x) && Allowed(d, e, time, x, plan)
    ensures Once(Step(d, e, env), x, plan, TimeAfter(time, e)) && Step(d, e, env).last <= TimeAfter(time, e)
  {
    match e
    case Arrive(c) => ViewPost(d, c, x);
    case TimerOrBlock(now) => ProcessTimerOrBlockKeepsOnce(d, x, plan, time, now, env);
    case Receive(now) => if d.queue != [] { ReceiveKeepsOnce(d, x, plan, time, now, env); }
  }

  // In every run, across list switches, late handling and wraps of the tick count: a one-shot timer that is left alone
  // has run its callback once since it was started, not before its time, and is recorded nowhere; or it has not run and
  // is recorded in exactly one place.
  lemma {:induction false} RunsOnce(
    d: Daemon, events: seq<Event>, time: nat, x: TimerId, plan: Plan, env: Arrivals)
    requires Once(d, x, plan, time) && d.last <= time && LeavesAlone(env, x)
    requires RunAllowed(d, events, time, x, plan, env)
    ensures Once(Run(d, events, env), x, plan, EndTime(time, events))
    decreases |events|
  {
    if events != [] {
      StepKeepsOnce(d, events[0], time, x, plan, env);
      RunsOnce(Step(d, events[0], env), events[1..], TimeAfter(time, events[0]), x, plan, env);
    }
  }

  // When the daemon blocks at `now` with no command for x in its queue, x has run exactly when its time has come.
  lemma BlockedMeansFired(d: Daemon, x: TimerId, plan: Plan, now: nat)
    requires Once(d, x, plan, now) && ListsValid(d)
    requires Blocks(d, now) && d.last <= now && SampledInTime(d, now) && CommandsFor(d.queue, x) == []
    ensures |FiringTimes(d.fired, x)| == plan.before + if plan.start + plan.period <= now then 1 else 0
  {
    var v := ViewOf(d, x);
    if Waits(v, d.last, plan) {
      if v.current != [] {
        assert v.current[0] in v.current;
        ValueInList(d.current, x, v.current[0]);
        var i :| 0 <= i < |d.current| && d.current[i] == Entry(v.current[0], x);
        assert d.current[0].value <= d.current[i].value;
      } else {
        assert d.overflow != [];
      }
      assert now < d.last + WRAP;
      WrapDetected(d.last, now);
    }
  }

  // ----- how a timer gets there

  lemma StartedOnce(d: Daemon, c: Command, x: TimerId, start: nat, period: Period)
    requires d.timers(x) == Timer(period, false) && c.timer == x && IsStart(c.kind) && c.value == Wrap(start)
    requires RecordedNowhere(ViewOf(d, x))
    ensures Once(Post(d, c), x, Plan(start, period, |FiringTimes(d.fired, x)|), start)
  {
    ViewPost(d, c, x);
  }

  // Handling a start or reset begins anew, whether or not the timer was running.
  lemma RestartedOnce(d: Daemon, x: TimerId, start: nat, period: Period, now: nat, env: Arrivals)
    requires LeavesAlone(env, x) && d.timers(x) == Timer(period, false) && d.queue != []
    requires d.queue[0].timer == x && IsStart(d.queue[0].kind) && d.queue[0].value == Wrap(start)
    requires CommandsFor(d.queue[1..], x) == [] && start <= now < start + WRAP
    ensures Once(ReceiveCommand(d, now, env), x, Plan(start, period, |FiringTimes(d.fired, x)|), now)
  {
    HandlesStartOnce(d, x, Plan(start, period, |FiringTimes(d.fired, x)|), now, env);
  }

  // So does a change of the period, from the moment it is handled.
  lemma ChangedPeriodOnce(d: Daemon, x: TimerId, now: nat, env: Arrivals)
    requires LeavesAlone(env, x) && !d.timers(x).autoReload && d.queue != []
    requires d.queue[0].timer == x && d.queue[0].kind in {ChangePeriod, ChangePeriodFromISR}
    requires CommandsFor(d.queue[1..], x) == []
    ensures Once(ReceiveCommand(d, now, env), x, Plan(now, d.queue[0].value, |FiringTimes(d.fired, x)|), now)
  {
    var c := d.queue[0];
    var d1 := TakeOut(d.(queue := d.queue[1..]), x);
    TakenForStart(d, x);
    SampleKeepsAbsent(d1, x, now, env);
    var d2 := Sample(d1, now, env);
    var d3 := d2.(timers := WithPeriod(d2.timers, x, c.value));
    assert ViewOf(d3, x) == ViewOf(d2, x).(timer := Timer(c.value, false));
    ViewInsertX(d3, x, c.value, now, now);
    assert ReceiveCommand(d, now, env) == InsertTimer(d3, x, AddTicks(Wrap(now), c.value), Wrap(now), Wrap(now)).0;
  }
}
