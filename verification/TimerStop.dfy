/**
 Stopping and deleting timers, over whole runs of the daemon: a stopped timer is in no list and its callback does not
 run until a start or a new period for it is handled. The daemon's own restarts count as starts, so a stop that is in
 the queue before one of them does not hold.
 */
module TimerStop {
  import opened Ticks
  import opened ListSpec
  import opened TimerSpec
  import opened TimerLists
  import opened TimerSchedule

  predicate IsStop(kind: Kind) {
    kind in {Stop, StopFromISR, Delete}
  }

  // Commands that only stop or delete.
  predicate Quiet(commands: seq<Command>) {
    forall i :: 0 <= i < |commands| ==> IsStop(commands[i].kind)
  }

  // Callbacks post nothing else for x.
  ghost predicate LeavesStopped(env: Arrivals, x: TimerId) {
    forall k :: Quiet(CommandsFor(env(k), x))
  }

  // x is in no list, nothing in the queue starts it, and its callback has run at these times.
  predicate Stopped(v: View, times: seq<nat>) {
    v.current == [] && v.overflow == [] && Quiet(v.commands) && v.times == times
  }

  ghost predicate StaysStopped(d: Daemon, x: TimerId, times: seq<nat>) {
    Stopped(ViewOf(d, x), times)
  }

  // ----- the parts of a step

  // What a callback does to all that is recorded about x, whatever it posts.
  lemma ViewAnyCallback(d: Daemon, x: TimerId, timer: TimerId, now: nat, env: Arrivals)
    ensures var v, posted := ViewOf(d, x), CommandsFor(env(|d.fired|), x);
            ViewOf(RunCallback(d, timer, now, env), x)
            == v.(commands := v.commands + posted, times := if timer == x then v.times + [now] else v.times)
  {
    CommandsForAppend(d.queue, env(|d.fired|), x);
    var fired := d.fired + [Firing(timer, now)];
    assert fired[..|fired| - 1] == d.fired;
  }

  lemma OtherCallbackKeeps(d: Daemon, x: TimerId, times: seq<nat>, timer: TimerId, now: nat, env: Arrivals)
    requires StaysStopped(d, x, times) && LeavesStopped(env, x) && timer != x
    ensures StaysStopped(RunCallback(d, timer, now, env), x, times)
  {
    ViewAnyCallback(d, x, timer, now, env);
    assert Quiet(CommandsFor(env(|d.fired|), x));
  }

  // The head of the current list belongs to another timer.
  lemma HeadIsOther(d: Daemon, x: TimerId, times: seq<nat>)
    requires StaysStopped(d, x, times) && d.current != []
    ensures d.current[0].owner != x && StaysStopped(d.(current := d.current[1..]), x, times)
  {
    ViewPop(d, x);
  }

  lemma OtherRestartKeeps(d: Daemon, x: TimerId, times: seq<nat>, timer: TimerId, value: Tick)
    requires StaysStopped(d, x, times) && timer != x
    ensures StaysStopped(Post(d, RawCommand(StartDontTrace, timer, value)), x, times)
  {
    ViewPost(d, RawCommand(StartDontTrace, timer, value), x);
  }

  lemma DrainKeepsStopped(d: Daemon, x: TimerId, times: seq<nat>, now: nat, env: Arrivals)
    requires StaysStopped(d, x, times) && LeavesStopped(env, x) && d.current != []
    ensures StaysStopped(DrainHead(d, now, env), x, times)
  {
    var head := d.current[0];
    var reload := AddTicks(head.value, d.timers(head.owner).period);
    HeadIsOther(d, x, times);
    OtherCallbackKeeps(d.(current := d.current[1..]), x, times, head.owner, now, env);
    var d1 := RunCallback(d.(current := d.current[1..]), head.owner, now, env);
    ViewInsert(d1, Entry(reload, head.owner), x);
    OtherRestartKeeps(d1, x, times, head.owner, head.value);
  }

  lemma {:induction false} SwitchKeepsStopped(d: Daemon, x: TimerId, times: seq<nat>, now: nat, env: Arrivals)
    requires StaysStopped(d, x, times) && LeavesStopped(env, x)
    ensures StaysStopped(SwitchLists(d, now, env), x, times)
    decreases Headroom(d.current)
  {
    if d.current == [] {
      var v := ViewOf(d, x);
      assert ViewOf(SwitchLists(d, now, env), x) == v.(current := v.overflow, overflow := []);
    } else {
      DrainKeepsStopped(d, x, times, now, env);
      SwitchKeepsStopped(DrainHead(d, now, env), x, times, now, env);
    }
  }

  lemma SampleKeepsStopped(d: Daemon, x: TimerId, times: seq<nat>, now: nat, env: Arrivals)
    requires StaysStopped(d, x, times) && LeavesStopped(env, x)
    ensures StaysStopped(Sample(d, now, env), x, times)
  {
    SwitchKeepsStopped(d, x, times, now, env);
    var d1 := if MustSwitch(d, now) then SwitchLists(d, now, env) else d;
    assert ViewOf(d1.(last := now), x) == ViewOf(d1, x);
  }

  lemma ExpiredKeepsStopped(d: Daemon, x: TimerId, times: seq<nat>, now: nat, env: Arrivals)
    requires StaysStopped(d, x, times) && LeavesStopped(env, x) && d.current != []
    ensures StaysStopped(ProcessExpired(d, now, env), x, times)
  {
    var head := d.current[0];
    var timer := d.timers(head.owner);
    var next, d1 := AddTicks(head.value, timer.period), d.(current := d.current[1..]);
    HeadIsOther(d, x, times);
    ViewInsertOther(d1, head.owner, next, Wrap(now), head.value, x);
    var (d2, expired) := InsertTimer(d1, head.owner, next, Wrap(now), head.value);
    OtherRestartKeeps(d2, x, times, head.owner, head.value);
    var d3 := if !timer.autoReload then d1
              else if expired then Post(d2, RawCommand(StartDontTrace, head.owner, head.value)) else d2;
    OtherCallbackKeeps(d3, x, times, head.owner, now, env);
  }

  lemma TimerOrBlockKeepsStopped(d: Daemon, x: TimerId, times: seq<nat>, now: nat, env: Arrivals)
    requires StaysStopped(d, x, times) && LeavesStopped(env, x)
    ensures StaysStopped(ProcessTimerOrBlock(d, now, env), x, times)
  {
    SampleKeepsStopped(d, x, times, now, env);
    if !MustSwitch(d, now) && !Blocks(d, now) {
      ExpiredKeepsStopped(Sample(d, now, env), x, times, now, env);
    }
  }

  lemma StartOtherKeepsStopped(d: Daemon, x: TimerId, times: seq<nat>, c: Command, now: nat, env: Arrivals)
    requires StaysStopped(d, x, times) && LeavesStopped(env, x) && c.timer != x && IsStart(c.kind)
    ensures StaysStopped(Execute(d, c, now, env), x, times)
  {
    var next := AddTicks(c.value, d.timers(c.timer).period);
    ViewInsertOther(d, c.timer, next, Wrap(now), c.value, x);
    var d1 := InsertTimer(d, c.timer, next, Wrap(now), c.value).0;
    OtherCallbackKeeps(d1, x, times, c.timer, now, env);
    var d2 := RunCallback(d1, c.timer, now, env);
    OtherRestartKeeps(d2, x, times, c.timer, next);
    assert Execute(d, c, now, env) in {d1, d2, Post(d2, RawCommand(StartDontTrace, c.timer, next))};
  }

  lemma ExecuteKeepsStopped(d: Daemon, x: TimerId, times: seq<nat>, c: Command, now: nat, env: Arrivals)
    requires StaysStopped(d, x, times) && LeavesStopped(env, x) && (c.timer == x ==> IsStop(c.kind))
    ensures StaysStopped(Execute(d, c, now, env), x, times)
  {
    if IsStart(c.kind) {
      StartOtherKeepsStopped(d, x, times, c, now, env);
    } else if c.kind in {ChangePeriod, ChangePeriodFromISR} {
      ExecuteOtherPeriod(d, c, x, now, env);
    }
  }

  // ----- a handled stop

  // With x taken out of its list, it is stopped if nothing behind the command starts it.
  lemma TakenOut(d: Daemon, x: TimerId)
    requires d.queue != [] && (d.queue[0].timer == x ==> !d.queue[0].kind.PendedFunctionCall?)
    ensures var v, c := ViewOf(d, x), d.queue[0];
            ViewOf(TakeOut(d.(queue := d.queue[1..]), c.timer), x)
            == if c.timer == x then v.(current := [], overflow := [], commands := CommandsFor(d.queue[1..], x)) else v
  {
    ViewTakeCommand(d, x);
    ViewTakeOut(d.(queue := d.queue[1..]), d.queue[0].timer, x);
  }

  // A stop or delete command that is handled takes x out of its list and runs no callback of it. It holds exactly
  // when no start and no new period for x stands behind it in the queue.
  lemma StopHoldsExactly(d: Daemon, x: TimerId, now: nat, env: Arrivals)
    requires LeavesAlone(env, x) && d.queue != [] && d.queue[0].timer == x && IsStop(d.queue[0].kind)
    ensures var v, r := ViewOf(d, x), ReceiveCommand(d, now, env);
            && ViewOf(r, x) == v.(current := [], overflow := [], commands := CommandsFor(d.queue[1..], x))
            && (StaysStopped(r, x, FiringTimes(d.fired, x)) <==> Quiet(CommandsFor(d.queue[1..], x)))
  {
    TakenOut(d, x);
    SampleKeepsAbsent(TakeOut(d.(queue := d.queue[1..]), x), x, now, env);
  }

  // The same when callbacks may post more stops.
  lemma StopHolds(d: Daemon, x: TimerId, now: nat, env: Arrivals)
    requires LeavesStopped(env, x) && d.queue != [] && d.queue[0].timer == x && IsStop(d.queue[0].kind)
    requires Quiet(CommandsFor(d.queue[1..], x))
    ensures StaysStopped(ReceiveCommand(d, now, env), x, FiringTimes(d.fired, x))
  {
    var d1, times := TakeOut(d.(queue := d.queue[1..]), x), FiringTimes(d.fired, x);
    TakenOut(d, x);
    SampleKeepsStopped(d1, x, times, now, env);
    ExecuteKeepsStopped(Sample(d1, now, env), x, times, d.queue[0], now, env);
  }

  // ----- whole runs

  lemma ReceiveKeepsStopped(d: Daemon, x: TimerId, times: seq<nat>, now: nat, env: Arrivals)
    requires StaysStopped(d, x, times) && LeavesStopped(env, x) && d.queue != []
    ensures StaysStopped(ReceiveCommand(d, now, env), x, times)
  {
    var c := d.queue[0];
    ViewTakeCommand(d, x);
    if !c.kind.PendedFunctionCall? {
      if c.timer == x {
        assert ViewOf(d, x).commands[0] == c && IsStop(c.kind);
        assert Quiet(ViewOf(d, x).commands[1..]);
        StopHolds(d, x, now, env);
      } else {
        var d1 := TakeOut(d.(queue := d.queue[1..]), c.timer);
        TakenOut(d, x);
        SampleKeepsStopped(d1, x, times, now, env);
        ExecuteKeepsStopped(Sample(d1, now, env), x, times, c, now, env);
      }
    }
  }

  lemma StepKeepsStopped(d: Daemon, x: TimerId, times: seq<nat>, e: Event, env: Arrivals)
    requires StaysStopped(d, x, times) && LeavesStopped(env, x) && (e.Arrive? ==> Quiet(CommandsFor([e.c], x)))
    ensures StaysStopped(Step(d, e, env), x, times)
  {
    match e
    case Arrive(c) => CommandsForAppend(d.queue, [c], x);
    case TimerOrBlock(now) => TimerOrBlockKeepsStopped(d, x, times, now, env);
    case Receive(now) => if d.queue != [] { ReceiveKeepsStopped(d, x, times, now, env); }
  }

  // No start and no new period for x arrives.
  ghost predicate NoStart(events: seq<Event>, x: TimerId) {
    forall i :: 0 <= i < |events| && events[i].Arrive? ==> Quiet(CommandsFor([events[i].c], x))
  }

  // A stopped timer stays in no list and its callback does not run, in every run in which nothing starts it again,
  // however late the daemon is and however often the tick count wraps.
  lemma {:induction false} RunStaysStopped(d: Daemon, events: seq<Event>, x: TimerId, times: seq<nat>, env: Arrivals)
    requires StaysStopped(d, x, times) && LeavesStopped(env, x) && NoStart(events, x)
    ensures StaysStopped(Run(d, events, env), x, times)
    decreases |events|
  {
    if events != [] {
      StepKeepsStopped(d, x, times, events[0], env);
      RunStaysStopped(Step(d, events[0], env), events[1..], x, times, env);
    }
  }

  // So from the moment a stop or delete is handled with nothing behind it that starts x.
  lemma StoppedForGood(d: Daemon, x: TimerId, now: nat, events: seq<Event>, env: Arrivals)
    requires LeavesStopped(env, x) && d.queue != [] && d.queue[0].timer == x && IsStop(d.queue[0].kind)
    requires Quiet(CommandsFor(d.queue[1..], x)) && NoStart(events, x)
    ensures var r := Run(d, [Receive(now)] + events, env);
            && Values(r.current, x) == [] && Values(r.overflow, x) == []
            && FiringTimes(r.fired, x) == FiringTimes(d.fired, x)
  {
    StopHolds(d, x, now, env);
    assert ([Receive(now)] + events)[1..] == events;
    RunStaysStopped(ReceiveCommand(d, now, env), events, x, FiringTimes(d.fired, x), env);
  }

  // ----- a callback that stops its own timer

  // When a due timer is processed the daemon's restart, if there is one, comes before what the callback posts: a stop
  // from the callback is handled last.
  lemma CallbackHasLastWord(d: Daemon, x: TimerId, now: nat, env: Arrivals) returns (restart: seq<Command>)
    requires d.current != [] && d.current[0].owner == x && d.timers(x).autoReload
    ensures |restart| <= 1 && forall i :: 0 <= i < |restart| ==> restart[i].kind == StartDontTrace
    ensures CommandsFor(ProcessExpired(d, now, env).queue, x)
         == CommandsFor(d.queue, x) + restart + CommandsFor(env(|d.fired|), x)
  {
    var value, d1 := d.current[0].value, d.(current := d.current[1..]);
    var c := RawCommand(StartDontTrace, x, value);
    var (d2, expired) := InsertTimer(d1, x, AddTicks(value, d.timers(x).period), Wrap(now), value);
    var d3 := if expired then Post(d2, c) else d2;
    restart := if expired then [c] else [];
    ViewPost(d2, c, x);
    ViewAnyCallback(d3, x, x, now, env);
    assert ProcessExpired(d, now, env) == RunCallback(d3, x, now, env);
    assert CommandsFor(d.queue, x) + [] == CommandsFor(d.queue, x);
  }

  // When the lists are switched, the restart of a timer that is due again after the wrap comes behind: a stop from its
  // callback is handled first, and does not hold.
  lemma RestartHasLastWord(d: Daemon, x: TimerId, now: nat, env: Arrivals)
    requires d.current != [] && d.current[0].owner == x && d.timers(x).autoReload
    requires d.current[0].value + d.timers(x).period >= WRAP
    ensures CommandsFor(DrainHead(d, now, env).queue, x)
         == CommandsFor(d.queue, x) + CommandsFor(env(|d.fired|), x)
            + [RawCommand(StartDontTrace, x, d.current[0].value)]
  {
    var d0, c := d.(current := d.current[1..]), RawCommand(StartDontTrace, x, d.current[0].value);
    ViewAnyCallback(d0, x, x, now, env);
    ViewPost(RunCallback(d0, x, now, env), c, x);
    assert DrainHead(d, now, env) == Post(RunCallback(d0, x, now, env), c);
  }

  // ----- a stop that does not hold

  // All timers reload every two ticks, and callbacks post nothing.
  function TwoTicks(): TimerId -> Timer {
    (i: TimerId) => Timer(2, true)
  }

  function Silent(): Arrivals {
    (k: nat) => []
  }

  // Timer 0 is started three ticks before the wrap.
  lemma StartedBeforeWrap()
    ensures Run(Daemon(TwoTicks(), [], [], [], 0, []),
                [Arrive(RawCommand(Start, 0, WRAP - 3)), Receive(WRAP - 3)], Silent())
         == Daemon(TwoTicks(), [Entry(WRAP - 1, 0)], [], [], WRAP - 3, [])
  {
    var d0, start := Daemon(TwoTicks(), [], [], [], 0, []), RawCommand(Start, 0, WRAP - 3);
    var events := [Arrive(start), Receive(WRAP - 3)];
    assert events[1..] == [Receive(WRAP - 3)] && [Receive(WRAP - 3)][1..] == [];
    var d1 := Step(d0, events[0], Silent());
    assert d1 == d0.(queue := [start]);
    var d2 := Step(d1, Receive(WRAP - 3), Silent());
    assert Insert([], Entry(WRAP - 1, 0)) == [Entry(WRAP - 1, 0)];
    assert d2 == Daemon(TwoTicks(), [Entry(WRAP - 1, 0)], [], [], WRAP - 3, []);
    assert Run(d2, [], Silent()) == d2;
  }

  // It is stopped, but the daemon first sees that the tick count has wrapped: it runs the due timer and posts a restart
  // behind the stop.
  lemma StopThenWrap()
    ensures Run(Daemon(TwoTicks(), [Entry(WRAP - 1, 0)], [], [], WRAP - 3, []),
                [Arrive(RawCommand(Stop, 0, 0)), TimerOrBlock(WRAP + 1)], Silent())
         == Daemon(TwoTicks(), [], [], [RawCommand(Stop, 0, 0), RawCommand(StartDontTrace, 0, WRAP - 1)], WRAP + 1,
                   [Firing(0, WRAP + 1)])
  {
    var d0, stop := Daemon(TwoTicks(), [Entry(WRAP - 1, 0)], [], [], WRAP - 3, []), RawCommand(Stop, 0, 0);
    var events := [Arrive(stop), TimerOrBlock(WRAP + 1)];
    assert events[1..] == [TimerOrBlock(WRAP + 1)] && [TimerOrBlock(WRAP + 1)][1..] == [];
    var d1 := Step(d0, events[0], Silent());
    assert d1 == d0.(queue := [stop]) && MustSwitch(d1, WRAP + 1);
    var r := DrainHead(d1, WRAP + 1, Silent());
    assert r == d1.(current := [], fired := [Firing(0, WRAP + 1)],
                    queue := [stop] + [] + [RawCommand(StartDontTrace, 0, WRAP - 1)]);
    assert SwitchLists(d1, WRAP + 1, Silent()) == SwitchLists(r, WRAP + 1, Silent()) == r;
    var d2 := Step(d1, TimerOrBlock(WRAP + 1), Silent());
    assert Run(d2, [], Silent()) == d2;
  }

  // The stop is handled, and then the restart: the timer runs again and goes on.
  lemma RestartHandled()
    ensures var d := Daemon(TwoTicks(), [], [], [RawCommand(Stop, 0, 0), RawCommand(StartDontTrace, 0, WRAP - 1)],
                            WRAP + 1, [Firing(0, WRAP + 1)]);
            Run(d, [Receive(WRAP + 1), Receive(WRAP + 1)], Silent())
            == d.(queue := [RawCommand(StartDontTrace, 0, 1)], fired := [Firing(0, WRAP + 1), Firing(0, WRAP + 1)])
  {
    var restart := RawCommand(StartDontTrace, 0, WRAP - 1);
    var d := Daemon(TwoTicks(), [], [], [RawCommand(Stop, 0, 0), restart], WRAP + 1, [Firing(0, WRAP + 1)]);
    var e := Receive(WRAP + 1);
    assert [e, e][1..] == [e] && [e][1..] == [];
    var d1 := Step(d, e, Silent());
    assert d1 == d.(queue := [restart]);
    var d2 := Step(d1, e, Silent());
    assert d2 == d.(queue := [] + [] + [RawCommand(StartDontTrace, 0, 1)],
                    fired := [Firing(0, WRAP + 1)] + [Firing(0, WRAP + 1)]);
    assert Run(d2, [], Silent()) == d2;
  }

  lemma {:induction false} RunSplits(d: Daemon, first: seq<Event>, second: seq<Event>, env: Arrivals)
    ensures Run(d, first + second, env) == Run(Run(d, first, env), second, env)
    decreases |first|
  {
    if first == [] {
      assert [] + second == second;
    } else {
      assert (first + second)[1..] == first[1..] + second;
      RunSplits(Step(d, first[0], env), first[1..], second, env);
    }
  }

  // A run in which a stop does not hold: it is sent before the timer has run and handled when it has run once;
  // with nothing else sent the timer runs again and is waiting to be restarted.
  lemma StopOvertaken() returns (before: seq<Event>, stopped: Event, after: seq<Event>)
    ensures stopped == Arrive(RawCommand(Stop, 0, 0))
    ensures forall i :: 0 <= i < |after| ==> !after[i].Arrive?
    ensures var d := Daemon(TwoTicks(), [], [], [], 0, []);
            var r := Run(d, before + [stopped] + after, Silent());
            && Run(d, before, Silent()).fired == []
            && r.fired == [Firing(0, WRAP + 1), Firing(0, WRAP + 1)] && r.queue == [RawCommand(StartDontTrace, 0, 1)]
  {
    var d := Daemon(TwoTicks(), [], [], [], 0, []);
    before := [Arrive(RawCommand(Start, 0, WRAP - 3)), Receive(WRAP - 3)];
    stopped := Arrive(RawCommand(Stop, 0, 0));
    var wrap, handled := TimerOrBlock(WRAP + 1), [Receive(WRAP + 1), Receive(WRAP + 1)];
    after := [wrap] + handled;
    StartedBeforeWrap();
    StopThenWrap();
    RestartHandled();
    RunSplits(d, before, [stopped, wrap], Silent());
    RunSplits(d, before + [stopped, wrap], handled, Silent());
    assert before + [stopped] + after == before + [stopped, wrap] + handled;
  }
}
