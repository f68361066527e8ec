/**
 Whole runs of the timer daemon against unbounded time: an auto-reload timer that is left alone runs its
 callback once for every nominal expiry, in order and never early, across any number of tick wraps.
 */
module TimerSchedule {
  import opened Ticks
  import opened ListSpec
  import opened TimerSpec
  import opened TimerLists

  // The k-th nominal time of a timer started at `start`: start + k * period.
  function Nominal(start: nat, period: Period, k: nat): nat {
    if k == 0 then start else Nominal(start, period, k - 1) + period
  }

  // A timer started (restarted, reset) at `start`, when its callback had run `before` times.
  datatype Plan = Plan(start: nat, period: Period, before: nat)

  // The last nominal time met when the callback has run `runs` times in all.
  function BaseAfter(plan: Plan, runs: nat): nat {
    if runs < plan.before then plan.start else Nominal(plan.start, plan.period, runs - plan.before)
  }

  // The timer commands in the queue that concern timer x.
  function CommandsFor(queue: seq<Command>, x: TimerId): seq<Command> {
    if queue == [] then []
    else if queue[0].timer == x && !queue[0].kind.PendedFunctionCall? then [queue[0]] + CommandsFor(queue[1..], x)
    else CommandsFor(queue[1..], x)
  }

  // When the callback of timer x ran.
  function FiringTimes(fired: seq<Firing>, x: TimerId): seq<nat> {
    if fired == [] then []
    else if fired[|fired| - 1].timer == x then FiringTimes(fired[..|fired| - 1], x) + [fired[|fired| - 1].at]
    else FiringTimes(fired[..|fired| - 1], x)
  }

  // No command for x is posted while callbacks run.
  ghost predicate LeavesAlone(env: Arrivals, x: TimerId) {
    forall k :: CommandsFor(env(k), x) == []
  }

  // All that the daemon's state says about timer x.
  datatype View = View(
    timer: Timer, current: seq<Tick>, overflow: seq<Tick>, commands: seq<Command>, times: seq<nat>)

  function ViewOf(d: Daemon, x: TimerId): View {
    View(d.timers(x), Values(d.current, x), Values(d.overflow, x), CommandsFor(d.queue, x), FiringTimes(d.fired, x))
  }

  // Timer x is due at `base + period`, and that is recorded in exactly one place.
  predicate Recorded(v: View, last: nat, period: Period, base: nat) {
    || (&& v.current == [Wrap(base + period)] && v.overflow == [] && v.commands == []
        && Epoch(base + period) == Epoch(last))
    || (&& v.current == [] && v.overflow == [Wrap(base + period)] && v.commands == []
        && Epoch(base + period) == Epoch(last) + 1)
    || (&& v.current == [] && v.overflow == [] && |v.commands| == 1
        && IsStart(v.commands[0].kind) && v.commands[0].value == Wrap(base))
  }

  predicate RecordedNowhere(v: View) {
    v.current == [] && v.overflow == [] && v.commands == []
  }

  predicate Tracks(v: View, last: nat, period: Period, base: nat) {
    v.timer == Timer(period, true) && Recorded(v, last, period, base)
  }

  // Since it was started the timer has run its callback for its first nominal times, never early, up to time `now`,
  // and it is waiting for the next one.
  ghost predicate ViewOnSchedule(v: View, last: nat, plan: Plan, now: nat) {
    && plan.before <= |v.times|
    && Tracks(v, last, plan.period, BaseAfter(plan, |v.times|))
    && BaseAfter(plan, |v.times|) <= now
    && forall j :: plan.before <= j < |v.times| ==> OnTime(v.times, plan, j, now)
  }

  // Run number j was not early, and has been.
  predicate OnTime(times: seq<nat>, plan: Plan, j: nat, now: nat)
    requires j < |times|
  {
    BaseAfter(plan, j + 1) <= times[j] <= now
  }

  lemma LaterOnSchedule(v: View, last: nat, plan: Plan, time: nat, now: nat)
    requires ViewOnSchedule(v, last, plan, time) && time <= now
    ensures ViewOnSchedule(v, last, plan, now)
  {
    forall j | plan.before <= j < |v.times| ensures OnTime(v.times, plan, j, now) {
      assert OnTime(v.times, plan, j, time);
    }
  }

  ghost predicate OnSchedule(d: Daemon, x: TimerId, plan: Plan, now: nat) {
    ViewOnSchedule(ViewOf(d, x), d.last, plan, now)
  }

  // One more nominal time is met at `now`, and the next one is recorded.
  lemma NextOnSchedule(v: View, w: View, last: nat, last': nat, plan: Plan, time: nat, now: nat)
    requires ViewOnSchedule(v, last, plan, time)
    requires w.times == v.times + [now] && BaseAfter(plan, |v.times|) + plan.period <= now && time <= now
    requires Tracks(w, last', plan.period, BaseAfter(plan, |v.times|) + plan.period)
    ensures ViewOnSchedule(w, last', plan, now)
  {
    BaseNext(plan, |v.times|);
    forall j | plan.before <= j < |w.times| ensures OnTime(w.times, plan, j, now) {
      if j < |v.times| { assert OnTime(v.times, plan, j, time); }
    }
  }

  lemma BaseNext(plan: Plan, runs: nat)
    requires plan.before <= runs
    ensures BaseAfter(plan, runs + 1) == BaseAfter(plan, runs) + plan.period
  {
  }

  // Or the same one is, in another place.
  lemma StillOnSchedule(v: View, w: View, last: nat, last': nat, plan: Plan, time: nat, now: nat)
    requires ViewOnSchedule(v, last, plan, time)
    requires w.times == v.times && time <= now
    requires Tracks(w, last', plan.period, BaseAfter(plan, |v.times|))
    ensures ViewOnSchedule(w, last', plan, now)
  {
    LaterOnSchedule(v, last, plan, time, now);
    forall j | plan.before <= j < |w.times| ensures OnTime(w.times, plan, j, now) {
      assert OnTime(v.times, plan, j, now);
    }
  }

  // ----- how the parts of a step change what is recorded about x

  lemma {:induction false} CommandsForAppend(a: seq<Command>, b: seq<Command>, x: TimerId)
    ensures CommandsFor(a + b, x) == CommandsFor(a, x) + CommandsFor(b, x)
  {
    if a == [] {
      assert a + b == b;
    } else {
      assert (a + b)[1..] == a[1..] + b;
      CommandsForAppend(a[1..], b, x);
    }
  }

  lemma ViewCallback(d: Daemon, x: TimerId, timer: TimerId, now: nat, env: Arrivals)
    requires LeavesAlone(env, x)
    ensures var v := ViewOf(d, x);
            ViewOf(RunCallback(d, timer, now, env), x) == if timer == x then v.(times := v.times + [now]) else v
  {
    CommandsForAppend(d.queue, env(|d.fired|), x);
    var fired := d.fired + [Firing(timer, now)];
    assert fired[..|fired| - 1] == d.fired;
  }

  lemma ViewPost(d: Daemon, c: Command, x: TimerId)
    ensures var v := ViewOf(d, x);
            var forX := c.timer == x && !c.kind.PendedFunctionCall?;
            ViewOf(Post(d, c), x) == if forX then v.(commands := v.commands + [c]) else v
  {
    CommandsForAppend(d.queue, [c], x);
    assert CommandsFor([c][1..], x) == [];
  }

  lemma ViewPop(d: Daemon, x: TimerId)
    requires d.current != []
    ensures var v, w := ViewOf(d, x), ViewOf(d.(current := d.current[1..]), x);
            w == if d.current[0].owner == x then v.(current := v.current[1..]) else v
    ensures d.current[0].owner == x ==> ViewOf(d, x).current != [] && ViewOf(d, x).current[0] == d.current[0].value
  {
    HeadValues(d.current, x);
  }

  lemma ViewTakeCommand(d: Daemon, x: TimerId)
    requires d.queue != []
    ensures var v, w, c := ViewOf(d, x), ViewOf(d.(queue := d.queue[1..]), x), d.queue[0];
            if c.timer == x && !c.kind.PendedFunctionCall?
            then v.commands != [] && v.commands[0] == c && w == v.(commands := v.commands[1..])
            else w == v
  {
    assert [d.queue[0]] + CommandsFor(d.queue[1..], x) != [];
  }

  lemma ViewTakeOut(d: Daemon, timer: TimerId, x: TimerId)
    ensures var v := ViewOf(d, x);
            ViewOf(TakeOut(d, timer), x) == if timer == x then v.(current := [], overflow := []) else v
  {
    RemoveValues(d.current, timer, x);
    RemoveValues(d.overflow, timer, x);
  }

  lemma ViewInsert(d: Daemon, e: Entry, x: TimerId)
    ensures var v, w := ViewOf(d, x), ViewOf(d.(current := Insert(d.current, e)), x);
            if e.owner != x then w == v else v.current == [] ==> w == v.(current := [e.value])
    ensures var v, w := ViewOf(d, x), ViewOf(d.(overflow := Insert(d.overflow, e)), x);
            if e.owner != x then w == v else v.overflow == [] ==> w == v.(overflow := [e.value])
  {
    InsertValues(d.current, e, x);
    InsertValues(d.overflow, e, x);
  }

  lemma ViewInsertOther(d: Daemon, timer: TimerId, next: Tick, now: Tick, command: Tick, x: TimerId)
    requires timer != x
    ensures ViewOf(InsertTimer(d, timer, next, now, command).0, x) == ViewOf(d, x)
  {
    ViewInsert(d, Entry(next, timer), x);
  }

  // A timer that is nowhere recorded and is restarted with the nominal time `base` becomes due one period later.
  lemma ViewInsertX(d: Daemon, x: TimerId, period: Period, base: nat, now: nat)
    requires ViewOf(d, x).timer.period == period && RecordedNowhere(ViewOf(d, x))
    requires base <= now < base + WRAP
    ensures var (r, expired) := InsertTimer(d, x, AddTicks(Wrap(base), period), Wrap(now), Wrap(base));
            && expired == (base + period <= now)
            && (expired ==> r == d)
            && (!expired ==> Recorded(ViewOf(r, x), now, period, base) && ViewOf(r, x).times == ViewOf(d, x).times)
            && ViewOf(r, x).timer == ViewOf(d, x).timer && r.last == d.last
  {
    WrapAdd(base, period);
    PlaceAgrees(base, now, period);
    ViewInsert(d, Entry(Wrap(base + period), x), x);
  }

  // ----- switching the lists

  // One pass of the drain loop: another timer is run.
  lemma DrainOther(d: Daemon, x: TimerId, now: nat, env: Arrivals)
    requires LeavesAlone(env, x) && d.current != [] && d.current[0].owner != x
    ensures ViewOf(DrainHead(d, now, env), x) == ViewOf(d, x)
  {
    var head := d.current[0];
    var d0 := d.(current := d.current[1..]);
    ViewPop(d, x);
    ViewCallback(d0, x, head.owner, now, env);
    var d1 := RunCallback(d0, head.owner, now, env);
    ViewInsert(d1, Entry(AddTicks(head.value, d.timers(head.owner).period), head.owner), x);
    ViewPost(d1, RawCommand(StartDontTrace, head.owner, head.value), x);
  }

  // The due timer x was run once while it is drained, and is due again before the wrap or waits in the queue.
  predicate RunOnce(v: View, w: View, x: TimerId, now: nat)
    requires |v.current| == 1
  {
    var value, ran := v.current[0], v.(times := v.times + [now]);
    if value + v.timer.period < WRAP then w == ran.(current := [value + v.timer.period])
    else w == ran.(current := [], commands := v.commands + [RawCommand(StartDontTrace, x, value)])
  }

  // One pass of the drain loop: x itself is run.
  lemma DrainXValue(d: Daemon, x: TimerId, now: nat, env: Arrivals)
    requires LeavesAlone(env, x) && d.timers(x).autoReload && d.current != [] && d.current[0].owner == x
    requires |ViewOf(d, x).current| == 1
    ensures d.current[0].value == ViewOf(d, x).current[0]
    ensures RunOnce(ViewOf(d, x), ViewOf(DrainHead(d, now, env), x), x, now)
  {
    DrainXRuns(d, x, now, env);
    if d.current[0].value + d.timers(x).period < WRAP {
      DrainXReloads(d, x, now, env);
    } else {
      DrainXPosts(d, x, now, env);
    }
  }

  lemma DrainXReloads(d: Daemon, x: TimerId, now: nat, env: Arrivals)
    requires LeavesAlone(env, x) && d.timers(x).autoReload && d.current != [] && d.current[0].owner == x
    requires |ViewOf(d, x).current| == 1 && d.current[0].value + d.timers(x).period < WRAP
    ensures RunOnce(ViewOf(d, x), ViewOf(DrainHead(d, now, env), x), x, now)
  {
    var d1 := RunCallback(d.(current := d.current[1..]), x, now, env);
    var e := Entry(AddTicks(d.current[0].value, d.timers(x).period), x);
    DrainXRuns(d, x, now, env);
    assert DrainHead(d, now, env) == d1.(current := Insert(d1.current, e));
    ViewInsert(d1, e, x);
  }

  lemma DrainXPosts(d: Daemon, x: TimerId, now: nat, env: Arrivals)
    requires LeavesAlone(env, x) && d.timers(x).autoReload && d.current != [] && d.current[0].owner == x
    requires |ViewOf(d, x).current| == 1 && d.current[0].value + d.timers(x).period >= WRAP
    ensures RunOnce(ViewOf(d, x), ViewOf(DrainHead(d, now, env), x), x, now)
  {
    var d1 := RunCallback(d.(current := d.current[1..]), x, now, env);
    var c := RawCommand(StartDontTrace, x, d.current[0].value);
    DrainXRuns(d, x, now, env);
    assert DrainHead(d, now, env) == Post(d1, c);
    ViewPost(d1, c, x);
  }

  lemma DrainXRuns(d: Daemon, x: TimerId, now: nat, env: Arrivals)
    requires LeavesAlone(env, x) && d.current != [] && d.current[0].owner == x && |ViewOf(d, x).current| == 1
    ensures var v, r := ViewOf(d, x), RunCallback(d.(current := d.current[1..]), x, now, env);
            ViewOf(r, x) == v.(current := [], times := v.times + [now]) && v.current[0] == d.current[0].value
  {
    ViewPop(d, x);
    ViewCallback(d.(current := d.current[1..]), x, x, now, env);
  }

  // Between d and r the timer has run for the nominal time base + period, and is recorded for the next one.
  predicate Ran(d: Daemon, r: Daemon, x: TimerId, period: Period, base: nat, now: nat) {
    && base + period <= now && ViewOf(r, x).times == ViewOf(d, x).times + [now]
    && Tracks(ViewOf(r, x), r.last, period, base + period)
  }

  // The same in unbounded time, when the tick counter wrapped between d.last and now.
  lemma DrainX(d: Daemon, x: TimerId, period: Period, base: nat, now: nat, env: Arrivals)
    requires LeavesAlone(env, x) && d.current != [] && d.current[0].owner == x
    requires Tracks(ViewOf(d, x), d.last, period, base) && Epoch(now) == Epoch(d.last) + 1
    ensures Ran(d, DrainHead(d, now, env), x, period, base, now)
  {
    ViewPop(d, x);
    DrainXValue(d, x, now, env);
    DrainKeepsLast(d, now, env);
    RunOnceTracks(ViewOf(d, x), ViewOf(DrainHead(d, now, env), x), x, d.last, period, base, now);
    EpochOrder(base + period, now);
  }

  lemma RunOnceTracks(v: View, w: View, x: TimerId, last: nat, period: Period, base: nat, now: nat)
    requires Tracks(v, last, period, base) && v.current != [] && RunOnce(v, w, x, now)
    ensures Tracks(w, last, period, base + period) && w.times == v.times + [now]
    ensures Epoch(base + period) == Epoch(last)
  {
    DrainedDue(Wrap(base + period), base + period, period);
  }

  lemma DrainedDue(value: Tick, time: nat, period: Period)
    requires value == Wrap(time)
    ensures if value + period < WRAP
            then Wrap(time + period) == value + period && Epoch(time + period) == Epoch(time)
            else Epoch(time + period) == Epoch(time) + 1
  {
  }

  // One pass keeps the schedule of x.
  lemma DrainKeepsSchedule(d: Daemon, x: TimerId, plan: Plan, now: nat, env: Arrivals)
    requires OnSchedule(d, x, plan, now) && LeavesAlone(env, x) && d.current != []
    requires Epoch(now) == Epoch(d.last) + 1
    ensures OnSchedule(DrainHead(d, now, env), x, plan, now) && DrainHead(d, now, env).last == d.last
  {
    DrainKeepsLast(d, now, env);
    if d.current[0].owner == x {
      DrainXKeepsSchedule(d, x, plan, now, env);
    } else {
      DrainOther(d, x, now, env);
    }
  }

  lemma DrainKeepsLast(d: Daemon, now: nat, env: Arrivals)
    requires d.current != []
    ensures DrainHead(d, now, env).last == d.last
  {
  }

  lemma DrainXKeepsSchedule(d: Daemon, x: TimerId, plan: Plan, now: nat, env: Arrivals)
    requires OnSchedule(d, x, plan, now) && LeavesAlone(env, x)
    requires d.current != [] && d.current[0].owner == x && Epoch(now) == Epoch(d.last) + 1
    ensures OnSchedule(DrainHead(d, now, env), x, plan, now)
  {
    OnScheduleTracks(d, x, plan, now);
    DrainX(d, x, plan.period, BaseAfter(plan, |ViewOf(d, x).times|), now, env);
    RanOnSchedule(d, DrainHead(d, now, env), x, plan, now);
  }

  lemma OnScheduleTracks(d: Daemon, x: TimerId, plan: Plan, now: nat)
    requires OnSchedule(d, x, plan, now)
    ensures Tracks(ViewOf(d, x), d.last, plan.period, BaseAfter(plan, |ViewOf(d, x).times|))
  {
  }

  lemma EpochOrder(a: nat, b: nat)
    requires Epoch(a) < Epoch(b)
    ensures a < b
  {
  }

  lemma RanOnSchedule(d: Daemon, r: Daemon, x: TimerId, plan: Plan, now: nat)
    requires OnSchedule(d, x, plan, now)
    requires Ran(d, r, x, plan.period, BaseAfter(plan, |ViewOf(d, x).times|), now)
    ensures OnSchedule(r, x, plan, now)
  {
    NextOnSchedule(ViewOf(d, x), ViewOf(r, x), d.last, r.last, plan, now, now);
  }

  // Then the overflow list, and with it x, becomes current.
  lemma SwapKeepsSchedule(d: Daemon, x: TimerId, plan: Plan, now: nat, env: Arrivals)
    requires OnSchedule(d, x, plan, now) && d.current == [] && Epoch(now) == Epoch(d.last) + 1
    ensures OnSchedule(SwitchLists(d, now, env).(last := now), x, plan, now)
  {
    var r := SwitchLists(d, now, env).(last := now);
    assert ViewOf(r, x) == ViewOf(d, x).(current := ViewOf(d, x).overflow, overflow := []);
  }

  lemma {:induction false} SwitchListsKeepsSchedule(
    d: Daemon, x: TimerId, plan: Plan, now: nat, env: Arrivals)
    requires OnSchedule(d, x, plan, now) && LeavesAlone(env, x)
    requires Epoch(now) == Epoch(d.last) + 1
    ensures OnSchedule(SwitchLists(d, now, env).(last := now), x, plan, now)
    decreases Headroom(d.current)
  {
    if d.current == [] {
      SwapKeepsSchedule(d, x, plan, now, env);
    } else {
      DrainKeepsSchedule(d, x, plan, now, env);
      SwitchListsKeepsSchedule(DrainHead(d, now, env), x, plan, now, env);
    }
  }

  // The daemon reads the tick count at least once per wrap while any timer is listed.
  predicate SampledInTime(d: Daemon, now: nat) {
    now < d.last + WRAP || (d.current == [] && d.overflow == [])
  }

  lemma SampleKeepsSchedule(d: Daemon, x: TimerId, plan: Plan, time: nat, now: nat, env: Arrivals)
    requires OnSchedule(d, x, plan, time) && LeavesAlone(env, x)
    requires time <= now && d.last <= now && SampledInTime(d, now)
    ensures OnSchedule(Sample(d, now, env), x, plan, now)
  {
    LaterOnSchedule(ViewOf(d, x), d.last, plan, time, now);
    if now < d.last + WRAP {
      WrapDetected(d.last, now);
      if MustSwitch(d, now) {
        SwitchListsKeepsSchedule(d, x, plan, now, env);
      } else {
        assert ViewOf(d.(last := now), x) == ViewOf(d, x);
      }
    } else {
      assert ViewOf(Sample(d, now, env), x) == ViewOf(d, x);
    }
  }

  // ----- the steps of the daemon

  lemma ProcessExpiredOther(d: Daemon, x: TimerId, now: nat, env: Arrivals)
    requires LeavesAlone(env, x) && d.current != [] && d.current[0].owner != x
    ensures ViewOf(ProcessExpired(d, now, env), x) == ViewOf(d, x)
    ensures ProcessExpired(d, now, env).last == d.last
  {
    var head := d.current[0];
    var timer := d.timers(head.owner);
    var next := AddTicks(head.value, timer.period);
    var d1 := d.(current := d.current[1..]);
    ViewPop(d, x);
    ViewInsertOther(d1, head.owner, next, Wrap(now), head.value, x);
    var (d2, expired) := InsertTimer(d1, head.owner, next, Wrap(now), head.value);
    ViewPost(d2, RawCommand(StartDontTrace, head.owner, head.value), x);
    var d3 := if !timer.autoReload then d1
              else if expired then Post(d2, RawCommand(StartDontTrace, head.owner, head.value)) else d2;
    ViewCallback(d3, x, head.owner, now, env);
  }

  lemma ProcessExpiredX(d: Daemon, x: TimerId, period: Period, base: nat, now: nat, env: Arrivals)
    requires LeavesAlone(env, x) && d.current != [] && d.current[0].owner == x && d.last == now
    requires Tracks(ViewOf(d, x), d.last, period, base) && d.current[0].value <= Wrap(now)
    ensures Ran(d, ProcessExpired(d, now, env), x, period, base, now)
  {
    var d3 := ExpiredReloaded(d, x, period, base, now);
    assert ProcessExpired(d, now, env) == RunCallback(d3, x, now, env);
    ViewCallback(d3, x, x, now, env);
  }

  // Before its callback: x is taken off the list and inserted again, or a start command is posted for it.
  lemma ExpiredReloaded(d: Daemon, x: TimerId, period: Period, base: nat, now: nat) returns (r: Daemon)
    requires d.current != [] && d.current[0].owner == x && d.last == now
    requires Tracks(ViewOf(d, x), d.last, period, base) && d.current[0].value <= Wrap(now)
    ensures var d1, value := d.(current := d.current[1..]), d.current[0].value;
            var (d2, expired) := InsertTimer(d1, x, AddTicks(value, period), Wrap(now), value);
            r == if expired then Post(d2, RawCommand(StartDontTrace, x, value)) else d2
    ensures base + period <= now && r.last == now && ViewOf(r, x).times == ViewOf(d, x).times
    ensures Tracks(ViewOf(r, x), now, period, base + period)
  {
    var d1, value := d.(current := d.current[1..]), d.current[0].value;
    ViewPop(d, x);
    assert ViewOf(d1, x) == ViewOf(d, x).(current := []);
    assert value == Wrap(base + period) && Epoch(base + period) == Epoch(now);
    r := Reloaded(d1, x, period, base + period, now);
  }

  // A timer recorded nowhere is inserted again from the nominal time `base`, or a start command is posted for it.
  lemma Reloaded(d: Daemon, x: TimerId, period: Period, base: nat, now: nat) returns (r: Daemon)
    requires var v := ViewOf(d, x);
             v.timer == Timer(period, true) && v.current == [] && v.overflow == [] && v.commands == []
    requires base <= now < base + WRAP && d.last == now
    ensures var (d2, expired) := InsertTimer(d, x, AddTicks(Wrap(base), period), Wrap(now), Wrap(base));
            r == if expired then Post(d2, RawCommand(StartDontTrace, x, Wrap(base))) else d2
    ensures r.last == now && ViewOf(r, x).times == ViewOf(d, x).times && Tracks(ViewOf(r, x), now, period, base)
  {
    ViewInsertX(d, x, period, base, now);
    var (d2, expired) := InsertTimer(d, x, AddTicks(Wrap(base), period), Wrap(now), Wrap(base));
    var c := RawCommand(StartDontTrace, x, Wrap(base));
    r := if expired then Post(d2, c) else d2;
    if expired {
      ViewPost(d2, c, x);
      TracksCommand(ViewOf(r, x), now, period, base, c);
    }
  }

  lemma TracksCommand(v: View, last: nat, period: Period, base: nat, c: Command)
    requires v.timer == Timer(period, true) && v.current == [] && v.overflow == [] && v.commands == [c]
    requires IsStart(c.kind) && c.value == Wrap(base)
    ensures Tracks(v, last, period, base)
  {
  }

  lemma ProcessExpiredKeepsSchedule(d: Daemon, x: TimerId, plan: Plan, now: nat, env: Arrivals)
    requires OnSchedule(d, x, plan, now) && LeavesAlone(env, x)
    requires d.last == now && d.current != [] && d.current[0].value <= Wrap(now)
    ensures OnSchedule(ProcessExpired(d, now, env), x, plan, now)
  {
    if d.current[0].owner == x {
      OnScheduleTracks(d, x, plan, now);
      ProcessExpiredX(d, x, plan.period, BaseAfter(plan, |ViewOf(d, x).times|), now, env);
      RanOnSchedule(d, ProcessExpired(d, now, env), x, plan, now);
    } else {
      ProcessExpiredOther(d, x, now, env);
    }
  }

  lemma ProcessTimerOrBlockKeepsSchedule(
    d: Daemon, x: TimerId, plan: Plan, time: nat, now: nat, env: Arrivals)
    requires OnSchedule(d, x, plan, time) && LeavesAlone(env, x)
    requires time <= now && d.last <= now && SampledInTime(d, now)
    ensures OnSchedule(ProcessTimerOrBlock(d, now, env), x, plan, now)
  {
    SampleKeepsSchedule(d, x, plan, time, now, env);
    if !MustSwitch(d, now) && !Blocks(d, now) {
      ProcessExpiredKeepsSchedule(Sample(d, now, env), x, plan, now, env);
    }
  }

  // A command for x is handled less than one wrap after the nominal time it carries.
  ghost predicate HandledInTime(d: Daemon, x: TimerId, plan: Plan, now: nat)
    requires d.queue != []
  {
    CommandsFor([d.queue[0]], x) != [] ==> now < BaseAfter(plan, |FiringTimes(d.fired, x)|) + WRAP
  }

  // A timer run late and restarted does not concern x.
  lemma RunOther(d: Daemon, timer: TimerId, next: Tick, x: TimerId, now: nat, env: Arrivals)
    requires LeavesAlone(env, x) && timer != x
    ensures var r := RunCallback(d, timer, now, env);
            && ViewOf(r, x) == ViewOf(d, x) && r.last == d.last
            && ViewOf(Post(r, RawCommand(StartDontTrace, timer, next)), x) == ViewOf(d, x)
  {
    ViewCallback(d, x, timer, now, env);
    ViewPost(RunCallback(d, timer, now, env), RawCommand(StartDontTrace, timer, next), x);
  }

  lemma InsertKeepsLast(d: Daemon, timer: TimerId, next: Tick, now: Tick, command: Tick)
    ensures InsertTimer(d, timer, next, now, command).0.last == d.last
  {
  }

  lemma ExecuteOtherStart(d: Daemon, c: Command, x: TimerId, now: nat, env: Arrivals)
    requires LeavesAlone(env, x) && c.timer != x && IsStart(c.kind)
    ensures ViewOf(Execute(d, c, now, env), x) == ViewOf(d, x)
    ensures Execute(d, c, now, env).last == d.last
  {
    var next := AddTicks(c.value, d.timers(c.timer).period);
    var d1 := InsertTimer(d, c.timer, next, Wrap(now), c.value).0;
    ViewInsertOther(d, c.timer, next, Wrap(now), c.value, x);
    InsertKeepsLast(d, c.timer, next, Wrap(now), c.value);
    RunOther(d1, c.timer, next, x, now, env);
    var d2 := RunCallback(d1, c.timer, now, env);
    assert Execute(d, c, now, env) in {d1, d2, Post(d2, RawCommand(StartDontTrace, c.timer, next))};
  }

  lemma ExecuteOtherPeriod(d: Daemon, c: Command, x: TimerId, now: nat, env: Arrivals)
    requires c.timer != x && c.kind in {ChangePeriod, ChangePeriodFromISR}
    ensures ViewOf(Execute(d, c, now, env), x) == ViewOf(d, x)
    ensures Execute(d, c, now, env).last == d.last
  {
    var d1 := d.(timers := WithPeriod(d.timers, c.timer, c.value));
    ViewInsertOther(d1, c.timer, AddTicks(Wrap(now), c.value), Wrap(now), Wrap(now), x);
    assert ViewOf(d1, x) == ViewOf(d, x);
  }

  // The handled command concerns another timer.
  lemma ReceiveOtherKeepsSchedule(
    d: Daemon, x: TimerId, plan: Plan, time: nat, now: nat, env: Arrivals)
    requires OnSchedule(d, x, plan, time) && LeavesAlone(env, x)
    requires time <= now && d.last <= now && SampledInTime(d, now)
    requires d.queue != [] && d.queue[0].timer != x && !d.queue[0].kind.PendedFunctionCall?
    ensures OnSchedule(ReceiveCommand(d, now, env), x, plan, now)
  {
    var c := d.queue[0];
    ViewTakeCommand(d, x);
    ViewTakeOut(d.(queue := d.queue[1..]), c.timer, x);
    var d1 := TakeOut(d.(queue := d.queue[1..]), c.timer);
    SampleKeepsSchedule(d1, x, plan, time, now, env);
    var d2 := Sample(d1, now, env);
    if IsStart(c.kind) {
      ExecuteOtherStart(d2, c, x, now, env);
    } else if c.kind in {ChangePeriod, ChangePeriodFromISR} {
      ExecuteOtherPeriod(d2, c, x, now, env);
    }
  }

  lemma ExecuteStart(d: Daemon, c: Command, x: TimerId, period: Period, base: nat, now: nat, env: Arrivals)
    requires LeavesAlone(env, x) && c.timer == x && IsStart(c.kind) && c.value == Wrap(base)
    requires base <= now < base + WRAP && d.last == now
    requires var v := ViewOf(d, x);
             v.timer == Timer(period, true) && v.current == [] && v.overflow == [] && v.commands == []
    ensures var v, r := ViewOf(d, x), Execute(d, c, now, env);
            && r.last == now
            && (if base + period <= now
                then ViewOf(r, x).times == v.times + [now] && Tracks(ViewOf(r, x), now, period, base + period)
                else ViewOf(r, x).times == v.times && Tracks(ViewOf(r, x), now, period, base))
  {
    ViewInsertX(d, x, period, base, now);
    var next := AddTicks(c.value, period);
    WrapAdd(base, period);
    ViewCallback(d, x, x, now, env);
    ViewPost(RunCallback(d, x, now, env), RawCommand(StartDontTrace, x, next), x);
  }

  // Once a start command of x with the nominal time `base` is handled, x is due one period after that, or it was run
  // at once and is due a period later.
  predicate RestartedFrom(v: View, w: View, period: Period, base: nat, now: nat) {
    if base + period <= now then w.times == v.times + [now] && Tracks(w, now, period, base + period)
    else w.times == v.times && Tracks(w, now, period, base)
  }

  lemma HandlesStart(d: Daemon, x: TimerId, period: Period, base: nat, now: nat, env: Arrivals)
    requires LeavesAlone(env, x) && d.timers(x) == Timer(period, true) && d.queue != []
    requires d.queue[0].timer == x && IsStart(d.queue[0].kind) && d.queue[0].value == Wrap(base)
    requires CommandsFor(d.queue[1..], x) == [] && base <= now < base + WRAP
    ensures ReceiveCommand(d, now, env).last == now
    ensures RestartedFrom(ViewOf(d, x), ViewOf(ReceiveCommand(d, now, env), x), period, base, now)
  {
    var c, v := d.queue[0], ViewOf(d, x);
    var d1 := TakeOut(d.(queue := d.queue[1..]), x);
    TakenForStart(d, x);
    SampleKeepsAbsent(d1, x, now, env);
    ExecuteStart(Sample(d1, now, env), c, x, period, base, now, env);
    assert Execute(Sample(d1, now, env), c, now, env) == ReceiveCommand(d, now, env);
  }

  // Its last command taken off the queue and itself out of its list, x is recorded nowhere.
  lemma TakenForStart(d: Daemon, x: TimerId)
    requires d.queue != [] && d.queue[0].timer == x && !d.queue[0].kind.PendedFunctionCall?
    requires CommandsFor(d.queue[1..], x) == []
    ensures ViewOf(TakeOut(d.(queue := d.queue[1..]), x), x)
         == ViewOf(d, x).(current := [], overflow := [], commands := [])
  {
    ViewTakeCommand(d, x);
    ViewTakeOut(d.(queue := d.queue[1..]), x, x);
  }

  // The handled command is the start command of x, sent by a task or by the daemon itself while catching up.
  lemma ReceiveStartKeepsSchedule(
    d: Daemon, x: TimerId, plan: Plan, time: nat, now: nat, env: Arrivals)
    requires OnSchedule(d, x, plan, time) && LeavesAlone(env, x)
    requires time <= now && d.last <= now
    requires d.queue != [] && d.queue[0].timer == x && !d.queue[0].kind.PendedFunctionCall?
    requires now < BaseAfter(plan, |FiringTimes(d.fired, x)|) + WRAP
    ensures OnSchedule(ReceiveCommand(d, now, env), x, plan, now)
  {
    var v := ViewOf(d, x);
    StartQueued(d, x, plan, time);
    HandlesStart(d, x, plan.period, BaseAfter(plan, |v.times|), now, env);
    RestartOnSchedule(v, ViewOf(ReceiveCommand(d, now, env), x), d.last, plan, time, now);
  }

  // With a command of it in the queue x waits for just that.
  lemma StartQueued(d: Daemon, x: TimerId, plan: Plan, time: nat)
    requires OnSchedule(d, x, plan, time)
    requires d.queue != [] && d.queue[0].timer == x && !d.queue[0].kind.PendedFunctionCall?
    ensures d.timers(x) == Timer(plan.period, true) && CommandsFor(d.queue[1..], x) == []
    ensures IsStart(d.queue[0].kind) && d.queue[0].value == Wrap(BaseAfter(plan, |FiringTimes(d.fired, x)|))
    ensures BaseAfter(plan, |FiringTimes(d.fired, x)|) <= time
  {
    ViewTakeCommand(d, x);
  }

  lemma RestartOnSchedule(v: View, w: View, last: nat, plan: Plan, time: nat, now: nat)
    requires ViewOnSchedule(v, last, plan, time) && time <= now
    requires RestartedFrom(v, w, plan.period, BaseAfter(plan, |v.times|), now)
    ensures ViewOnSchedule(w, now, plan, now)
  {
    if BaseAfter(plan, |v.times|) + plan.period <= now {
      NextOnSchedule(v, w, last, now, plan, time, now);
    } else {
      StillOnSchedule(v, w, last, now, plan, time, now);
    }
  }

  // A timer that is nowhere in the lists stays that way while the lists are switched.
  lemma {:induction false} SwitchKeepsAbsent(d: Daemon, x: TimerId, now: nat, env: Arrivals)
    requires LeavesAlone(env, x) && ViewOf(d, x).current == [] && ViewOf(d, x).overflow == []
    ensures SwitchLists(d, now, env).current == d.overflow && SwitchLists(d, now, env).overflow == []
    ensures ViewOf(SwitchLists(d, now, env), x) == ViewOf(d, x)
    decreases Headroom(d.current)
  {
    if d.current == [] {
      assert ViewOf(SwitchLists(d, now, env), x) == ViewOf(d, x);
    } else {
      ViewPop(d, x);
      DrainOther(d, x, now, env);
      SwitchKeepsAbsent(DrainHead(d, now, env), x, now, env);
    }
  }

  lemma SampleKeepsAbsent(d: Daemon, x: TimerId, now: nat, env: Arrivals)
    requires LeavesAlone(env, x) && ViewOf(d, x).current == [] && ViewOf(d, x).overflow == []
    ensures ViewOf(Sample(d, now, env), x) == ViewOf(d, x) && Sample(d, now, env).last == now
  {
    SwitchKeepsAbsent(d, x, now, env);
  }

  // ----- whole runs

  // A command arrives, or the daemon takes one of its two kinds of step at time `now`.
  datatype Event = Arrive(c: Command) | TimerOrBlock(now: nat) | Receive(now: nat)

  function Step(d: Daemon, e: Event, env: Arrivals): Daemon {
    match e
    case Arrive(c) => Post(d, c)
    case TimerOrBlock(now) => ProcessTimerOrBlock(d, now, env)
    case Receive(now) => if d.queue == [] then d else ReceiveCommand(d, now, env)
  }

  function TimeAfter(time: nat, e: Event): nat {
    match e
    case Arrive(_) => time
    case TimerOrBlock(now) => now
    case Receive(now) => now
  }

  // x is left alone, time does not run backwards, and the daemon is never a whole wrap late.
  ghost predicate Allowed(d: Daemon, e: Event, time: nat, x: TimerId, plan: Plan) {
    match e
    case Arrive(c) => CommandsFor([c], x) == []
    case TimerOrBlock(now) => time <= now && SampledInTime(d, now)
    case Receive(now) =>
      time <= now && SampledInTime(d, now) && (d.queue != [] ==> HandledInTime(d, x, plan, now))
  }

  ghost predicate RunAllowed(
    d: Daemon, events: seq<Event>, time: nat, x: TimerId, plan: Plan, env: Arrivals)
    decreases |events|
  {
    events != [] ==>
      && Allowed(d, events[0], time, x, plan)
      && RunAllowed(Step(d, events[0], env), events[1..], TimeAfter(time, events[0]), x, plan, env)
  }

  function Run(d: Daemon, events: seq<Event>, env: Arrivals): Daemon
    decreases |events|
  {
    if events == [] then d else Run(Step(d, events[0], env), events[1..], env)
  }

  function EndTime(time: nat, events: seq<Event>): nat
    decreases |events|
  {
    if events == [] then time else EndTime(TimeAfter(time, events[0]), events[1..])
  }

  lemma ReceiveKeepsLast(d: Daemon, now: nat, env: Arrivals)
    requires d.queue != [] && d.last <= now
    ensures ReceiveCommand(d, now, env).last <= now
  {
  }

  lemma ReceiveKeepsSchedule(d: Daemon, x: TimerId, plan: Plan, time: nat, now: nat, env: Arrivals)
    requires OnSchedule(d, x, plan, time) && d.last <= time && LeavesAlone(env, x) && d.queue != []
    requires time <= now && SampledInTime(d, now) && HandledInTime(d, x, plan, now)
    ensures OnSchedule(ReceiveCommand(d, now, env), x, plan, now) && ReceiveCommand(d, now, env).last <= now
  {
    var c := d.queue[0];
    ReceiveKeepsLast(d, now, env);
    assert CommandsFor([c], x) != [] <==> c.timer == x && !c.kind.PendedFunctionCall?;
    if c.kind.PendedFunctionCall? {
      ViewTakeCommand(d, x);
      LaterOnSchedule(ViewOf(d, x), d.last, plan, time, now);
    } else if c.timer == x {
      ReceiveStartKeepsSchedule(d, x, plan, time, now, env);
    } else {
      ReceiveOtherKeepsSchedule(d, x, plan, time, now, env);
    }
  }

  lemma StepKeepsSchedule(d: Daemon, e: Event, time: nat, x: TimerId, plan: Plan, env: Arrivals)
    requires OnSchedule(d, x, plan, time) && d.last <= time && LeavesAlone(env, x)
    requires Allowed(d, e, time, x, plan)
    ensures OnSchedule(Step(d, e, env), x, plan, TimeAfter(time, e))
    ensures Step(d, e, env).last <= TimeAfter(time, e)
  {
    match e
    case Arrive(c) =>
      ViewPost(d, c, x);
    case TimerOrBlock(now) =>
      ProcessTimerOrBlockKeepsSchedule(d, x, plan, time, now, env);
    case Receive(now) =>
      if d.queue != [] {
        ReceiveKeepsSchedule(d, x, plan, time, now, env);
      } else {
        LaterOnSchedule(ViewOf(d, x), d.last, plan, time, now);
      }
  }

  // Main result, over every run: the callbacks of x so far are exactly those for its first nominal times, in order
  // and none of them early, and the timer is recorded once, waiting for the next nominal time.
  lemma {:induction false} RunKeepsSchedule(
    d: Daemon, events: seq<Event>, time: nat, x: TimerId, plan: Plan, env: Arrivals)
    requires OnSchedule(d, x, plan, time) && d.last <= time && LeavesAlone(env, x)
    requires RunAllowed(d, events, time, x, plan, env)
    ensures OnSchedule(Run(d, events, env), x, plan, EndTime(time, events))
    decreases |events|
  {
    if events != [] {
      StepKeepsSchedule(d, events[0], time, x, plan, env);
      RunKeepsSchedule(Step(d, events[0], env), events[1..], TimeAfter(time, events[0]), x, plan, env);
    }
  }

  lemma {:induction false} NominalProduct(start: nat, period: Period, k: nat)
    ensures Nominal(start, period, k) == start + k * period
  {
    if k > 0 {
      NominalProduct(start, period, k - 1);
      assert k * period == (k - 1) * period + period;
    }
  }

  // Nothing is forgotten: when the daemon blocks at `now` with no command for x left in its queue, x has run
  // its callback for every nominal time up to `now`.
  lemma BlockedMeansCaughtUp(d: Daemon, x: TimerId, plan: Plan, now: nat)
    requires OnSchedule(d, x, plan, now) && ListsValid(d)
    requires Blocks(d, now) && d.last <= now && SampledInTime(d, now) && CommandsFor(d.queue, x) == []
    ensures now >= plan.start && |FiringTimes(d.fired, x)| - plan.before == (now - plan.start) / plan.period
  {
    var v := ViewOf(d, x);
    var k := |v.times|;
    var base := BaseAfter(plan, k);
    if v.current != [] {
      assert v.current[0] in v.current;
      ValueInList(d.current, x, v.current[0]);
      var i :| 0 <= i < |d.current| && d.current[i] == Entry(v.current[0], x);
      assert d.current[0].value <= d.current[i].value;
    } else {
      assert d.overflow != [];
    }
    assert now < d.last + WRAP;
    WrapDetected(d.last, now);
    assert now < base + plan.period;
    NominalProduct(plan.start, plan.period, k - plan.before);
    QuotientIs(now - plan.start, plan.period, k - plan.before);
  }

  lemma QuotientIs(n: int, d: int, q: int)
    requires d > 0 && q * d <= n < q * d + d
    ensures n / d == q
  {
    if n / d < q {
      assert (n / d + 1) * d <= q * d by { MulMonotone(n / d + 1, q, d); }
    } else if n / d > q {
      assert (q + 1) * d <= (n / d) * d by { MulMonotone(q + 1, n / d, d); }
    }
  }

  lemma MulMonotone(a: int, b: int, d: int)
    requires a <= b && d > 0
    ensures a * d <= b * d
  {
  }

  // ----- how long the daemon sleeps

  // It sleeps until the next expiry of its current list, or without one until the tick count wraps: not past the next
  // nominal time of a timer it has listed, and for less than a wrap.
  lemma SleepsNotPastExpiry(d: Daemon, x: TimerId, plan: Plan, now: nat)
    requires OnSchedule(d, x, plan, now) && ListsValid(d) && CommandsFor(d.queue, x) == []
    requires d.last == now && Blocks(d, now)
    ensures !SleepsIndefinitely(d)
    ensures now + SleepTicks(d, now) <= BaseAfter(plan, |FiringTimes(d.fired, x)| + 1)
  {
    var v := ViewOf(d, x);
    var due := BaseAfter(plan, |v.times|) + plan.period;
    if v.current != [] {
      assert v.current[0] in v.current;
      ValueInList(d.current, x, v.current[0]);
      var i :| 0 <= i < |d.current| && d.current[i] == Entry(v.current[0], x);
      assert d.current[0].value <= d.current[i].value;
      SleepsToTick(now, d.current[0].value, due);
    } else {
      assert d.overflow != [];
      SleepsToTick(now, if d.current == [] then 0 else d.current[0].value, due);
    }
  }

  // The wrapped difference to a tick that is not yet passed, or to the wrap, ends there.
  lemma SleepsToTick(now: nat, tick: Tick, due: nat)
    requires tick > Wrap(now) || tick == 0
    requires Epoch(due) == Epoch(now) + 1 || (Epoch(due) == Epoch(now) && Wrap(now) < tick <= Wrap(due))
    ensures now + SubTicks(tick, Wrap(now)) <= due
  {
  }

  // And it is awake again before a wrap goes by unseen, unless no timer is listed and none can be missed.
  lemma SampledWhenAwake(d: Daemon, now: nat, next: nat)
    requires d.last == now
    requires SleepsIndefinitely(d) || now <= next <= now + SleepTicks(d, now)
    ensures SampledInTime(d, next)
  {
  }

  // ----- how a timer gets on schedule

  // A start command for an idle timer, whether or not it has run before, puts it on schedule.
  lemma StartedOnSchedule(d: Daemon, c: Command, x: TimerId, start: nat, period: Period)
    requires d.timers(x) == Timer(period, true) && c.timer == x && IsStart(c.kind) && c.value == Wrap(start)
    requires Values(d.current, x) == [] && Values(d.overflow, x) == [] && CommandsFor(d.queue, x) == []
    ensures OnSchedule(Post(d, c), x, Plan(start, period, |FiringTimes(d.fired, x)|), start)
  {
    ViewPost(d, c, x);
  }

  // A start or reset command puts any auto-reload timer on a schedule of its own when it is handled, running or not,
  // provided no later command for it is queued.
  lemma RestartedOnSchedule(d: Daemon, x: TimerId, start: nat, period: Period, now: nat, env: Arrivals)
    requires LeavesAlone(env, x) && d.timers(x) == Timer(period, true) && d.queue != []
    requires d.queue[0].timer == x && IsStart(d.queue[0].kind) && d.queue[0].value == Wrap(start)
    requires CommandsFor(d.queue[1..], x) == [] && start <= now < start + WRAP
    ensures OnSchedule(ReceiveCommand(d, now, env), x, Plan(start, period, |FiringTimes(d.fired, x)|), now)
    ensures ReceiveCommand(d, now, env).last == now
  {
    HandlesStart(d, x, period, start, now, env);
    NewSchedule(ViewOf(d, x), ViewOf(ReceiveCommand(d, now, env), x), start, period, now);
  }

  lemma NewSchedule(v: View, w: View, start: nat, period: Period, now: nat)
    requires RestartedFrom(v, w, period, start, now) && start <= now
    ensures ViewOnSchedule(w, now, Plan(start, period, |v.times|), now)
  {
    var plan := Plan(start, period, |v.times|);
    assert BaseAfter(plan, |v.times|) == start && BaseAfter(plan, |v.times| + 1) == start + period;
  }

  // So does a change of its period, counted from the moment it is handled.
  lemma ChangedPeriodOnSchedule(d: Daemon, x: TimerId, now: nat, env: Arrivals)
    requires LeavesAlone(env, x) && d.timers(x).autoReload && d.queue != []
    requires d.queue[0].timer == x && d.queue[0].kind in {ChangePeriod, ChangePeriodFromISR}
    requires CommandsFor(d.queue[1..], x) == []
    ensures OnSchedule(ReceiveCommand(d, now, env), x, Plan(now, d.queue[0].value, |FiringTimes(d.fired, x)|), now)
    ensures ReceiveCommand(d, now, env).last == now
  {
    var c := d.queue[0];
    var d1 := TakeOut(d.(queue := d.queue[1..]), x);
    TakenForStart(d, x);
    SampleKeepsAbsent(d1, x, now, env);
    var d2 := Sample(d1, now, env);
    var d3 := d2.(timers := WithPeriod(d2.timers, x, c.value));
    assert ViewOf(d3, x) == ViewOf(d2, x).(timer := Timer(c.value, true));
    ViewInsertX(d3, x, c.value, now, now);
    assert ReceiveCommand(d, now, env) == InsertTimer(d3, x, AddTicks(Wrap(now), c.value), Wrap(now), Wrap(now)).0;
  }

  // Every reachable state has sorted lists that hold each timer at most once.
  lemma {:induction false} RunKeepsLists(d: Daemon, events: seq<Event>, env: Arrivals)
    requires ListsValid(d)
    ensures ListsValid(Run(d, events, env))
    decreases |events|
  {
    if events != [] {
      var e := events[0];
      match e {
        case Arrive(c) => SameLists(d, Post(d, c));
        case TimerOrBlock(now) => ProcessTimerOrBlockValid(d, now, env);
        case Receive(now) => if d.queue != [] { ReceiveCommandValid(d, now, env); }
      }
      RunKeepsLists(Step(d, e, env), events[1..], env);
    }
  }

  // The last expiry before the wrap of a timer that is due at `value`, and how many expiries that makes.
  function LastBeforeWrap(value: Tick, period: Period): Tick
    decreases WRAP - value
  {
    if value + period < WRAP then LastBeforeWrap(value + period, period) else value
  }

  function RunsBeforeWrap(value: Tick, period: Period): nat
    decreases WRAP - value
  {
    if value + period < WRAP then 1 + RunsBeforeWrap(value + period, period) else 1
  }

  lemma {:induction false} RunsBeforeWrapCount(value: Tick, period: Period)
    ensures RunsBeforeWrap(value, period) == (WRAP - 1 - value) / period + 1
    ensures LastBeforeWrap(value, period) == value + (WRAP - 1 - value) / period * period
    decreases WRAP - value
  {
    if value + period < WRAP {
      RunsBeforeWrapCount(value + period, period);
      var q := (WRAP - 1 - (value + period)) / period;
      assert (q + 1) * period == q * period + period;
      QuotientIs(WRAP - 1 - value, period, q + 1);
    } else {
      QuotientIs(WRAP - 1 - value, period, 0);
    }
  }

  // What the drain makes of a timer that is due at v.current[0] and recorded nowhere else.
  function Drained(v: View, x: TimerId, now: nat): View
    requires |v.current| == 1
  {
    var value, period := v.current[0], v.timer.period;
    v.(current := [],
       times := v.times + seq(RunsBeforeWrap(value, period), _ => now),
       commands := [RawCommand(StartDontTrace, x, LastBeforeWrap(value, period))])
  }

  lemma DrainedAgain(v: View, w: View, x: TimerId, now: nat)
    requires |v.current| == 1 && v.current[0] + v.timer.period < WRAP
    requires w == v.(times := v.times + [now], current := [v.current[0] + v.timer.period])
    ensures Drained(w, x, now) == Drained(v, x, now)
  {
    var runs := RunsBeforeWrap(w.current[0], v.timer.period);
    assert seq(1 + runs, _ => now) == [now] + seq(runs, _ => now);
    assert v.times + [now] + seq(runs, _ => now) == v.times + seq(1 + runs, _ => now);
  }

  lemma DrainedOnce(v: View, x: TimerId, now: nat)
    requires |v.current| == 1 && v.current[0] + v.timer.period >= WRAP
    ensures Drained(v, x, now)
         == v.(times := v.times + [now], current := [], commands := [RawCommand(StartDontTrace, x, v.current[0])])
  {
    assert seq(1, _ => now) == [now];
  }

  // The switch itself: the drained list ends up empty as the new overflow list, the old overflow list becomes
  // current untouched, and a drained auto-reload timer was run for every expiry before the wrap and is then waiting
  // in the queue, to be restarted from the last of them.
  lemma {:induction false} SwitchedTimer(d: Daemon, x: TimerId, now: nat, env: Arrivals)
    requires LeavesAlone(env, x) && d.timers(x).autoReload && DueOnce(ViewOf(d, x))
    ensures SwitchLists(d, now, env).current == d.overflow && SwitchLists(d, now, env).overflow == []
    ensures ViewOf(SwitchLists(d, now, env), x) == Drained(ViewOf(d, x), x, now)
    decreases Headroom(d.current)
  {
    var r := DrainHead(d, now, env);
    SwitchStep(d, x, now, env);
    if DueOnce(ViewOf(r, x)) {
      SwitchedTimer(r, x, now, env);
    } else {
      SwitchKeepsAbsent(r, x, now, env);
    }
  }

  predicate DueOnce(v: View) {
    |v.current| == 1 && v.overflow == [] && v.commands == []
  }

  lemma SwitchStep(d: Daemon, x: TimerId, now: nat, env: Arrivals)
    requires LeavesAlone(env, x) && d.timers(x).autoReload && DueOnce(ViewOf(d, x))
    ensures d.current != []
    ensures var r := DrainHead(d, now, env);
            && SwitchLists(d, now, env) == SwitchLists(r, now, env)
            && r.overflow == d.overflow && r.timers == d.timers
            && DrainedBy(ViewOf(d, x), ViewOf(r, x), x, now)
  {
    assert d.current != [];
    DrainKeepsRest(d, now, env);
    if d.current[0].owner != x {
      DrainOther(d, x, now, env);
    } else {
      DrainXValue(d, x, now, env);
      DrainedByOne(ViewOf(d, x), ViewOf(DrainHead(d, now, env), x), x, now);
    }
  }

  lemma DrainKeepsRest(d: Daemon, now: nat, env: Arrivals)
    requires d.current != []
    ensures var r := DrainHead(d, now, env);
            SwitchLists(d, now, env) == SwitchLists(r, now, env) && r.overflow == d.overflow && r.timers == d.timers
  {
  }

  // A pass of the drain brings x nearer to being drained, or there.
  predicate DrainedBy(v: View, w: View, x: TimerId, now: nat)
    requires DueOnce(v)
  {
    if DueOnce(w) then Drained(w, x, now) == Drained(v, x, now)
    else w == Drained(v, x, now) && w.current == [] && w.overflow == []
  }

  lemma DrainedByOne(v: View, w: View, x: TimerId, now: nat)
    requires DueOnce(v)
    requires RunOnce(v, w, x, now)
    ensures DrainedBy(v, w, x, now)
  {
    if v.current[0] + v.timer.period < WRAP {
      DrainedAgain(v, w, x, now);
    } else {
      DrainedOnce(v, x, now);
    }
  }
}
