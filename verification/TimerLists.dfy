/** One insertion of the timer daemon against unbounded time, and the shape its two lists keep in every run. */
module TimerLists {
  import opened Ticks
  import opened ListSpec
  import opened TimerSpec

  // ----- one insertion against unbounded time

  // prvInsertTimerInActiveList, for a command issued at `command` and handled at `now`.
  lemma PlaceAgrees(command: nat, now: nat, period: Period)
    requires command <= now < command + WRAP
    ensures var p := Place(Wrap(command + period), Wrap(now), Wrap(command), period);
            && (p == ProcessNow <==> command + period <= now)
            && (p == InCurrent <==> now < command + period && Epoch(command + period) == Epoch(now))
            && (p == InOverflow <==> now < command + period && Epoch(command + period) == Epoch(now) + 1)
  {
    WrapSub(now, command);
  }

  // What is right in unbounded time.
  predicate PlacedRight(p: Placement, due: nat, now: nat) {
    if due <= now then p == ProcessNow
    else if Epoch(due) == Epoch(now) then p == InCurrent
    else p == InOverflow
  }

  // However late a command is handled: it is judged by its lateness modulo 2^32, so an overdue timer is seen to be
  // overdue exactly when that remainder is at least its period.
  lemma PlaceExactly(command: nat, now: nat, period: Period)
    requires command <= now
    ensures var p := Place(Wrap(command + period), Wrap(now), Wrap(command), period);
            && (p == ProcessNow <==> (now - command) % WRAP >= period)
            && (PlacedRight(p, command + period, now) <==>
                  now < command + WRAP || (now - command) % WRAP >= period)
  {
    var wraps := (now - command) / WRAP;
    var recent := now - (now - command) % WRAP;
    assert recent == command + wraps * WRAP;
    SameTick(command, wraps);
    SameTick(command + period, wraps);
    PlaceAgrees(recent, now, period);
  }

  lemma SameTick(time: nat, wraps: nat)
    ensures Wrap(time + wraps * WRAP) == Wrap(time)
  {
  }

  // A command handled just over a wrap late with a period of five: the overdue timer is listed as if in the future.
  lemma PlaceTooLate()
    ensures Place(Wrap(5), Wrap(WRAP + 1), Wrap(0), 5) == InCurrent && !PlacedRight(InCurrent, 0 + 5, WRAP + 1)
  {
  }

  // ----- the shape of the two lists in every reachable state

  ghost predicate ListsValid(d: Daemon) {
    && Sorted(d.current)
    && Sorted(d.overflow)
    && forall t: TimerId :: Listed(d, t) <= 1
  }

  // In how many places a timer is listed.
  function Listed(d: Daemon, timer: TimerId): nat {
    |Values(d.current, timer)| + |Values(d.overflow, timer)|
  }

  lemma SameLists(d: Daemon, r: Daemon)
    requires d.current == r.current && d.overflow == r.overflow
    ensures forall t :: Listed(d, t) == Listed(r, t)
    ensures ListsValid(d) <==> ListsValid(r)
  {
    assert forall t :: Listed(d, t) == Listed(r, t);
    if ListsValid(d) {
      forall t: TimerId ensures Listed(r, t) <= 1 { assert Listed(d, t) <= 1; }
    }
    if ListsValid(r) {
      forall t: TimerId ensures Listed(d, t) <= 1 { assert Listed(r, t) <= 1; }
    }
  }

  lemma HeadValues(s: seq<Entry>, owner: nat)
    requires s != []
    ensures Values(s, owner) == (if s[0].owner == owner then [s[0].value] else []) + Values(s[1..], owner)
  {
  }

  lemma InsertTimerValid(d: Daemon, timer: TimerId, next: Tick, now: Tick, command: Tick)
    requires ListsValid(d) && Listed(d, timer) == 0
    ensures ListsValid(InsertTimer(d, timer, next, now, command).0)
    ensures forall t :: t != timer ==> Listed(InsertTimer(d, timer, next, now, command).0, t) == Listed(d, t)
  {
    var e := Entry(next, timer);
    InsertSorted(d.current, e);
    InsertSorted(d.overflow, e);
    forall t: TimerId
      ensures |Values(Insert(d.current, e), t)| <= |Values(d.current, t)| + (if t == timer then 1 else 0)
    {
      InsertValues(d.current, e, t);
    }
    forall t: TimerId
      ensures |Values(Insert(d.overflow, e), t)| <= |Values(d.overflow, t)| + (if t == timer then 1 else 0)
    {
      InsertValues(d.overflow, e, t);
    }
    forall t: TimerId ensures t != timer ==> Listed(InsertTimer(d, timer, next, now, command).0, t) == Listed(d, t)
    {
      InsertValues(d.current, e, t);
      InsertValues(d.overflow, e, t);
    }
  }

  // Popping the head leaves its timer in no list.
  lemma PopValid(d: Daemon)
    requires ListsValid(d) && d.current != []
    ensures var d1 := d.(current := d.current[1..]);
            ListsValid(d1) && Listed(d1, d.current[0].owner) == 0
            && forall t :: t != d.current[0].owner ==> Listed(d1, t) == Listed(d, t)
  {
    var d1 := d.(current := d.current[1..]);
    forall t: TimerId
      ensures Listed(d, t) == Listed(d1, t) + (if t == d.current[0].owner then 1 else 0) && Listed(d1, t) <= 1
    {
      assert Listed(d, t) <= 1;
      HeadValues(d.current, t);
    }
  }

  lemma DrainHeadValid(d: Daemon, now: nat, env: Arrivals)
    requires ListsValid(d) && d.current != []
    ensures ListsValid(DrainHead(d, now, env))
    ensures forall t :: Listed(d, t) == 0 ==> Listed(DrainHead(d, now, env), t) == 0
  {
    PopValid(d);
    var head := d.current[0];
    var timer := d.timers(head.owner);
    var reload := AddTicks(head.value, timer.period);
    var d1 := RunCallback(d.(current := d.current[1..]), head.owner, now, env);
    SameLists(d.(current := d.current[1..]), d1);
    SameLists(d1, Post(d1, RawCommand(StartDontTrace, head.owner, head.value)));
    assert Listed(d, head.owner) > 0 by { HeadValues(d.current, head.owner); }
    if timer.autoReload && reload > head.value {
      var e := Entry(reload, head.owner);
      InsertSorted(d1.current, e);
      var d2 := d1.(current := Insert(d1.current, e));
      forall t: TimerId
        ensures Listed(d2, t) == Listed(d1, t) + (if t == head.owner then 1 else 0) && Listed(d2, t) <= 1
      {
        InsertValues(d1.current, e, t);
        assert Listed(d1, t) <= 1;
      }
    }
  }

  lemma {:induction false} SwitchListsValid(d: Daemon, now: nat, env: Arrivals)
    requires ListsValid(d)
    ensures ListsValid(SwitchLists(d, now, env))
    ensures forall t :: Listed(d, t) == 0 ==> Listed(SwitchLists(d, now, env), t) == 0
    decreases Headroom(d.current)
  {
    if d.current == [] {
      assert Sorted([]);
      assert forall t :: Listed(SwitchLists(d, now, env), t) == Listed(d, t);
    } else {
      DrainHeadValid(d, now, env);
      SwitchListsValid(DrainHead(d, now, env), now, env);
    }
  }

  lemma SampleValid(d: Daemon, now: nat, env: Arrivals)
    requires ListsValid(d)
    ensures ListsValid(Sample(d, now, env))
    ensures forall t :: Listed(d, t) == 0 ==> Listed(Sample(d, now, env), t) == 0
  {
    SwitchListsValid(d, now, env);
    var d1 := if MustSwitch(d, now) then SwitchLists(d, now, env) else d;
    SameLists(d1, Sample(d, now, env));
  }

  lemma ProcessTimerOrBlockValid(d: Daemon, now: nat, env: Arrivals)
    requires ListsValid(d)
    ensures ListsValid(ProcessTimerOrBlock(d, now, env))
  {
    SampleValid(d, now, env);
    var d1 := Sample(d, now, env);
    if !MustSwitch(d, now) && !Blocks(d, now) {
      PopValid(d1);
      var head := d1.current[0];
      var timer := d1.timers(head.owner);
      var d2 := d1.(current := d1.current[1..]);
      InsertTimerValid(d2, head.owner, AddTicks(head.value, timer.period), Wrap(now), head.value);
      var d3 := if timer.autoReload
                then InsertTimer(d2, head.owner, AddTicks(head.value, timer.period), Wrap(now), head.value).0
                else d2;
      var r := ProcessTimerOrBlock(d, now, env);
      SameLists(d3, r);
    }
  }

  lemma TakeOutValid(d: Daemon, timer: TimerId)
    requires ListsValid(d)
    ensures ListsValid(TakeOut(d, timer)) && Listed(TakeOut(d, timer), timer) == 0
  {
    RemoveSorted(d.current, timer);
    RemoveSorted(d.overflow, timer);
    forall t: TimerId
      ensures Values(TakeOut(d, timer).current, t) == (if t == timer then [] else Values(d.current, t))
      ensures Values(TakeOut(d, timer).overflow, t) == (if t == timer then [] else Values(d.overflow, t))
    {
      RemoveValues(d.current, timer, t);
      RemoveValues(d.overflow, timer, t);
    }
    forall t: TimerId ensures Listed(TakeOut(d, timer), t) <= 1
    {
      assert Listed(d, t) <= 1;
    }
  }

  lemma ReceiveCommandValid(d: Daemon, now: nat, env: Arrivals)
    requires ListsValid(d) && d.queue != []
    ensures ListsValid(ReceiveCommand(d, now, env))
  {
    var c := d.queue[0];
    var d1 := d.(queue := d.queue[1..]);
    SameLists(d, d1);
    if c.kind != PendedFunctionCall {
      TakeOutValid(d1, c.timer);
      SampleValid(TakeOut(d1, c.timer), now, env);
      var d2 := Sample(TakeOut(d1, c.timer), now, env);
      var r := Execute(d2, c, now, env);
      if IsStart(c.kind) {
        var next := AddTicks(c.value, d2.timers(c.timer).period);
        InsertTimerValid(d2, c.timer, next, Wrap(now), c.value);
        var d3 := InsertTimer(d2, c.timer, next, Wrap(now), c.value).0;
        SameLists(d3, r);
      } else if c.kind in {ChangePeriod, ChangePeriodFromISR} {
        var d3 := d2.(timers := WithPeriod(d2.timers, c.timer, c.value));
        SameLists(d2, d3);
        InsertTimerValid(d3, c.timer, AddTicks(Wrap(now), c.value), Wrap(now), Wrap(now));
      }
    }
  }
}
