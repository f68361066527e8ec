/** The timer daemon itself, updating its lists and its queue in place, proved against TimerSpec. */
module TimerDaemon {
  import opened Ticks
  import opened ListSpec
  import opened TimerSpec

  class Daemon {
    var timers: TimerId -> Timer
    var currentList: seq<Entry>   // pxCurrentTimerList
    var overflowList: seq<Entry>  // pxOverflowTimerList
    var queue: seq<Command>       // xTimerQueue
    var lastTime: Tick            // xLastTime
    var calls: nat                // how many callbacks have run
    const queueLength: nat        // configTIMER_QUEUE_LENGTH
    const env: Arrivals           // what is posted while each of them runs
    ghost var last: nat           // the unwrapped time of the last sample
    ghost var fired: seq<Firing>

    ghost predicate Valid()
      reads this
    {
      lastTime == Wrap(last) && calls == |fired|
    }

    ghost function State(): TimerSpec.Daemon
      reads this
    {
      TimerSpec.Daemon(timers, currentList, overflowList, queue, last, fired)
    }

    // prvCheckForValidListAndQueue
    constructor (timers: TimerId -> Timer, queueLength: nat, env: Arrivals)
      ensures Valid() && this.queueLength == queueLength && this.env == env
      ensures State() == TimerSpec.Daemon(timers, [], [], [], 0, [])
    {
      this.timers, this.queueLength, this.env := timers, queueLength, env;
      currentList, overflowList, queue := [], [], [];
      lastTime, calls, last, fired := 0, 0, 0, [];
    }

    // xTimerGenericCommand, when the caller waits no longer: a full queue drops the command, and the caller is told.
    method SendCommand(c: Command) returns (passed: bool)
      requires Valid()
      modifies this
      ensures Valid() && passed == (|old(queue)| < queueLength)
      ensures State() == if passed then Post(old(State()), c) else old(State())
      ensures queue == if passed then old(queue) + [c] else old(queue)
    {
      passed := |queue| < queueLength;
      if passed {
        queue := queue + [c];
      }
    }

    // The daemon's commands to itself, which assert that they pass.
    method SendToSelf(c: Command)
      requires Valid()
      modifies this
      ensures Valid() && State() == Post(old(State()), c)
    {
      queue := queue + [c];
    }

    // pxCallbackFunction
    method CallBack(timer: TimerId, ghost now: nat)
      requires Valid()
      modifies this
      ensures Valid() && State() == RunCallback(old(State()), timer, now, env)
    {
      fired := fired + [Firing(timer, now)];
      queue := queue + env(calls);
      calls := calls + 1;
    }

    // prvInsertTimerInActiveList
    method InsertTimerInActiveList(timer: TimerId, nextExpiry: Tick, timeNow: Tick, commandTime: Tick)
      returns (processNow: bool)
      requires Valid()
      modifies this`currentList, this`overflowList
      ensures Valid() && (State(), processNow) == InsertTimer(old(State()), timer, nextExpiry, timeNow, commandTime)
    {
      processNow := false;
      if nextExpiry <= timeNow {
        if SubTicks(timeNow, commandTime) >= timers(timer).period {
          processNow := true;
        } else {
          overflowList := Insert(overflowList, Entry(nextExpiry, timer));
        }
      } else if timeNow < commandTime && nextExpiry >= commandTime {
        processNow := true;
      } else {
        currentList := Insert(currentList, Entry(nextExpiry, timer));
      }
    }

    // prvSwitchTimerLists: the loop ends because every pass moves the drained list closer to the wrap.
    method SwitchTimerLists(ghost now: nat)
      requires Valid()
      modifies this
      ensures State() == SwitchLists(old(State()), now, env)
      ensures Valid() && last == old(last) && lastTime == old(lastTime)
    {
      while currentList != []
        invariant Valid() && last == old(last) && lastTime == old(lastTime)
        invariant SwitchLists(State(), now, env) == SwitchLists(old(State()), now, env)
        decreases Headroom(currentList)
      {
        ghost var before := State();
        var nextExpiry, timer := currentList[0].value, currentList[0].owner;
        currentList := currentList[1..];
        CallBack(timer, now);
        if timers(timer).autoReload {
          var reload := AddTicks(nextExpiry, timers(timer).period);
          if reload > nextExpiry {
            currentList := Insert(currentList, Entry(reload, timer));
          } else {
            SendToSelf(RawCommand(StartDontTrace, timer, nextExpiry));
          }
        }
        assert State() == DrainHead(before, now, env);
      }
      currentList, overflowList := overflowList, currentList;
    }

    // prvSampleTimeNow: `tick` is what xTaskGetTickCount returns at the unwrapped time `now`.
    method SampleTimeNow(tick: Tick, ghost now: nat) returns (switched: bool)
      requires Valid() && tick == Wrap(now)
      modifies this
      ensures State() == Sample(old(State()), now, env) && switched == MustSwitch(old(State()), now)
      ensures Valid()
    {
      switched := tick < lastTime;
      if switched {
        SwitchTimerLists(now);
      }
      lastTime, last := tick, now;
    }

    // prvProcessExpiredTimer
    method ProcessExpiredTimer(nextExpiry: Tick, timeNow: Tick, ghost now: nat)
      requires Valid() && timeNow == Wrap(now)
      requires currentList != [] && currentList[0].value == nextExpiry
      modifies this
      ensures Valid() && State() == ProcessExpired(old(State()), now, env)
      ensures fired == old(fired) + [Firing(old(currentList)[0].owner, now)]
    {
      var timer := currentList[0].owner;
      currentList := currentList[1..];
      if timers(timer).autoReload {
        var next := AddTicks(nextExpiry, timers(timer).period);
        var processNow := InsertTimerInActiveList(timer, next, timeNow, nextExpiry);
        if processNow {
          SendToSelf(RawCommand(StartDontTrace, timer, nextExpiry));
        }
      }
      CallBack(timer, now);
    }

    // prvGetNextExpireTime and prvProcessTimerOrBlockTask; `blocked` tells whether the daemon went to wait for a
    // command, and the other results for how long, as given to vQueueWaitForMessageRestricted.
    method ProcessTimerOrBlockTask(tick: Tick, ghost now: nat)
      returns (blocked: bool, ticksToWait: Tick, indefinitely: bool)
      requires Valid() && tick == Wrap(now)
      modifies this
      ensures Valid() && State() == ProcessTimerOrBlock(old(State()), now, env)
      ensures blocked <==> Blocks(old(State()), now)
      ensures blocked ==> ticksToWait == SleepTicks(State(), now) && indefinitely == SleepsIndefinitely(State())
    {
      var listWasEmpty := currentList == [];
      var nextExpiry: Tick := if listWasEmpty then 0 else currentList[0].value;
      var switched := SampleTimeNow(tick, now);
      blocked, ticksToWait, indefinitely := false, 0, false;
      if !switched {
        if !listWasEmpty && nextExpiry <= tick {
          ProcessExpiredTimer(nextExpiry, tick, now);
        } else {
          blocked := true;
          indefinitely := listWasEmpty && overflowList == [];
          ticksToWait := SubTicks(nextExpiry, tick);
        }
      }
    }

    // The switch statement of prvProcessReceivedCommands.
    method ExecuteCommand(c: Command, timeNow: Tick, ghost now: nat)
      requires Valid() && timeNow == Wrap(now)
      modifies this
      ensures Valid() && State() == Execute(old(State()), c, now, env)
    {
      if IsStart(c.kind) {
        var next := AddTicks(c.value, timers(c.timer).period);
        var processNow := InsertTimerInActiveList(c.timer, next, timeNow, c.value);
        if processNow {
          CallBack(c.timer, now);
          if timers(c.timer).autoReload {
            SendToSelf(RawCommand(StartDontTrace, c.timer, next));
          }
        }
      } else if c.kind in {ChangePeriod, ChangePeriodFromISR} {
        timers := WithPeriod(timers, c.timer, c.value);
        var _ := InsertTimerInActiveList(c.timer, AddTicks(timeNow, c.value), timeNow, timeNow);
      }
    }

    // prvProcessReceivedCommands: empty the queue, reading the tick count once per timer command.
    method ProcessReceivedCommands(clock: seq<nat>)
      requires Valid()
      modifies this
      ensures Valid() && State() == ReceiveCommands(old(State()), clock, env)
    {
      var i := 0;
      while queue != [] && i < |clock|
        invariant Valid() && 0 <= i <= |clock|
        invariant ReceiveCommands(State(), clock[i..], env) == ReceiveCommands(old(State()), clock, env)
        decreases |clock| - i
      {
        ghost var before := State();
        var c, now := queue[0], clock[i];
        assert clock[i..][1..] == clock[i + 1..];
        queue := queue[1..];
        if c.kind != PendedFunctionCall {
          currentList, overflowList := Remove(currentList, c.timer), Remove(overflowList, c.timer);
          var _ := SampleTimeNow(Wrap(now), now);
          ExecuteCommand(c, Wrap(now), now);
        }
        assert State() == ReceiveCommand(before, now, env);
        i := i + 1;
      }
    }
  }
}
