/** The co-routine scheduler as it runs: counters, lists that change places, and the choice of whom to run. */
module CoRoutines {
  import opened Ticks
  import opened ListSpec
  import opened CoRoutineSpec

  class CoRoutines {
    const priority: Id -> nat        // uxPriority of each co-routine
    var tickCount: Tick              // xCoRoutineTickCount
    var lastTickCount: Tick          // xLastTickCount
    var delayed: seq<Entry>          // *pxDelayedCoRoutineList
    var overflow: seq<Entry>         // *pxOverflowDelayedCoRoutineList
    var waiting: set<Id>             // the co-routines in event lists
    var pending: seq<Id>             // xPendingReadyCoRoutineList
    var ready: set<Id>               // the members of pxReadyCoRoutineLists
    var topReadyPriority: nat        // uxTopCoRoutineReadyPriority
    ghost var time: nat
    ghost var due: Id -> nat
    ghost var woken: seq<Wake>

    // No ready list above the top priority has members.
    ghost predicate Valid()
      reads this
    {
      && tickCount == Wrap(time)
      && forall id :: id in ready ==> priority(id) <= topReadyPriority
    }

    ghost function State(): Scheduler
      reads this
    {
      Scheduler(time, delayed, overflow, waiting, pending, ready, due, woken)
    }

    constructor (priority: Id -> nat)
      ensures Valid() && State() == Created({}) && lastTickCount == 0 && this.priority == priority
    {
      this.priority := priority;
      tickCount, lastTickCount, topReadyPriority := 0, 0, 0;
      delayed, overflow, waiting, pending, ready := [], [], {}, [], {};
      time, due, woken := 0, (id: Id) => 0, [];
    }

    // prvAddCoRoutineToReadyQueue
    method AddToReadyQueue(id: Id)
      requires Valid()
      modifies this`ready, this`topReadyPriority
      ensures Valid() && ready == old(ready) + {id}
    {
      if priority(id) > topReadyPriority {
        topReadyPriority := priority(id);
      }
      ready := ready + {id};
    }

    // vCoRoutineAddToDelayedList, called by the running co-routine.
    method AddToDelayedList(current: Id, ticksToDelay: Tick, onEvent: bool)
      requires Valid()
      modifies this`ready, this`delayed, this`overflow, this`waiting, this`due
      ensures Valid() && State() == Delay(old(State()), current, ticksToDelay, onEvent)
    {
      var timeToWake := AddTicks(tickCount, ticksToDelay);
      ready := ready - {current};
      if timeToWake < tickCount {
        overflow := Insert(overflow, Entry(timeToWake, current));
      } else {
        delayed := Insert(delayed, Entry(timeToWake, current));
      }
      if onEvent {
        waiting := waiting + {current};
      }
      due := (i: Id) => if i == current then old(time) + ticksToDelay else old(due)(i);
    }

    // prvCheckPendingReadyList
    method CheckPendingReadyList()
      requires Valid()
      modifies this`pending, this`delayed, this`overflow, this`ready, this`topReadyPriority
      ensures Valid() && State() == ReadyPending(old(State()))
    {
      while pending != []
        invariant Valid() && ReadyPending(State()) == ReadyPending(old(State()))
        decreases |pending|
      {
        var id := pending[0];
        pending := pending[1..];
        delayed, overflow := Remove(delayed, id), Remove(overflow, id);
        AddToReadyQueue(id);
      }
    }

    // The inner loop of prvCheckDelayedList.
    method WakeExpired()
      requires Valid()
      modifies this`delayed, this`waiting, this`pending, this`ready, this`topReadyPriority, this`woken
      ensures Valid() && State() == Expire(old(State()))
    {
      while delayed != []
        invariant Valid() && Expire(State()) == Expire(old(State()))
        decreases |delayed|
      {
        var id := delayed[0].owner;
        if tickCount < delayed[0].value {
          break;
        }
        delayed := delayed[1..];
        waiting, pending := waiting - {id}, Without(pending, id);
        AddToReadyQueue(id);
        woken := woken + [Wake(id, due(id), time)];
      }
    }

    // One turn of the outer loop.
    method PassTick()
      requires Valid()
      modifies this`tickCount, this`delayed, this`overflow, this`waiting, this`pending, this`ready,
               this`topReadyPriority, this`time, this`woken
      ensures Valid() && State() == OneTick(old(State())) && time == old(time) + 1
    {
      tickCount := AddTicks(tickCount, 1);
      time := time + 1;
      WrapAdd(old(time), 1);
      if tickCount == 0 {
        delayed, overflow := overflow, delayed;
      }
      assert State() == Advance(old(State()));
      WakeExpired();
    }

    // The outer loop.
    method PassTicks(passed: Tick)
      requires Valid()
      modifies this`tickCount, this`delayed, this`overflow, this`waiting, this`pending, this`ready,
               this`topReadyPriority, this`time, this`woken
      ensures Valid() && State() == CatchUp(old(State()), passed) && time == old(time) + passed
    {
      var passedTicks := passed;
      while passedTicks > 0
        invariant Valid() && time + passedTicks == old(time) + passed
        invariant CatchUp(State(), passedTicks) == CatchUp(old(State()), passed)
        decreases passedTicks
      {
        PassTick();
        passedTicks := passedTicks - 1;
      }
    }

    // prvCheckDelayedList, when xTaskGetTickCount() reads `now`.
    method CheckDelayedList(now: Tick)
      requires Valid() && lastTickCount == tickCount
      modifies this`tickCount, this`lastTickCount, this`delayed, this`overflow, this`waiting, this`pending,
               this`ready, this`topReadyPriority, this`time, this`woken
      ensures Valid() && State() == CatchUp(old(State()), SubTicks(now, old(lastTickCount)))
      ensures lastTickCount == tickCount == now
    {
      CountedTo(time, now);
      PassTicks(SubTicks(now, lastTickCount));
      lastTickCount := tickCount;
    }

    static lemma CountedTo(time: nat, now: Tick)
      ensures Wrap(time + SubTicks(now, Wrap(time))) == now
    {
      AddDifference(Wrap(time), now);
      WrapAdd(time, SubTicks(now, Wrap(time)));
    }

    // The search of vCoRoutineSchedule, and its choice within a priority, which the list walk makes.
    method SelectNext() returns (found: bool, next: Id)
      requires Valid()
      modifies this`topReadyPriority
      ensures Valid() && found == (ready != {})
      ensures found ==> next in ready && priority(next) == topReadyPriority
      ensures found ==> forall id :: id in ready ==> priority(id) <= priority(next)
    {
      found, next := false, 0;
      while forall id | id in ready :: priority(id) != topReadyPriority
        invariant Valid()
        decreases topReadyPriority
      {
        if topReadyPriority == 0 {
          return;
        }
        topReadyPriority := topReadyPriority - 1;
      }
      next :| next in ready && priority(next) == topReadyPriority;
      found := true;
    }

    // vCoRoutineSchedule up to the call of the co-routine.
    method Schedule(now: Tick) returns (found: bool, next: Id)
      requires Valid() && lastTickCount == tickCount
      modifies this
      ensures Valid() && lastTickCount == tickCount == now
      ensures State() == CatchUp(ReadyPending(old(State())), SubTicks(now, old(tickCount)))
      ensures found == (ready != {})
      ensures found ==> next in ready && forall id :: id in ready ==> priority(id) <= priority(next)
    {
      CheckPendingReadyList();
      CheckDelayedList(now);
      found, next := SelectNext();
    }
  }
}
