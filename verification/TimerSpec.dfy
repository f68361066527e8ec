/** What each step of the timer daemon does to its two lists, its command queue and the callbacks run. */
module TimerSpec {
  import opened Ticks
  import opened ListSpec

  type TimerId = nat

  datatype Timer = Timer(period: Period, autoReload: bool)

  datatype Kind =
    | Start | StartFromISR | Reset | ResetFromISR | StartDontTrace
    | Stop | StopFromISR
    | ChangePeriod | ChangePeriodFromISR
    | Delete
    | PendedFunctionCall

  datatype RawCommand = RawCommand(kind: Kind, timer: TimerId, value: Tick)

  // A new period must not be zero (a configASSERT of the daemon).
  type Command = c: RawCommand | c.kind in {ChangePeriod, ChangePeriodFromISR} ==> c.value > 0
    witness RawCommand(Start, 0, 0)

  predicate IsStart(kind: Kind) {
    kind in {Start, StartFromISR, Reset, ResetFromISR, StartDontTrace}
  }

  // A callback that ran, and when: `at` counts ticks without wrapping.
  datatype Firing = Firing(timer: TimerId, at: nat)

  // `last` is the unwrapped time behind xLastTime; the daemon only ever reads Wrap(last).
  datatype Daemon = Daemon(
    timers: TimerId -> Timer,
    current: seq<Entry>,
    overflow: seq<Entry>,
    queue: seq<Command>,
    last: nat,
    fired: seq<Firing>)

  // The commands that other tasks, interrupts and the callback itself post while callback number k runs.
  type Arrivals = nat -> seq<Command>

  function RunCallback(d: Daemon, timer: TimerId, now: nat, env: Arrivals): Daemon {
    d.(fired := d.fired + [Firing(timer, now)], queue := d.queue + env(|d.fired|))
  }

  function Post(d: Daemon, c: Command): Daemon {
    d.(queue := d.queue + [c])
  }

  datatype Placement = ProcessNow | InCurrent | InOverflow

  // The decision of prvInsertTimerInActiveList, on wrapped ticks only.
  function Place(next: Tick, now: Tick, command: Tick, period: Period): Placement {
    if next <= now then
      if SubTicks(now, command) >= period then ProcessNow else InOverflow
    else
      if now < command && next >= command then ProcessNow else InCurrent
  }

  function InsertTimer(d: Daemon, timer: TimerId, next: Tick, now: Tick, command: Tick): (Daemon, bool) {
    match Place(next, now, command, d.timers(timer).period)
    case ProcessNow => (d, true)
    case InCurrent => (d.(current := Insert(d.current, Entry(next, timer))), false)
    case InOverflow => (d.(overflow := Insert(d.overflow, Entry(next, timer))), false)
  }

  // prvSwitchTimerLists: run everything left in the current list, then swap the lists.
  function SwitchLists(d: Daemon, now: nat, env: Arrivals): Daemon
    decreases Headroom(d.current)
  {
    if d.current == [] then
      d.(current := d.overflow, overflow := [])
    else
      SwitchLists(DrainHead(d, now, env), now, env)
  }

  // One pass of the loop in prvSwitchTimerLists.
  function DrainHead(d: Daemon, now: nat, env: Arrivals): (r: Daemon)
    requires d.current != []
    ensures Headroom(r.current) < Headroom(d.current)
  {
    var head := d.current[0];
    var d1 := RunCallback(d.(current := d.current[1..]), head.owner, now, env);
    var timer := d.timers(head.owner);
    var reload := AddTicks(head.value, timer.period);
    if !timer.autoReload then d1
    else if reload > head.value then
      InsertHeadroom(d1.current, Entry(reload, head.owner));
      d1.(current := Insert(d1.current, Entry(reload, head.owner)))
    else
      Post(d1, RawCommand(StartDontTrace, head.owner, head.value))
  }

  // prvSampleTimeNow: switch the lists when the tick count reads lower than last time.
  predicate MustSwitch(d: Daemon, now: nat) {
    Wrap(now) < Wrap(d.last)
  }

  function Sample(d: Daemon, now: nat, env: Arrivals): Daemon {
    (if MustSwitch(d, now) then SwitchLists(d, now, env) else d).(last := now)
  }

  // prvProcessExpiredTimer on the head of the current list.
  function ProcessExpired(d: Daemon, now: nat, env: Arrivals): Daemon
    requires d.current != []
  {
    var head := d.current[0];
    var d1 := d.(current := d.current[1..]);
    var timer := d.timers(head.owner);
    if timer.autoReload then
      var (d2, expired) := InsertTimer(d1, head.owner, AddTicks(head.value, timer.period), Wrap(now), head.value);
      var d3 := if expired then Post(d2, RawCommand(StartDontTrace, head.owner, head.value)) else d2;
      RunCallback(d3, head.owner, now, env)
    else
      RunCallback(d1, head.owner, now, env)
  }

  // The daemon has nothing to run at `now`: it blocks.
  predicate Blocks(d: Daemon, now: nat) {
    !MustSwitch(d, now) && (d.current == [] || d.current[0].value > Wrap(now))
  }

  // How long it then waits for a command: until the head of the current list is due, or the tick count wraps.
  function SleepTicks(d: Daemon, now: nat): Tick {
    SubTicks(if d.current == [] then 0 else d.current[0].value, Wrap(now))
  }

  predicate SleepsIndefinitely(d: Daemon) {
    d.current == [] && d.overflow == []
  }

  // prvGetNextExpireTime followed by prvProcessTimerOrBlockTask.
  function ProcessTimerOrBlock(d: Daemon, now: nat, env: Arrivals): Daemon {
    var d1 := Sample(d, now, env);
    if MustSwitch(d, now) || Blocks(d, now) then d1 else ProcessExpired(d1, now, env)
  }

  // uxListRemove when the timer is in a list: its one list item says in which.
  function TakeOut(d: Daemon, timer: TimerId): Daemon {
    d.(current := Remove(d.current, timer), overflow := Remove(d.overflow, timer))
  }

  function WithPeriod(timers: TimerId -> Timer, timer: TimerId, period: Period): TimerId -> Timer {
    (i: TimerId) => if i == timer then timers(i).(period := period) else timers(i)
  }

  // What prvProcessReceivedCommands does with a timer command once the time is sampled.
  function Execute(d: Daemon, c: Command, now: nat, env: Arrivals): Daemon {
    if IsStart(c.kind) then
      var next := AddTicks(c.value, d.timers(c.timer).period);
      var (d1, expired) := InsertTimer(d, c.timer, next, Wrap(now), c.value);
      if !expired then d1
      else
        var d2 := RunCallback(d1, c.timer, now, env);
        if d.timers(c.timer).autoReload then Post(d2, RawCommand(StartDontTrace, c.timer, next)) else d2
    else if c.kind in {ChangePeriod, ChangePeriodFromISR} then
      var d1 := d.(timers := WithPeriod(d.timers, c.timer, c.value));
      InsertTimer(d1, c.timer, AddTicks(Wrap(now), c.value), Wrap(now), Wrap(now)).0
    else d
  }

  // One pass of the loop in prvProcessReceivedCommands.
  function ReceiveCommand(d: Daemon, now: nat, env: Arrivals): Daemon
    requires d.queue != []
  {
    var c := d.queue[0];
    var d1 := d.(queue := d.queue[1..]);
    if c.kind == PendedFunctionCall then d1
    else Execute(Sample(TakeOut(d1, c.timer), now, env), c, now, env)
  }

  // The whole loop, given the tick counts its passes read; it ends when the queue is empty.
  function ReceiveCommands(d: Daemon, clock: seq<nat>, env: Arrivals): Daemon
    decreases |clock|
  {
    if d.queue == [] || clock == [] then d
    else ReceiveCommands(ReceiveCommand(d, clock[0], env), clock[1..], env)
  }
}
