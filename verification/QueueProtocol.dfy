/**
 Tasks, timeouts and interrupts on one queue, interleaved at every critical section: while a task waits for an
 item (or for space), every item (every space) has a wake-up on its way. Nobody sleeps through one.
 */
module QueueProtocol {
  import opened Arithmetic
  import opened Ticks
  import opened ListSpec
  import opened QueueModel

  type TaskId = nat

  // What a task is calling.
  datatype Call =
    | ReceiveCall                               // xQueueReceive, xQueueSemaphoreTake
    | PeekCall                                  // xQueuePeek
    | SendCall(item: Item, position: Position)  // xQueueGenericSend

  // How a task goes on once it has unlocked the queue.
  datatype Then = Retry | Sleep | GiveUp

  // Where a task stands in the loop of its call.
  datatype Phase =
    | Outside
    | AtTop(call: Call)                 // before the critical section at the top of the loop
    | BeforeLock(call: Call)            // before vTaskSuspendAll and prvLockQueue
    | Locked(call: Call)                // before the timeout check
    | FoundBlocked(call: Call)          // saw the queue empty (full), before it joins the wait list
    | UnlockingTx(call: Call, next: Then)
    | UnlockingRx(call: Call, next: Then)
    | AfterTimeout(call: Call)          // resumed after a timeout, before the last look at the queue

  datatype State = State(
    queue: Queue,
    phases: TaskId -> Phase,
    owner: TaskId,              // who has suspended the scheduler, meaningful while `suspended`
    suspended: bool,
    wokenReceivers: set<TaskId>,  // taken off xTasksWaitingToReceive, not yet back in the critical section
    wokenSenders: set<TaskId>)

  datatype Step =
    | Begin(t: TaskId, call: Call)
    | Enter(t: TaskId, blockTime: bool)        // the critical section at the top of the loop
    | SuspendAndLock(t: TaskId)
    | CheckForTimeOut(t: TaskId, expired: bool)
    | PlaceOnEventList(t: TaskId, priority: Tick)
    | UnlockTx(t: TaskId)
    | UnlockRxAndResume(t: TaskId)
    | LastLook(t: TaskId)
    | TimeOut(t: TaskId)                       // the tick interrupt takes t off its wait list
    | InterruptSend(item: Item, position: Position)
    | InterruptReceive
    | ResetQueue(t: TaskId)

  predicate Blocked(q: Queue, call: Call) {
    if call.SendCall? then |q.items| == q.length else q.items == []
  }

  function Owners(s: seq<Entry>): set<TaskId> {
    if s == [] then {} else {s[0].owner} + Owners(s[1..])
  }

  predicate Waiting(q: Queue, t: TaskId) {
    t in Owners(q.waitingToReceive) || t in Owners(q.waitingToSend)
  }

  // A task runs when it is not asleep on a wait list and no other task has suspended the scheduler.
  predicate Runs(s: State, t: TaskId) {
    (s.suspended ==> s.owner == t) && (!s.suspended ==> !Waiting(s.queue, t))
  }

  // What the asserts ask for, and no overwriting of a semaphore (QueueModel.SendFits says why).
  predicate ProperSend(q: Queue, item: Item, position: Position) {
    SendAllowed(q, item, position) && (position == Overwrite ==> q.itemSize > 0)
  }

  predicate Enabled(s: State, step: Step) {
    match step
    case Begin(t, call) =>
      && Runs(s, t) && s.phases(t) == Outside
      && (call.SendCall? ==> ProperSend(s.queue, call.item, call.position))
    case Enter(t, _) => Runs(s, t) && s.phases(t).AtTop?
    case SuspendAndLock(t) => Runs(s, t) && s.phases(t).BeforeLock?
    case CheckForTimeOut(t, _) => s.phases(t).Locked?
    case PlaceOnEventList(t, _) => s.phases(t).FoundBlocked?
    case UnlockTx(t) => s.phases(t).UnlockingTx?
    case UnlockRxAndResume(t) => s.phases(t).UnlockingRx?
    case LastLook(t) => Runs(s, t) && s.phases(t).AfterTimeout?
    case TimeOut(t) => !s.suspended && Waiting(s.queue, t)
    case InterruptSend(item, position) =>
      ProperSend(s.queue, item, position) && (MaySend(s.queue, position) ==> s.queue.txLock < MAX_LOCK)
    case InterruptReceive => s.queue.items != [] ==> s.queue.rxLock < MAX_LOCK
    case ResetQueue(t) => Runs(s, t) && s.phases(t) == Outside
  }

  function At(s: State, t: TaskId, phase: Phase): State {
    s.(phases := (u: TaskId) => if u == t then phase else s.phases(u))
  }

  // The woken tasks are those that left the wait lists between the two queue states.
  function WithQueue(s: State, q: Queue): State {
    s.(queue := q,
       wokenReceivers := s.wokenReceivers + (Owners(s.queue.waitingToReceive) - Owners(q.waitingToReceive)),
       wokenSenders := s.wokenSenders + (Owners(s.queue.waitingToSend) - Owners(q.waitingToSend)))
  }

  function Back(s: State, t: TaskId): State {
    s.(wokenReceivers := s.wokenReceivers - {t}, wokenSenders := s.wokenSenders - {t})
  }

  // Where a task goes on when it has unlocked the queue and resumed the scheduler.
  function AfterUnlock(phase: Phase): Phase
    requires phase.UnlockingRx?
  {
    if phase.next != GiveUp then AtTop(phase.call)
    else if phase.call.SendCall? then Outside
    else AfterTimeout(phase.call)
  }

  // The critical section at the top of the loop, when it goes through and when it does not.
  function Passed(s: State, t: TaskId, q: Queue): State {
    WithQueue(At(Back(s, t), t, Outside), q)
  }

  function Failed(s: State, t: TaskId, call: Call, blockTime: bool): State {
    At(Back(s, t), t, if blockTime then BeforeLock(call) else Outside)
  }

  function Entered(s: State, t: TaskId, blockTime: bool): State
    requires s.phases(t).AtTop?
  {
    var call := s.phases(t).call;
    match call
    case SendCall(item, position) =>
      if MaySend(s.queue, position) then Passed(s, t, Send(s.queue, item, position)) else Failed(s, t, call, blockTime)
    case ReceiveCall =>
      if s.queue.items != [] then Passed(s, t, Receive(s.queue)) else Failed(s, t, call, blockTime)
    case PeekCall =>
      if s.queue.items != [] then Passed(s, t, Peek(s.queue)) else Failed(s, t, call, blockTime)
  }

  function SuspendedAndLocked(s: State, t: TaskId): State
    requires s.phases(t).BeforeLock?
  {
    At(s, t, Locked(s.phases(t).call)).(queue := Lock(s.queue), suspended := true, owner := t)
  }

  function Checked(s: State, t: TaskId, expired: bool): State
    requires s.phases(t).Locked?
  {
    var call := s.phases(t).call;
    At(s, t, if expired then UnlockingTx(call, GiveUp)
             else if Blocked(s.queue, call) then FoundBlocked(call)
             else UnlockingTx(call, Retry))
  }

  function Placed(s: State, t: TaskId, priority: Tick): State
    requires s.phases(t).FoundBlocked?
  {
    var call, e := s.phases(t).call, Entry(priority, t);
    var q := if call.SendCall? then s.queue.(waitingToSend := Insert(s.queue.waitingToSend, e))
             else s.queue.(waitingToReceive := Insert(s.queue.waitingToReceive, e));
    At(s, t, UnlockingTx(call, Sleep)).(queue := q)
  }

  function TxUnlocked(s: State, t: TaskId): State
    requires s.phases(t).UnlockingTx?
  {
    WithQueue(At(s, t, UnlockingRx(s.phases(t).call, s.phases(t).next)), QueueModel.UnlockTx(s.queue))
  }

  function RxUnlocked(s: State, t: TaskId): State
    requires s.phases(t).UnlockingRx?
  {
    WithQueue(At(s, t, AfterUnlock(s.phases(t))), UnlockRx(s.queue)).(suspended := false)
  }

  function Looked(s: State, t: TaskId): State
    requires s.phases(t).AfterTimeout?
  {
    At(s, t, if s.queue.items == [] then Outside else AtTop(s.phases(t).call))
  }

  function TimedOut(s: State, t: TaskId): State {
    WithQueue(s, s.queue.(waitingToReceive := Remove(s.queue.waitingToReceive, t),
                          waitingToSend := Remove(s.queue.waitingToSend, t)))
  }

  function Next(s: State, step: Step): State
    requires Enabled(s, step)
  {
    match step
    case Begin(t, call) => At(s, t, AtTop(call))
    case Enter(t, blockTime) => Entered(s, t, blockTime)
    case SuspendAndLock(t) => SuspendedAndLocked(s, t)
    case CheckForTimeOut(t, expired) => Checked(s, t, expired)
    case PlaceOnEventList(t, priority) => Placed(s, t, priority)
    case UnlockTx(t) => TxUnlocked(s, t)
    case UnlockRxAndResume(t) => RxUnlocked(s, t)
    case LastLook(t) => Looked(s, t)
    case TimeOut(t) => TimedOut(s, t)
    case InterruptSend(item, position) =>
      if MaySend(s.queue, position) then WithQueue(s, SendFromISR(s.queue, item, position)) else s
    case InterruptReceive =>
      if s.queue.items != [] then WithQueue(s, ReceiveFromISR(s.queue)) else s
    case ResetQueue(t) => WithQueue(s, ResetInUse(s.queue))
  }

  // ----- what holds in every reachable state

  // While someone waits for an item, every item has a woken receiver or a counted wake-up.
  predicate ReceiversCovered(s: State) {
    s.queue.waitingToReceive != [] ==> |s.queue.items| <= |s.wokenReceivers| + Max(0, s.queue.txLock)
  }

  // While someone waits for space, every free place has a woken sender or a counted wake-up.
  predicate SendersCovered(s: State) {
    s.queue.waitingToSend != [] ==> s.queue.length - |s.queue.items| <= |s.wokenSenders| + Max(0, s.queue.rxLock)
  }

  ghost predicate DistinctOwners(s: seq<Entry>) {
    s != [] ==> s[0].owner !in Owners(s[1..]) && DistinctOwners(s[1..])
  }

  predicate HoldsLock(phase: Phase) {
    phase.Locked? || phase.FoundBlocked? || phase.UnlockingTx? || phase.UnlockingRx?
  }

  // A task in a wait list, or just taken off one, has still to come back to the top of its loop.
  predicate Returning(phase: Phase) {
    phase.AtTop? || ((phase.UnlockingTx? || phase.UnlockingRx?) && phase.next == Sleep)
  }

  // Only the task that suspended the scheduler is between locking and unlocking; the wait lists hold receivers and
  // senders that are on their way back, and no task is both listed and taken off the list.
  predicate TaskOk(s: State, t: TaskId) {
    var phase := s.phases(t);
    var receiver := t in Owners(s.queue.waitingToReceive) || t in s.wokenReceivers;
    var sender := t in Owners(s.queue.waitingToSend) || t in s.wokenSenders;
    && (HoldsLock(phase) ==> s.suspended && s.owner == t)
    && !(t in Owners(s.queue.waitingToReceive) && t in s.wokenReceivers)
    && !(t in Owners(s.queue.waitingToSend) && t in s.wokenSenders)
    && (receiver ==> Returning(phase) && !phase.call.SendCall?)
    && (sender ==> Returning(phase) && phase.call.SendCall?)
    && (phase != Outside && phase.call.SendCall? ==>
          ProperSend(s.queue, phase.call.item, phase.call.position))
  }

  ghost predicate TasksOk(s: State) {
    forall t: TaskId :: TaskOk(s, t)
  }

  ghost predicate ListsOk(q: Queue) {
    DistinctOwners(q.waitingToReceive) && DistinctOwners(q.waitingToSend) && |q.items| <= q.length
  }

  predicate LockOk(s: State) {
    && (s.suspended ==> HoldsLock(s.phases(s.owner)))
    && s.queue.txLock >= UNLOCKED && s.queue.rxLock >= UNLOCKED
    && (s.queue.txLock != UNLOCKED <==> s.suspended && !s.phases(s.owner).UnlockingRx?)
    && (s.queue.rxLock != UNLOCKED <==> s.suspended)
  }

  // A task that saw the queue empty (full) under the lock: what came since is counted.
  predicate SightStillGood(s: State) {
    s.suspended && s.phases(s.owner).FoundBlocked? ==>
      if s.phases(s.owner).call.SendCall? then s.queue.length - |s.queue.items| <= s.queue.rxLock
      else |s.queue.items| <= s.queue.txLock
  }

  ghost predicate Inv(s: State) {
    TasksOk(s) && ListsOk(s.queue) && LockOk(s) && SightStillGood(s) && ReceiversCovered(s)
  }

  // A step keeps the invariant, and the senders' half with it.
  ghost predicate Keeps(s: State, r: State) {
    Inv(r) && (SendersCovered(s) ==> SendersCovered(r))
  }

  // ----- wait lists and the tasks taken off them

  lemma {:induction false} OwnersDrop(s: seq<Entry>, n: nat)
    requires DistinctOwners(s) && n <= |s|
    ensures DistinctOwners(s[n..]) && Owners(s[n..]) <= Owners(s)
    ensures |Owners(s) - Owners(s[n..])| == n
  {
    if n == 0 {
      assert s[0..] == s;
      assert Owners(s) - Owners(s[0..]) == {};
    } else {
      var rest := s[1..];
      assert rest[n - 1..] == s[n..];
      OwnersDrop(rest, n - 1);
      OneMoreGone(s[0].owner, Owners(rest), Owners(s[n..]));
    }
  }

  lemma OneMoreGone(t: TaskId, listed: set<TaskId>, left: set<TaskId>)
    requires t !in listed && left <= listed
    ensures |{t} + listed - left| == |listed - left| + 1
  {
    assert {t} + listed - left == {t} + (listed - left);
  }

  lemma OwnersCons(e: Entry, s: seq<Entry>)
    ensures Owners([e] + s) == {e.owner} + Owners(s)
    ensures DistinctOwners([e] + s) <==> e.owner !in Owners(s) && DistinctOwners(s)
  {
    assert ([e] + s)[1..] == s;
  }

  lemma {:induction false} OwnersInsert(s: seq<Entry>, e: Entry)
    requires DistinctOwners(s) && e.owner !in Owners(s)
    ensures DistinctOwners(Insert(s, e)) && Owners(Insert(s, e)) == Owners(s) + {e.owner}
  {
    if s == [] || s[0].value > e.value {
      OwnersCons(e, s);
    } else {
      assert s == [s[0]] + s[1..];
      OwnersCons(s[0], s[1..]);
      OwnersInsert(s[1..], e);
      OwnersCons(s[0], Insert(s[1..], e));
    }
  }

  lemma {:induction false} OwnersRemove(s: seq<Entry>, t: TaskId)
    requires DistinctOwners(s)
    ensures DistinctOwners(Remove(s, t)) && Owners(Remove(s, t)) == Owners(s) - {t}
  {
    if s != [] {
      assert s == [s[0]] + s[1..];
      OwnersCons(s[0], s[1..]);
      OwnersRemove(s[1..], t);
      OwnersCons(s[0], Remove(s[1..], t));
    }
  }

  lemma MoreElements(a: set<TaskId>, b: set<TaskId>)
    requires a <= b
    ensures |a| <= |b|
  {
    assert b == a + (b - a);
  }

  // Taking tasks off the lists.
  lemma WakesTasks(s: State, q: Queue)
    requires TasksOk(s) && q.length == s.queue.length && q.itemSize == s.queue.itemSize
    requires Owners(q.waitingToReceive) <= Owners(s.queue.waitingToReceive)
    requires Owners(q.waitingToSend) <= Owners(s.queue.waitingToSend)
    ensures TasksOk(WithQueue(s, q))
  {
    forall t: TaskId ensures TaskOk(WithQueue(s, q), t) {
      assert TaskOk(s, t);
    }
  }

  lemma WokenCount(listed: set<TaskId>, left: set<TaskId>, woken: set<TaskId>)
    requires listed !! woken
    ensures |woken + (listed - left)| == |woken| + |listed - left|
  {
  }

  lemma ListedNotWoken(s: State)
    requires TasksOk(s)
    ensures Owners(s.queue.waitingToReceive) !! s.wokenReceivers
    ensures Owners(s.queue.waitingToSend) !! s.wokenSenders
  {
    forall t: TaskId ensures t !in Owners(s.queue.waitingToReceive) || t !in s.wokenReceivers
                     ensures t !in Owners(s.queue.waitingToSend) || t !in s.wokenSenders
    {
      assert TaskOk(s, t);
    }
  }

  lemma DroppedOwners(before: seq<Entry>, after: seq<Entry>, n: nat)
    requires DistinctOwners(before) && Dropped(before, after, n)
    ensures DistinctOwners(after) && Owners(after) <= Owners(before)
    ensures |Owners(before) - Owners(after)| == n
  {
    assert before[0..] == before;
    OwnersDrop(before, n);
  }

  predicate Dropped(before: seq<Entry>, after: seq<Entry>, n: nat) {
    if n == 0 then after == before else n <= |before| && after == before[n..]
  }

  // Waking n receivers and m senders from the heads of the lists.
  lemma Wakes(s: State, q: Queue, n: nat, m: nat)
    requires TasksOk(s) && DistinctOwners(s.queue.waitingToReceive) && DistinctOwners(s.queue.waitingToSend)
    requires q.length == s.queue.length && q.itemSize == s.queue.itemSize
    requires Dropped(s.queue.waitingToReceive, q.waitingToReceive, n)
    requires Dropped(s.queue.waitingToSend, q.waitingToSend, m)
    ensures TasksOk(WithQueue(s, q))
    ensures DistinctOwners(q.waitingToReceive) && DistinctOwners(q.waitingToSend)
    ensures |WithQueue(s, q).wokenReceivers| == |s.wokenReceivers| + n
    ensures |WithQueue(s, q).wokenSenders| == |s.wokenSenders| + m
  {
    DroppedOwners(s.queue.waitingToReceive, q.waitingToReceive, n);
    DroppedOwners(s.queue.waitingToSend, q.waitingToSend, m);
    WakesTasks(s, q);
    ListedNotWoken(s);
    WokenCount(Owners(s.queue.waitingToReceive), Owners(q.waitingToReceive), s.wokenReceivers);
    WokenCount(Owners(s.queue.waitingToSend), Owners(q.waitingToSend), s.wokenSenders);
  }

  // ----- every step keeps the invariant

  lemma AtKeeps(s: State, t: TaskId, phase: Phase)
    requires TasksOk(s) && TaskOk(At(s, t, phase), t)
    ensures TasksOk(At(s, t, phase))
  {
    forall u: TaskId ensures TaskOk(At(s, t, phase), u) {
      assert TaskOk(s, u);
    }
  }

  // Where only the phase of t changes there is little to show.
  lemma PhaseKeeps(s: State, t: TaskId, phase: Phase)
    requires Inv(s) && TaskOk(At(s, t, phase), t) && LockOk(At(s, t, phase)) && SightStillGood(At(s, t, phase))
    ensures Keeps(s, At(s, t, phase))
  {
    AtKeeps(s, t, phase);
  }

  // Nor does it matter for the lock outside it.
  lemma UnlockedPhaseKeeps(s: State, t: TaskId, phase: Phase)
    requires Inv(s) && !HoldsLock(s.phases(t)) && !HoldsLock(phase) && TaskOk(At(s, t, phase), t)
    ensures Keeps(s, At(s, t, phase))
  {
    assert s.suspended ==> s.owner != t;
    PhaseKeeps(s, t, phase);
  }

  lemma LessOne(woken: set<TaskId>, t: TaskId)
    ensures |woken - {t}| == |woken| - (if t in woken then 1 else 0)
  {
    if t in woken {
      assert woken == woken - {t} + {t};
    } else {
      assert woken - {t} == woken;
    }
  }

  // The task at the top of its loop is in no wait list and no longer counted as woken.
  lemma BackKeeps(s: State, t: TaskId)
    requires TasksOk(s) && s.phases(t).AtTop? && !Waiting(s.queue, t)
    ensures TasksOk(Back(s, t))
    ensures var sends := s.phases(t).call.SendCall?;
            && |Back(s, t).wokenReceivers| >= |s.wokenReceivers| - (if sends then 0 else 1)
            && |Back(s, t).wokenSenders| >= |s.wokenSenders| - (if sends then 1 else 0)
  {
    assert TaskOk(s, t);
    LessOne(s.wokenReceivers, t);
    LessOne(s.wokenSenders, t);
    forall u: TaskId ensures TaskOk(Back(s, t), u) {
      assert TaskOk(s, u);
    }
  }

  lemma BackAtTop(s: State, t: TaskId, phase: Phase)
    requires TasksOk(s) && LockOk(s) && Runs(s, t) && s.phases(t).AtTop? && !HoldsLock(phase)
    requires phase != Outside ==> phase.call == s.phases(t).call
    ensures !s.suspended
    ensures TasksOk(At(Back(s, t), t, phase))
    ensures var sends := s.phases(t).call.SendCall?;
            && |Back(s, t).wokenReceivers| >= |s.wokenReceivers| - (if sends then 0 else 1)
            && |Back(s, t).wokenSenders| >= |s.wokenSenders| - (if sends then 1 else 0)
  {
    BackKeeps(s, t);
    assert TaskOk(Back(s, t), t);
    AtKeeps(Back(s, t), t, phase);
  }

  // What the critical section at the top of the loop of a sender (a receiver) has to do with the queue, given that
  // it may use up one wake-up and wakes n receivers and m senders.
  predicate Balanced(before: Queue, after: Queue, sends: bool, n: nat, m: nat) {
    && |after.items| <= after.length == before.length && after.itemSize == before.itemSize
    && after.txLock == before.txLock && after.rxLock == before.rxLock
    && Dropped(before.waitingToReceive, after.waitingToReceive, n)
    && Dropped(before.waitingToSend, after.waitingToSend, m)
    && (after.waitingToReceive != [] ==>
          after.items == [] || |after.items| - |before.items| <= n - (if sends then 0 else 1))
    && (after.waitingToSend != [] ==>
          |after.items| == after.length || |before.items| - |after.items| <= m - (if sends then 1 else 0))
  }

  lemma SendBalanced(q: Queue, item: Item, position: Position)
    requires |q.items| <= q.length && MaySend(q, position) && ProperSend(q, item, position)
    ensures Balanced(q, Send(q, item, position), true, if q.waitingToReceive == [] then 0 else 1, 0)
  {
    SendFits(q, item, position);
  }

  lemma ReceiveBalanced(q: Queue)
    requires |q.items| <= q.length && q.items != []
    ensures Balanced(q, Receive(q), false, 0, if q.waitingToSend == [] then 0 else 1)
  {
  }

  // A peeker takes nothing, and hands its wake-up on.
  lemma PeekBalanced(q: Queue)
    requires |q.items| <= q.length
    ensures Balanced(q, Peek(q), false, if q.waitingToReceive == [] then 0 else 1, 0)
  {
  }

  // A queue without items (without space) needs no wake-ups.
  lemma BlockedBalanced(q: Queue, call: Call)
    requires |q.items| <= q.length && Blocked(q, call)
    ensures Balanced(q, q, call.SendCall?, 0, 0)
  {
  }

  lemma BalancedCover(s: State, r: State, sends: bool, n: nat, m: nat)
    requires Inv(s) && !s.suspended && !r.suspended && Balanced(s.queue, r.queue, sends, n, m)
    requires TasksOk(r) && ListsOk(r.queue)
    requires |r.wokenReceivers| >= |s.wokenReceivers| + n - (if sends then 0 else 1)
    requires |r.wokenSenders| >= |s.wokenSenders| + m - (if sends then 1 else 0)
    ensures Keeps(s, r)
  {
  }

  lemma EnterSucceeds(s: State, t: TaskId, q: Queue, n: nat, m: nat)
    requires Inv(s) && Runs(s, t) && s.phases(t).AtTop?
    requires Balanced(s.queue, q, s.phases(t).call.SendCall?, n, m)
    ensures Keeps(s, Passed(s, t, q))
  {
    BackAtTop(s, t, Outside);
    Wakes(At(Back(s, t), t, Outside), q, n, m);
    BalancedCover(s, Passed(s, t, q), s.phases(t).call.SendCall?, n, m);
  }

  lemma EnterFails(s: State, t: TaskId, phase: Phase)
    requires Inv(s) && Runs(s, t) && s.phases(t).AtTop? && Blocked(s.queue, s.phases(t).call)
    requires phase == Outside || phase == BeforeLock(s.phases(t).call)
    ensures Keeps(s, At(Back(s, t), t, phase))
  {
    var call, r := s.phases(t).call, At(Back(s, t), t, phase);
    BackAtTop(s, t, phase);
    BlockedBalanced(s.queue, call);
    assert r.queue == s.queue && r.wokenReceivers == Back(s, t).wokenReceivers;
    assert r.wokenSenders == Back(s, t).wokenSenders;
    BalancedCover(s, r, call.SendCall?, 0, 0);
  }

  lemma EnterKeeps(s: State, t: TaskId, blockTime: bool)
    requires Inv(s) && Runs(s, t) && s.phases(t).AtTop?
    ensures Keeps(s, Entered(s, t, blockTime))
  {
    var call, q := s.phases(t).call, s.queue;
    assert TaskOk(s, t);
    if call.SendCall? && MaySend(q, call.position) {
      SendBalanced(q, call.item, call.position);
      EnterSucceeds(s, t, Send(q, call.item, call.position), if q.waitingToReceive == [] then 0 else 1, 0);
    } else if call.ReceiveCall? && q.items != [] {
      ReceiveBalanced(q);
      EnterSucceeds(s, t, Receive(q), 0, if q.waitingToSend == [] then 0 else 1);
    } else if call.PeekCall? && q.items != [] {
      PeekBalanced(q);
      EnterSucceeds(s, t, Peek(q), if q.waitingToReceive == [] then 0 else 1, 0);
    } else {
      EnterFails(s, t, if blockTime then BeforeLock(call) else Outside);
    }
  }

  lemma BeginKeeps(s: State, t: TaskId, call: Call)
    requires Inv(s) && s.phases(t) == Outside
    requires call.SendCall? ==> ProperSend(s.queue, call.item, call.position)
    ensures Keeps(s, At(s, t, AtTop(call)))
  {
    assert TaskOk(s, t);
    UnlockedPhaseKeeps(s, t, AtTop(call));
  }

  lemma SuspendAndLockKeeps(s: State, t: TaskId)
    requires Inv(s) && Runs(s, t) && s.phases(t).BeforeLock?
    ensures Keeps(s, SuspendedAndLocked(s, t))
  {
    assert !s.suspended;
    forall u: TaskId ensures TaskOk(SuspendedAndLocked(s, t), u) {
      assert TaskOk(s, u);
    }
  }

  lemma CheckForTimeOutKeeps(s: State, t: TaskId, expired: bool)
    requires Inv(s) && s.phases(t).Locked?
    ensures Keeps(s, Checked(s, t, expired))
  {
    assert TaskOk(s, t);
    PhaseKeeps(s, t, Checked(s, t, expired).phases(t));
  }

  lemma PlaceTasks(s: State, t: TaskId, priority: Tick)
    requires TasksOk(s) && ListsOk(s.queue) && s.phases(t).FoundBlocked?
    ensures TasksOk(Placed(s, t, priority)) && ListsOk(Placed(s, t, priority).queue)
  {
    assert TaskOk(s, t);
    if s.phases(t).call.SendCall? {
      OwnersInsert(s.queue.waitingToSend, Entry(priority, t));
    } else {
      OwnersInsert(s.queue.waitingToReceive, Entry(priority, t));
    }
    forall u: TaskId ensures TaskOk(Placed(s, t, priority), u) {
      assert TaskOk(s, u);
    }
  }

  // The task still has a wake-up counted for whatever came since it looked.
  lemma PlaceKeeps(s: State, t: TaskId, priority: Tick)
    requires Inv(s) && s.phases(t).FoundBlocked?
    ensures Keeps(s, Placed(s, t, priority))
  {
    assert TaskOk(s, t);
    PlaceTasks(s, t, priority);
  }

  // Every counted item wakes a receiver until none waits.
  lemma UnlockTxKeeps(s: State, t: TaskId)
    requires Inv(s) && s.phases(t).UnlockingTx?
    ensures Keeps(s, TxUnlocked(s, t))
  {
    assert TaskOk(s, t);
    var phase := UnlockingRx(s.phases(t).call, s.phases(t).next);
    AtKeeps(s, t, phase);
    Wakes(At(s, t, phase), QueueModel.UnlockTx(s.queue), TxWakes(s.queue), 0);
    var r := TxUnlocked(s, t);
    assert SendersCovered(s) ==> SendersCovered(r);
    assert ReceiversCovered(r);
  }

  lemma AfterUnlockKeeps(s: State, t: TaskId)
    requires TasksOk(s) && s.phases(t).UnlockingRx?
    ensures TasksOk(At(s, t, AfterUnlock(s.phases(t)))) && !HoldsLock(AfterUnlock(s.phases(t)))
  {
    assert TaskOk(s, t);
    AtKeeps(s, t, AfterUnlock(s.phases(t)));
  }

  lemma UnlockRxDrops(q: Queue)
    ensures Dropped(q.waitingToReceive, UnlockRx(q).waitingToReceive, 0)
    ensures Dropped(q.waitingToSend, UnlockRx(q).waitingToSend, RxWakes(q))
  {
  }

  lemma UnlockRxWakes(s: State)
    requires TasksOk(s) && ListsOk(s.queue)
    ensures var w := WithQueue(s, UnlockRx(s.queue));
            && TasksOk(w) && DistinctOwners(w.queue.waitingToSend)
            && |w.wokenReceivers| == |s.wokenReceivers| && |w.wokenSenders| == |s.wokenSenders| + RxWakes(s.queue)
  {
    UnlockRxDrops(s.queue);
    Wakes(s, UnlockRx(s.queue), 0, RxWakes(s.queue));
  }

  lemma RxWakesCover(q: Queue, woken: nat)
    requires q.waitingToSend != [] ==> q.length - |q.items| <= woken + Max(0, q.rxLock)
    ensures UnlockRx(q).waitingToSend != [] ==> q.length - |q.items| <= woken + RxWakes(q)
  {
  }

  // Nobody else was between locking and unlocking.
  lemma ResumeKeeps(s: State, w: State)
    requires Inv(s) && TasksOk(w) && s.suspended && s.phases(s.owner).UnlockingRx? && !HoldsLock(w.phases(w.owner))
    requires w.queue == UnlockRx(s.queue) && DistinctOwners(w.queue.waitingToSend)
    requires |w.wokenReceivers| == |s.wokenReceivers| && |w.wokenSenders| == |s.wokenSenders| + RxWakes(s.queue)
    ensures Keeps(s, w.(suspended := false))
  {
    forall u: TaskId ensures TaskOk(w.(suspended := false), u) {
      assert TaskOk(w, u);
    }
    if SendersCovered(s) {
      RxWakesCover(s.queue, |s.wokenSenders|);
    }
  }

  // The same for every counted free place.
  lemma UnlockRxKeeps(s: State, t: TaskId)
    requires Inv(s) && s.phases(t).UnlockingRx?
    ensures Keeps(s, RxUnlocked(s, t))
  {
    assert TaskOk(s, t);
    AfterUnlockKeeps(s, t);
    var a := At(s, t, AfterUnlock(s.phases(t)));
    UnlockRxWakes(a);
    ResumeKeeps(s, WithQueue(a, UnlockRx(s.queue)));
  }

  lemma LastLookKeeps(s: State, t: TaskId)
    requires Inv(s) && s.phases(t).AfterTimeout?
    ensures Keeps(s, Looked(s, t))
  {
    assert TaskOk(s, t);
    var phase := if s.queue.items == [] then Outside else AtTop(s.phases(t).call);
    UnlockedPhaseKeeps(s, t, phase);
  }

  lemma TimeOutKeeps(s: State, t: TaskId)
    requires Inv(s)
    ensures Keeps(s, TimedOut(s, t))
  {
    var r := TimedOut(s, t);
    OwnersRemove(s.queue.waitingToReceive, t);
    OwnersRemove(s.queue.waitingToSend, t);
    WakesTasks(s, r.queue);
    MoreElements(s.wokenReceivers, r.wokenReceivers);
    MoreElements(s.wokenSenders, r.wokenSenders);
    assert SendersCovered(s) ==> SendersCovered(r);
    assert ReceiversCovered(r);
  }

  // What an interrupt does to a queue: each new item (each new free place) wakes a task of a list that is not
  // empty, or counts a lock up.
  predicate Counts(before: Queue, after: Queue, n: nat, m: nat) {
    && |after.items| <= after.length == before.length && after.itemSize == before.itemSize
    && before.txLock <= after.txLock && (after.txLock == UNLOCKED <==> before.txLock == UNLOCKED)
    && before.rxLock <= after.rxLock && (after.rxLock == UNLOCKED <==> before.rxLock == UNLOCKED)
    && (after.waitingToReceive != [] || before.txLock > UNLOCKED ==>
          |after.items| - |before.items| <= n + (after.txLock - before.txLock))
    && (after.waitingToSend != [] || before.rxLock > UNLOCKED ==>
          |before.items| - |after.items| <= m + (after.rxLock - before.rxLock))
    && (before.txLock > UNLOCKED ==> n == 0)
    && (before.rxLock > UNLOCKED ==> m == 0)
    && Dropped(before.waitingToReceive, after.waitingToReceive, n)
    && Dropped(before.waitingToSend, after.waitingToSend, m)
  }

  lemma SendCounts(q: Queue, item: Item, position: Position)
    requires |q.items| <= q.length && MaySend(q, position) && ProperSend(q, item, position) && q.txLock >= UNLOCKED
    ensures Counts(q, SendFromISR(q, item, position),
                   if q.txLock == UNLOCKED && q.waitingToReceive != [] then 1 else 0, 0)
  {
    SendFits(q, item, position);
  }

  lemma ReceiveCounts(q: Queue)
    requires |q.items| <= q.length && q.items != [] && q.rxLock >= UNLOCKED
    ensures Counts(q, ReceiveFromISR(q), 0, if q.rxLock == UNLOCKED && q.waitingToSend != [] then 1 else 0)
  {
  }

  lemma CountsCover(s: State, r: State, n: nat, m: nat)
    requires Inv(s) && TasksOk(r) && ListsOk(r.queue) && Counts(s.queue, r.queue, n, m)
    requires r.phases == s.phases && r.owner == s.owner && r.suspended == s.suspended
    requires |r.wokenReceivers| == |s.wokenReceivers| + n && |r.wokenSenders| == |s.wokenSenders| + m
    ensures Keeps(s, r)
  {
  }

  lemma InterruptKeeps(s: State, q: Queue, n: nat, m: nat)
    requires Inv(s) && Counts(s.queue, q, n, m)
    ensures Keeps(s, WithQueue(s, q))
  {
    Wakes(s, q, n, m);
    CountsCover(s, WithQueue(s, q), n, m);
  }

  lemma InterruptSendKeeps(s: State, item: Item, position: Position)
    requires Inv(s) && ProperSend(s.queue, item, position) && MaySend(s.queue, position)
    ensures Keeps(s, WithQueue(s, SendFromISR(s.queue, item, position)))
  {
    SendCounts(s.queue, item, position);
    var wakes := if s.queue.txLock == UNLOCKED && s.queue.waitingToReceive != [] then 1 else 0;
    InterruptKeeps(s, SendFromISR(s.queue, item, position), wakes, 0);
  }

  lemma InterruptReceiveKeeps(s: State)
    requires Inv(s) && s.queue.items != []
    ensures Keeps(s, WithQueue(s, ReceiveFromISR(s.queue)))
  {
    ReceiveCounts(s.queue);
    var wakes := if s.queue.rxLock == UNLOCKED && s.queue.waitingToSend != [] then 1 else 0;
    InterruptKeeps(s, ReceiveFromISR(s.queue), 0, wakes);
  }

  lemma ResetWakes(s: State, t: TaskId)
    requires Inv(s) && Runs(s, t) && s.phases(t) == Outside
    ensures !s.suspended
    ensures var r := WithQueue(s, ResetInUse(s.queue));
            && Inv(r) && |r.wokenSenders| == |s.wokenSenders| + (if s.queue.waitingToSend == [] then 0 else 1)
  {
    assert TaskOk(s, t);
    Wakes(s, ResetInUse(s.queue), 0, if s.queue.waitingToSend == [] then 0 else 1);
  }

  // A reset that leaves no sender waiting without need: the one it wakes was the only one, or the tasks woken are
  // enough for the whole queue.
  predicate Harmless(s: State, step: Step) {
    step.ResetQueue? ==> |s.queue.waitingToSend| <= 1 || s.queue.length <= |s.wokenSenders| + 1
  }

  // A reset frees the whole queue but wakes one sender: the others are missed exactly when more senders wait than
  // the one woken here while the queue has room for more than the woken senders.
  lemma ResetCovers(s: State, t: TaskId)
    requires Inv(s) && Enabled(s, ResetQueue(t))
    ensures SendersCovered(Next(s, ResetQueue(t)))
       <==> Harmless(s, ResetQueue(t))
  {
    ResetWakes(s, t);
  }

  lemma StepKeeps(s: State, step: Step)
    requires Inv(s) && Enabled(s, step)
    ensures Inv(Next(s, step))
    ensures SendersCovered(s) ==> (SendersCovered(Next(s, step)) <==> Harmless(s, step))
  {
    match step
    case Begin(t, call) => BeginKeeps(s, t, call);
    case Enter(t, blockTime) => EnterKeeps(s, t, blockTime);
    case SuspendAndLock(t) => SuspendAndLockKeeps(s, t);
    case CheckForTimeOut(t, expired) => CheckForTimeOutKeeps(s, t, expired);
    case PlaceOnEventList(t, priority) => PlaceKeeps(s, t, priority);
    case UnlockTx(t) => UnlockTxKeeps(s, t);
    case UnlockRxAndResume(t) => UnlockRxKeeps(s, t);
    case LastLook(t) => LastLookKeeps(s, t);
    case TimeOut(t) => TimeOutKeeps(s, t);
    case InterruptSend(item, position) =>
      if MaySend(s.queue, position) { InterruptSendKeeps(s, item, position); }
    case InterruptReceive =>
      if s.queue.items != [] { InterruptReceiveKeeps(s); }
    case ResetQueue(t) =>
      ResetWakes(s, t);
      ResetCovers(s, t);
  }

  // ----- whole runs

  // The queue is fresh and no task has called it yet.
  function Init(length: nat, itemSize: nat): State {
    State(New(length, itemSize), (t: TaskId) => Outside, 0, false, {}, {})
  }

  ghost predicate RunAllowed(s: State, run: seq<Step>)
    decreases |run|
  {
    run != [] ==> Enabled(s, run[0]) && RunAllowed(Next(s, run[0]), run[1..])
  }

  ghost function Run(s: State, run: seq<Step>): State
    requires RunAllowed(s, run)
    decreases |run|
  {
    if run == [] then s else Run(Next(s, run[0]), run[1..])
  }

  ghost predicate ResetsHarmless(s: State, run: seq<Step>)
    requires RunAllowed(s, run)
    decreases |run|
  {
    run != [] ==> Harmless(s, run[0]) && ResetsHarmless(Next(s, run[0]), run[1..])
  }

  ghost predicate SendersAlwaysCovered(s: State, run: seq<Step>)
    requires RunAllowed(s, run)
    decreases |run|
  {
    SendersCovered(s) && (run != [] ==> SendersAlwaysCovered(Next(s, run[0]), run[1..]))
  }

  lemma {:induction false} RunKeeps(s: State, run: seq<Step>)
    requires Inv(s) && RunAllowed(s, run)
    ensures Inv(Run(s, run))
    ensures SendersCovered(s) ==> (SendersAlwaysCovered(s, run) <==> ResetsHarmless(s, run))
    ensures SendersCovered(s) && ResetsHarmless(s, run) ==> SendersCovered(Run(s, run))
    decreases |run|
  {
    if run != [] {
      StepKeeps(s, run[0]);
      RunKeeps(Next(s, run[0]), run[1..]);
    }
  }

  // No receiver sleeps through an item, in any run of tasks, timeouts, interrupts and resets.
  lemma NoLostReceiveWakeUp(length: nat, itemSize: nat, run: seq<Step>)
    requires RunAllowed(Init(length, itemSize), run)
    ensures ReceiversCovered(Run(Init(length, itemSize), run))
  {
    RunKeeps(Init(length, itemSize), run);
  }

  // Nor a sender through a free place: in every run senders are covered throughout exactly when its resets, if any,
  // are harmless.
  lemma NoLostSendWakeUp(length: nat, itemSize: nat, run: seq<Step>)
    requires RunAllowed(Init(length, itemSize), run)
    ensures SendersAlwaysCovered(Init(length, itemSize), run) <==> ResetsHarmless(Init(length, itemSize), run)
    ensures ResetsHarmless(Init(length, itemSize), run) ==> SendersCovered(Run(Init(length, itemSize), run))
  {
    RunKeeps(Init(length, itemSize), run);
  }

  // Once the queue is unlocked and every woken task has been back, tasks wait only for what is not there.
  lemma QuietMeansBlocked(length: nat, itemSize: nat, run: seq<Step>)
    requires RunAllowed(Init(length, itemSize), run)
    ensures var s := Run(Init(length, itemSize), run);
            !s.suspended && s.wokenReceivers == {} && s.queue.waitingToReceive != [] ==> s.queue.items == []
    ensures var s := Run(Init(length, itemSize), run);
            !s.suspended && s.wokenSenders == {} && s.queue.waitingToSend != [] ==>
              |s.queue.items| == s.queue.length || !ResetsHarmless(Init(length, itemSize), run)
  {
    RunKeeps(Init(length, itemSize), run);
  }

  lemma {:induction false} RunExtends(s: State, run: seq<Step>, step: Step)
    requires RunAllowed(s, run) && Enabled(Run(s, run), step)
    ensures RunAllowed(s, run + [step]) && Run(s, run + [step]) == Next(Run(s, run), step)
    decreases |run|
  {
    if run == [] {
      assert [] + [step] == [step] && [step][1..] == [];
    } else {
      RunExtends(Next(s, run[0]), run[1..], step);
      assert (run + [step])[1..] == run[1..] + [step];
    }
  }

  // A full and unlocked queue of empty items.
  predicate FullAndUnlocked(s: State) {
    |s.queue.items| == s.queue.length && s.queue.itemSize == 0 && !s.suspended && s.wokenSenders == {} &&
    s.queue.txLock == UNLOCKED && s.queue.rxLock == UNLOCKED
  }

  // One more task finds it full.
  lemma SenderFindsFull(s0: State, run: seq<Step>, t: TaskId) returns (longer: seq<Step>)
    requires RunAllowed(s0, run) && FullAndUnlocked(Run(s0, run))
    requires Run(s0, run).phases(t) == Outside && !Waiting(Run(s0, run).queue, t)
    ensures RunAllowed(s0, longer)
    ensures var s, r := Run(s0, run), Run(s0, longer);
            && r.phases(t) == FoundBlocked(SendCall([], SendToBack))
            && r.queue == Lock(s.queue) && r.wokenSenders == {}
            && forall u: TaskId :: u != t ==> r.phases(u) == s.phases(u)
  {
    longer := run;
    var s := Run(s0, run);
    RunExtends(s0, longer, Begin(t, SendCall([], SendToBack)));
    longer := longer + [Begin(t, SendCall([], SendToBack))];
    RunExtends(s0, longer, Enter(t, true));
    longer := longer + [Enter(t, true)];
    RunExtends(s0, longer, SuspendAndLock(t));
    longer := longer + [SuspendAndLock(t)];
    RunExtends(s0, longer, CheckForTimeOut(t, false));
    longer := longer + [CheckForTimeOut(t, false)];
  }

  // And blocks.
  lemma SenderBlocks(s0: State, run: seq<Step>, t: TaskId) returns (longer: seq<Step>)
    requires RunAllowed(s0, run) && FullAndUnlocked(Run(s0, run))
    requires Run(s0, run).phases(t) == Outside && !Waiting(Run(s0, run).queue, t)
    ensures RunAllowed(s0, longer) && FullAndUnlocked(Run(s0, longer))
    ensures var s, r := Run(s0, run), Run(s0, longer);
            && r.queue == s.queue.(waitingToSend := Insert(s.queue.waitingToSend, Entry(0, t)))
            && forall u: TaskId :: u != t ==> r.phases(u) == s.phases(u)
  {
    longer := SenderFindsFull(s0, run, t);
    RunExtends(s0, longer, PlaceOnEventList(t, 0));
    longer := longer + [PlaceOnEventList(t, 0)];
    RunExtends(s0, longer, UnlockTx(t));
    longer := longer + [UnlockTx(t)];
    RunExtends(s0, longer, UnlockRxAndResume(t));
    longer := longer + [UnlockRxAndResume(t)];
  }

  lemma TwoInterruptsFill() returns (run: seq<Step>)
    ensures RunAllowed(Init(2, 0), run) && FullAndUnlocked(Run(Init(2, 0), run))
    ensures var s := Run(Init(2, 0), run);
            s.queue == New(2, 0).(items := [[], []]) && s.phases == Init(2, 0).phases
  {
    var step := InterruptSend([], SendToBack);
    RunExtends(Init(2, 0), [], step);
    RunExtends(Init(2, 0), [] + [step], step);
    run := [] + [step] + [step];
  }

  lemma OneSenderBlocks() returns (run: seq<Step>)
    ensures RunAllowed(Init(2, 0), run) && FullAndUnlocked(Run(Init(2, 0), run))
    ensures var s := Run(Init(2, 0), run);
            && s.queue == New(2, 0).(items := [[], []], waitingToSend := [Entry(0, 1)])
            && s.phases(0) == s.phases(2) == Outside
  {
    run := TwoInterruptsFill();
    run := SenderBlocks(Init(2, 0), run, 1);
    assert Insert([], Entry(0, 1)) == [Entry(0, 1)];
  }

  lemma TwoSendersBlock() returns (run: seq<Step>)
    ensures RunAllowed(Init(2, 0), run) && FullAndUnlocked(Run(Init(2, 0), run))
    ensures var s := Run(Init(2, 0), run);
            && s.queue == New(2, 0).(items := [[], []], waitingToSend := [Entry(0, 1), Entry(0, 2)])
            && s.phases(0) == Outside
  {
    run := OneSenderBlocks();
    run := SenderBlocks(Init(2, 0), run, 2);
    assert Insert([Entry(0, 1)], Entry(0, 2)) == [Entry(0, 1), Entry(0, 2)];
  }

  // Two senders block on a full queue of length 2. A reset frees both places and wakes one of them only.
  lemma ResetLosesAWakeUp() returns (run: seq<Step>)
    ensures RunAllowed(Init(2, 0), run)
    ensures SendersCovered(Run(Init(2, 0), run)) && Enabled(Run(Init(2, 0), run), ResetQueue(0))
    ensures !SendersCovered(Next(Run(Init(2, 0), run), ResetQueue(0)))
  {
    run := TwoSendersBlock();
    RunKeeps(Init(2, 0), run);
    ResetMisses(Run(Init(2, 0), run));
  }

  lemma ResetMisses(s: State)
    requires Inv(s) && FullAndUnlocked(s) && s.phases(0) == Outside
    requires s.queue == New(2, 0).(items := [[], []], waitingToSend := [Entry(0, 1), Entry(0, 2)])
    ensures SendersCovered(s) && Enabled(s, ResetQueue(0)) && !SendersCovered(Next(s, ResetQueue(0)))
  {
    assert Owners(s.queue.waitingToSend[1..]) == {2};
    assert !Waiting(s.queue, 0);
    ResetCovers(s, 0);
  }
}
