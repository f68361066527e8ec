/**
 What becomes of the items in a run of tasks and interrupts on one queue, and in which order waiting tasks are woken:
 the queue is first in first out, nothing is lost or doubled, and the waiting task of the highest priority goes first.
 */
module QueueItems {
  import opened ListSpec
  import opened QueueModel
  import opened QueueProtocol

  // What a step puts into the queue for a sender that is told it passed, what it gives to a receiver, and what it
  // throws away.
  function SentBy(s: State, step: Step): seq<Item>
    requires Enabled(s, step)
  {
    match step
    case Enter(t, _) =>
      var call := s.phases(t).call;
      if call.SendCall? && MaySend(s.queue, call.position) then [call.item] else []
    case InterruptSend(item, position) => if MaySend(s.queue, position) then [item] else []
    case _ => []
  }

  function ReceivedBy(s: State, step: Step): seq<Item>
    requires Enabled(s, step)
  {
    match step
    case Enter(t, _) => if s.phases(t).call.ReceiveCall? && s.queue.items != [] then [s.queue.items[0]] else []
    case InterruptReceive => if s.queue.items != [] then [s.queue.items[0]] else []
    case _ => []
  }

  function OverwrittenIn(q: Queue, position: Position): seq<Item> {
    if position == Overwrite && q.items != [] then [q.items[0]] else []
  }

  function DroppedBy(s: State, step: Step): seq<Item>
    requires Enabled(s, step)
  {
    match step
    case Enter(t, _) =>
      if s.phases(t).call.SendCall? then OverwrittenIn(s.queue, s.phases(t).call.position) else []
    case InterruptSend(_, position) => OverwrittenIn(s.queue, position)
    case ResetQueue(_) => s.queue.items
    case _ => []
  }

  // In a whole run.
  ghost function Sent(s: State, run: seq<Step>): seq<Item>
    requires RunAllowed(s, run)
    decreases |run|
  {
    if run == [] then [] else SentBy(s, run[0]) + Sent(Next(s, run[0]), run[1..])
  }

  ghost function Received(s: State, run: seq<Step>): seq<Item>
    requires RunAllowed(s, run)
    decreases |run|
  {
    if run == [] then [] else ReceivedBy(s, run[0]) + Received(Next(s, run[0]), run[1..])
  }

  ghost function Dropped(s: State, run: seq<Step>): seq<Item>
    requires RunAllowed(s, run)
    decreases |run|
  {
    if run == [] then [] else DroppedBy(s, run[0]) + Dropped(Next(s, run[0]), run[1..])
  }

  // ----- what a step does to the items

  lemma SendItems(q: Queue, item: Item, position: Position)
    ensures Send(q, item, position).items == SendFromISR(q, item, position).items == Put(q, item, position).items
  {
  }

  lemma OtherSteps(s: State, step: Step)
    requires Enabled(s, step)
    requires !step.Enter? && !step.InterruptSend? && !step.InterruptReceive? && !step.ResetQueue?
    ensures Next(s, step).queue.items == s.queue.items
    ensures SentBy(s, step) == ReceivedBy(s, step) == DroppedBy(s, step) == []
  {
  }

  lemma EnterItems(s: State, t: TaskId, blockTime: bool)
    requires Enabled(s, Enter(t, blockTime))
    ensures var call, items := s.phases(t).call, Next(s, Enter(t, blockTime)).queue.items;
            match call
            case SendCall(item, position) =>
              items == if MaySend(s.queue, position) then Put(s.queue, item, position).items else s.queue.items
            case ReceiveCall => items == if s.queue.items == [] then [] else s.queue.items[1..]
            case PeekCall => items == s.queue.items
  {
  }

  // ----- first in, first out

  // Every send is to the back, and nobody resets the queue.
  predicate ToBack(step: Step) {
    && (step.Begin? && step.call.SendCall? ==> step.call.position == SendToBack)
    && (step.InterruptSend? ==> step.position == SendToBack)
    && !step.ResetQueue?
  }

  predicate CallToBack(phase: Phase) {
    phase != Outside && phase.call.SendCall? ==> phase.call.position == SendToBack
  }

  ghost predicate CallsToBack(s: State) {
    forall t: TaskId :: CallToBack(s.phases(t))
  }

  lemma CallsStayToBack(s: State, step: Step)
    requires Enabled(s, step) && CallsToBack(s) && ToBack(step)
    ensures CallsToBack(Next(s, step))
  {
    var r := Next(s, step);
    forall t: TaskId ensures CallToBack(r.phases(t)) {
      assert CallToBack(s.phases(t));
    }
  }

  // What goes in goes to the end, what comes out is the first.
  lemma StepInOrder(s: State, step: Step)
    requires Enabled(s, step) && CallsToBack(s) && ToBack(step)
    ensures s.queue.items + SentBy(s, step) == ReceivedBy(s, step) + Next(s, step).queue.items
  {
    match step
    case Enter(t, blockTime) =>
      assert CallToBack(s.phases(t));
      EnterItems(s, t, blockTime);
    case InterruptSend(item, position) => SendItems(s.queue, item, position);
    case InterruptReceive =>
    case _ => OtherSteps(s, step);
  }

  lemma {:induction false} RunInOrder(s: State, run: seq<Step>)
    requires RunAllowed(s, run) && CallsToBack(s) && forall i :: 0 <= i < |run| ==> ToBack(run[i])
    ensures s.queue.items + Sent(s, run) == Received(s, run) + Run(s, run).queue.items
    decreases |run|
  {
    if run != [] {
      var r := Next(s, run[0]);
      StepInOrder(s, run[0]);
      CallsStayToBack(s, run[0]);
      RunInOrder(r, run[1..]);
      Chained(s.queue.items, SentBy(s, run[0]), Sent(r, run[1..]), ReceivedBy(s, run[0]), r.queue.items,
              Received(r, run[1..]), Run(r, run[1..]).queue.items);
    }
  }

  lemma Chained(before: seq<Item>, sent: seq<Item>, sentLater: seq<Item>, received: seq<Item>, between: seq<Item>,
                receivedLater: seq<Item>, after: seq<Item>)
    requires before + sent == received + between && between + sentLater == receivedLater + after
    ensures before + (sent + sentLater) == received + receivedLater + after
  {
    assert before + (sent + sentLater) == before + sent + sentLater;
    assert received + between + sentLater == received + (between + sentLater);
  }

  lemma NothingBefore(items: seq<Item>)
    ensures [] + items == items
  {
  }

  // In every run on a new queue of sends to the back, receives and peeks, by tasks that block, time out and are woken
  // and by interrupts, locked or not: the items received, followed by those held, are the items sent, in order.
  lemma FirstInFirstOut(length: nat, itemSize: nat, run: seq<Step>)
    requires RunAllowed(Init(length, itemSize), run) && forall i :: 0 <= i < |run| ==> ToBack(run[i])
    ensures var s := Init(length, itemSize); Received(s, run) + Run(s, run).queue.items == Sent(s, run)
  {
    RunInOrder(Init(length, itemSize), run);
    NothingBefore(Sent(Init(length, itemSize), run));
  }

  // ----- nothing lost, nothing doubled

  // Only a queue of real items is overwritten.
  lemma PutConserves(q: Queue, item: Item, position: Position)
    requires position == Overwrite ==> q.itemSize > 0
    ensures multiset(q.items) + multiset([item])
         == multiset(OverwrittenIn(q, position)) + multiset(Put(q, item, position).items)
  {
    if position == Overwrite && q.items != [] {
      TakeConserves(q.items);
      assert Put(q, item, position).items == [item] + q.items[1..];
    }
  }

  lemma TakeConserves(items: seq<Item>)
    requires items != []
    ensures multiset(items) == multiset([items[0]]) + multiset(items[1..])
  {
    assert items == [items[0]] + items[1..];
  }

  lemma EnterConserves(s: State, t: TaskId, blockTime: bool)
    requires Enabled(s, Enter(t, blockTime)) && ProperCall(s.queue, s.phases(t).call)
    ensures var step := Enter(t, blockTime);
            multiset(s.queue.items) + multiset(SentBy(s, step))
            == multiset(ReceivedBy(s, step)) + multiset(DroppedBy(s, step)) + multiset(Next(s, step).queue.items)
  {
    EnterItems(s, t, blockTime);
    match s.phases(t).call
    case SendCall(item, position) => PutConserves(s.queue, item, position);
    case ReceiveCall => if s.queue.items != [] { TakeConserves(s.queue.items); }
    case PeekCall =>
  }

  predicate ProperCall(q: Queue, call: Call) {
    call.SendCall? ==> (call.position == Overwrite ==> q.itemSize > 0)
  }

  lemma InterruptConserves(s: State, step: Step)
    requires Enabled(s, step) && (step.InterruptSend? || step.InterruptReceive?)
    ensures multiset(s.queue.items) + multiset(SentBy(s, step))
         == multiset(ReceivedBy(s, step)) + multiset(DroppedBy(s, step)) + multiset(Next(s, step).queue.items)
  {
    if step.InterruptSend? {
      var item, position := step.item, step.position;
      PutConserves(s.queue, item, position);
      SendItems(s.queue, item, position);
      assert Next(s, step).queue.items
          == if MaySend(s.queue, position) then Put(s.queue, item, position).items else s.queue.items;
    } else if s.queue.items != [] {
      TakeConserves(s.queue.items);
    }
  }

  lemma StepConserves(s: State, step: Step)
    requires Enabled(s, step) && (step.Enter? ==> ProperCall(s.queue, s.phases(step.t).call))
    ensures multiset(s.queue.items) + multiset(SentBy(s, step))
         == multiset(ReceivedBy(s, step)) + multiset(DroppedBy(s, step)) + multiset(Next(s, step).queue.items)
  {
    match step
    case Enter(t, blockTime) => EnterConserves(s, t, blockTime);
    case InterruptSend(_, _) => InterruptConserves(s, step);
    case InterruptReceive => InterruptConserves(s, step);
    case ResetQueue(_) =>
    case _ => OtherSteps(s, step);
  }

  lemma EntersProperly(s: State, step: Step)
    requires Inv(s) && Enabled(s, step)
    ensures step.Enter? ==> ProperCall(s.queue, s.phases(step.t).call)
  {
    assert step.Enter? ==> TaskOk(s, step.t);
  }

  lemma {:induction false} RunConserves(s: State, run: seq<Step>)
    requires Inv(s) && RunAllowed(s, run)
    ensures multiset(s.queue.items) + multiset(Sent(s, run))
         == multiset(Received(s, run)) + multiset(Dropped(s, run)) + multiset(Run(s, run).queue.items)
    decreases |run|
  {
    if run != [] {
      var r := Next(s, run[0]);
      EntersProperly(s, run[0]);
      StepConserves(s, run[0]);
      StepKeeps(s, run[0]);
      RunConserves(r, run[1..]);
      ConservedOn(s.queue.items, r.queue.items, Run(r, run[1..]).queue.items, SentBy(s, run[0]), Sent(r, run[1..]),
                  ReceivedBy(s, run[0]), Received(r, run[1..]), DroppedBy(s, run[0]), Dropped(r, run[1..]));
    }
  }

  lemma ConservedOn(
    before: seq<Item>, between: seq<Item>, after: seq<Item>, sent: seq<Item>, sentLater: seq<Item>,
    received: seq<Item>, receivedLater: seq<Item>, dropped: seq<Item>, droppedLater: seq<Item>)
    requires multiset(before) + multiset(sent) == multiset(received) + multiset(dropped) + multiset(between)
    requires multiset(between) + multiset(sentLater)
          == multiset(receivedLater) + multiset(droppedLater) + multiset(after)
    ensures multiset(before) + multiset(sent + sentLater)
         == multiset(received + receivedLater) + multiset(dropped + droppedLater) + multiset(after)
  {
    assert multiset(sent + sentLater) == multiset(sent) + multiset(sentLater);
    assert multiset(received + receivedLater) == multiset(received) + multiset(receivedLater);
    assert multiset(dropped + droppedLater) == multiset(dropped) + multiset(droppedLater);
    Sums(multiset(before), multiset(between), multiset(after), multiset(sent), multiset(sentLater),
         multiset(received), multiset(receivedLater), multiset(dropped), multiset(droppedLater));
  }

  lemma Sums<T>(a: multiset<T>, b: multiset<T>, c: multiset<T>, sent: multiset<T>, sentLater: multiset<T>,
                received: multiset<T>, receivedLater: multiset<T>, dropped: multiset<T>, droppedLater: multiset<T>)
    requires a + sent == received + dropped + b && b + sentLater == receivedLater + droppedLater + c
    ensures a + (sent + sentLater) == received + receivedLater + (dropped + droppedLater) + c
  {
    assert a + (sent + sentLater) == a + sent + sentLater;
    assert received + dropped + b + sentLater == received + dropped + (b + sentLater);
  }

  lemma NoItems(items: seq<Item>, sent: multiset<Item>)
    requires items == []
    ensures multiset(items) + sent == sent
  {
  }

  // In every run whatsoever, sends to either end, overwrites and resets included: the items sent are those received,
  // those held, and those that an overwrite or a reset threw away, each as often.
  lemma NothingLost(length: nat, itemSize: nat, run: seq<Step>)
    requires RunAllowed(Init(length, itemSize), run)
    ensures var s := Init(length, itemSize);
            multiset(Sent(s, run))
            == multiset(Received(s, run)) + multiset(Dropped(s, run)) + multiset(Run(s, run).queue.items)
  {
    RunConserves(Init(length, itemSize), run);
    NoItems(Init(length, itemSize).queue.items, multiset(Sent(Init(length, itemSize), run)));
  }

  // ----- who is woken

  ghost predicate ListsSorted(s: State) {
    Sorted(s.queue.waitingToReceive) && Sorted(s.queue.waitingToSend)
  }

  // What is left when some are taken from the head.
  predicate Tail(before: seq<Entry>, after: seq<Entry>) {
    after == before || (before != [] && Tail(before[1..], after))
  }

  predicate Tails(before: Queue, after: Queue) {
    Tail(before.waitingToReceive, after.waitingToReceive) && Tail(before.waitingToSend, after.waitingToSend)
  }

  lemma {:induction false} DropIsTail(list: seq<Entry>, n: nat)
    requires n <= |list|
    ensures Tail(list, list[n..])
  {
    if n == 0 {
      assert list[0..] == list;
    } else {
      DropIsTail(list[1..], n - 1);
      assert list[1..][n - 1..] == list[n..];
    }
  }

  lemma HeadIsTail(list: seq<Entry>)
    ensures Tail(list, list) && (list != [] ==> Tail(list, list[1..]))
  {
  }

  lemma SendWakesFromHead(q: Queue, item: Item, position: Position)
    ensures Tails(q, Send(q, item, position)) && Tails(q, SendFromISR(q, item, position))
  {
    HeadIsTail(q.waitingToReceive);
    HeadIsTail(q.waitingToSend);
  }

  lemma ReceiveWakesFromHead(q: Queue)
    requires q.items != []
    ensures Tails(q, Receive(q)) && Tails(q, QueueModel.ReceiveFromISR(q))
  {
    HeadIsTail(q.waitingToReceive);
    HeadIsTail(q.waitingToSend);
  }

  lemma PeekWakesFromHead(q: Queue)
    ensures Tails(q, q) && Tails(q, Lock(q)) && Tails(q, Peek(q)) && Tails(q, ResetInUse(q))
  {
    HeadIsTail(q.waitingToReceive);
    HeadIsTail(q.waitingToSend);
  }

  lemma UnlocksWakeFromHead(q: Queue)
    ensures Tails(q, QueueModel.UnlockTx(q)) && Tails(q, UnlockRx(q))
  {
    DropIsTail(q.waitingToReceive, TxWakes(q));
    DropIsTail(q.waitingToSend, RxWakes(q));
    HeadIsTail(q.waitingToReceive);
    HeadIsTail(q.waitingToSend);
  }

  lemma EnterWakesFromHead(s: State, t: TaskId, blockTime: bool)
    requires Enabled(s, Enter(t, blockTime))
    ensures Tails(s.queue, Next(s, Enter(t, blockTime)).queue)
  {
    PeekWakesFromHead(s.queue);
    match s.phases(t).call
    case SendCall(item, position) => SendWakesFromHead(s.queue, item, position);
    case ReceiveCall => if s.queue.items != [] { ReceiveWakesFromHead(s.queue); }
    case PeekCall =>
  }

  // A step that wakes tasks takes them from the head of a list. A task joins in its place, or leaves on its own when
  // its time is over.
  lemma WakesFromHead(s: State, step: Step)
    requires Enabled(s, step) && !step.PlaceOnEventList? && !step.TimeOut?
    ensures Tails(s.queue, Next(s, step).queue)
  {
    match step
    case Enter(t, blockTime) => EnterWakesFromHead(s, t, blockTime);
    case InterruptSend(item, position) =>
      SendWakesFromHead(s.queue, item, position);
      PeekWakesFromHead(s.queue);
    case InterruptReceive =>
      if s.queue.items != [] { ReceiveWakesFromHead(s.queue); }
      PeekWakesFromHead(s.queue);
    case UnlockTx(_) => UnlocksWakeFromHead(s.queue);
    case UnlockRxAndResume(_) => UnlocksWakeFromHead(s.queue);
    case _ => PeekWakesFromHead(s.queue);
  }

  lemma {:induction false} TailSorted(before: seq<Entry>, after: seq<Entry>)
    requires Sorted(before) && Tail(before, after)
    ensures Sorted(after) && |after| <= |before| && after == before[|before| - |after|..]
  {
    if after != before {
      TailSorted(before[1..], after);
    }
  }

  lemma StepKeepsSorted(s: State, step: Step)
    requires Inv(s) && Enabled(s, step) && ListsSorted(s)
    ensures ListsSorted(Next(s, step))
  {
    var q := s.queue;
    match step
    case PlaceOnEventList(t, priority) =>
      InsertSorted(q.waitingToReceive, Entry(priority, t));
      InsertSorted(q.waitingToSend, Entry(priority, t));
    case TimeOut(t) =>
      RemoveSorted(q.waitingToReceive, t);
      RemoveSorted(q.waitingToSend, t);
    case _ =>
      WakesFromHead(s, step);
      TailSorted(q.waitingToReceive, Next(s, step).queue.waitingToReceive);
      TailSorted(q.waitingToSend, Next(s, step).queue.waitingToSend);
  }

  lemma {:induction false} RunKeepsSorted(s: State, run: seq<Step>)
    requires Inv(s) && RunAllowed(s, run) && ListsSorted(s)
    ensures ListsSorted(Run(s, run)) && Inv(Run(s, run))
    decreases |run|
  {
    if run != [] {
      StepKeepsSorted(s, run[0]);
      StepKeeps(s, run[0]);
      RunKeepsSorted(Next(s, run[0]), run[1..]);
    }
  }

  // The tasks taken off a list have no lower priority than those that stay: the items of a wait list are ordered by
  // configMAX_PRIORITIES less the priority.
  ghost predicate BestWoken(before: seq<Entry>, after: seq<Entry>) {
    && |after| <= |before| && after == before[|before| - |after|..]
    && forall i, j :: 0 <= i < |before| - |after| <= j < |before| ==> before[i].value <= before[j].value
  }

  lemma TailIsBestWoken(before: seq<Entry>, after: seq<Entry>)
    requires Sorted(before) && Tail(before, after)
    ensures BestWoken(before, after)
  {
    TailSorted(before, after);
  }

  // In every run, whatever wakes tasks wakes those of the highest priority among the waiting, in both lists.
  lemma HighestPriorityFirst(length: nat, itemSize: nat, run: seq<Step>, step: Step)
    requires RunAllowed(Init(length, itemSize), run) && Enabled(Run(Init(length, itemSize), run), step)
    requires !step.PlaceOnEventList? && !step.TimeOut?
    ensures var s := Run(Init(length, itemSize), run);
            && BestWoken(s.queue.waitingToReceive, Next(s, step).queue.waitingToReceive)
            && BestWoken(s.queue.waitingToSend, Next(s, step).queue.waitingToSend)
  {
    RunKeepsSorted(Init(length, itemSize), run);
    var s := Run(Init(length, itemSize), run);
    WakesFromHead(s, step);
    TailIsBestWoken(s.queue.waitingToReceive, Next(s, step).queue.waitingToReceive);
    TailIsBestWoken(s.queue.waitingToSend, Next(s, step).queue.waitingToSend);
  }

  // ----- how calls end

  // A call without block time answers in its first critical section: it passes exactly when there is an item, or space
  // for one or an overwrite. With block time it goes on when it does not.
  lemma EnterAnswers(s: State, t: TaskId, blockTime: bool)
    requires Enabled(s, Enter(t, blockTime))
    ensures var call, r := s.phases(t).call, Next(s, Enter(t, blockTime));
            var passes := if call.SendCall? then |s.queue.items| < s.queue.length || call.position == Overwrite
                          else s.queue.items != [];
            && r.phases(t) == (if passes || !blockTime then Outside else BeforeLock(call))
            && (!passes ==> r.queue == s.queue && SentBy(s, Enter(t, blockTime)) == [])
            && (passes && call.SendCall? ==> SentBy(s, Enter(t, blockTime)) == [call.item])
            && (passes && call.ReceiveCall? ==> ReceivedBy(s, Enter(t, blockTime)) == [s.queue.items[0]])
  {
  }

  // A task whose time is over ends its call once it has unlocked the queue: a sender at once, a receiver after a last
  // look, which sends it back to the top of its loop exactly when there is an item after all.
  lemma TimeOutEndsCall(s: State, t: TaskId)
    requires Inv(s) && s.phases(t).Locked?
    ensures var call, c := s.phases(t).call, Next(s, CheckForTimeOut(t, true));
            && Enabled(c, UnlockTx(t)) && Enabled(Next(c, UnlockTx(t)), UnlockRxAndResume(t))
            && var r := Next(Next(c, UnlockTx(t)), UnlockRxAndResume(t));
               if call.SendCall? then r.phases(t) == Outside
               else && Enabled(r, LastLook(t))
                    && Next(r, LastLook(t)).phases(t) == if r.queue.items == [] then Outside else AtTop(call)
  {
    assert TaskOk(s, t);
    var c := Next(s, CheckForTimeOut(t, true));
    UnlockingKeepsOff(c, t);
    UnlockingKeepsOff(Next(c, UnlockTx(t)), t);
  }

  // Unlocking puts nobody on a wait list.
  lemma UnlockingKeepsOff(s: State, t: TaskId)
    requires DistinctOwners(s.queue.waitingToReceive) && DistinctOwners(s.queue.waitingToSend)
    requires !Waiting(s.queue, t)
    ensures !Waiting(QueueModel.UnlockTx(s.queue), t) && !Waiting(UnlockRx(s.queue), t)
    ensures DistinctOwners(QueueModel.UnlockTx(s.queue).waitingToReceive)
    ensures DistinctOwners(UnlockRx(s.queue).waitingToSend)
  {
    OwnersDrop(s.queue.waitingToReceive, TxWakes(s.queue));
    OwnersDrop(s.queue.waitingToSend, RxWakes(s.queue));
  }
}
