/** What each critical section of queue.c does to a queue: its items, its two wait lists and its two lock counts. */
module QueueModel {
  import opened Arithmetic
  import opened Bytes
  import opened ListSpec

  type Item = seq<Byte>

  const UNLOCKED := -1          // queueUNLOCKED
  const LOCKED_UNMODIFIED := 0  // queueLOCKED_UNMODIFIED
  const MAX_LOCK := 127         // queueINT8_MAX

  datatype Position = SendToBack | SendToFront | Overwrite

  // Wait lists hold the tasks by priority, the first to be woken at the head.
  datatype Queue = Queue(
    items: seq<Item>,
    length: nat,
    itemSize: nat,
    waitingToSend: seq<Entry>,
    waitingToReceive: seq<Entry>,
    rxLock: int,
    txLock: int)

  // xQueueGenericReset on a new queue.
  function New(length: nat, itemSize: nat): Queue {
    Queue([], length, itemSize, [], [], UNLOCKED, UNLOCKED)
  }

  // The check at the head of both send functions.
  predicate MaySend(q: Queue, position: Position) {
    |q.items| < q.length || position == Overwrite
  }

  // What the asserts of the send functions ask of their callers.
  predicate SendAllowed(q: Queue, item: Item, position: Position) {
    |item| == q.itemSize && (position == Overwrite ==> q.length == 1)
  }

  // prvCopyDataToQueue. A queue of empty items only counts, whatever the position.
  function Put(q: Queue, item: Item, position: Position): Queue {
    q.(items :=
      if q.itemSize == 0 || position == SendToBack then q.items + [item]
      else if position == SendToFront || q.items == [] then [item] + q.items
      else [item] + q.items[1..])
  }

  // xTaskRemoveFromEventList on a wait list that is not empty.
  function WakeReceiver(q: Queue): Queue {
    if q.waitingToReceive == [] then q else q.(waitingToReceive := q.waitingToReceive[1..])
  }

  function WakeSender(q: Queue): Queue {
    if q.waitingToSend == [] then q else q.(waitingToSend := q.waitingToSend[1..])
  }

  // The success branch of xQueueGenericSend.
  function Send(q: Queue, item: Item, position: Position): Queue {
    WakeReceiver(Put(q, item, position))
  }

  // The success branch of xQueueGenericSendFromISR and xQueueGiveFromISR: a locked queue is only counted.
  function SendFromISR(q: Queue, item: Item, position: Position): Queue {
    if q.txLock == UNLOCKED then Send(q, item, position)
    else Put(q, item, position).(txLock := q.txLock + 1)
  }

  function Take(q: Queue): Queue
    requires q.items != []
  {
    q.(items := q.items[1..])
  }

  // The success branch of xQueueReceive and xQueueSemaphoreTake.
  function Receive(q: Queue): Queue
    requires q.items != []
  {
    WakeSender(Take(q))
  }

  // The success branch of xQueueReceiveFromISR.
  function ReceiveFromISR(q: Queue): Queue
    requires q.items != []
  {
    if q.rxLock == UNLOCKED then Receive(q) else Take(q).(rxLock := q.rxLock + 1)
  }

  // The success branch of xQueuePeek: the item stays, so another waiting receiver is woken.
  function Peek(q: Queue): Queue {
    WakeReceiver(q)
  }

  // prvLockQueue
  function Lock(q: Queue): Queue {
    q.(rxLock := if q.rxLock == UNLOCKED then LOCKED_UNMODIFIED else q.rxLock,
       txLock := if q.txLock == UNLOCKED then LOCKED_UNMODIFIED else q.txLock)
  }

  // How many tasks the two halves of prvUnlockQueue wake.
  function TxWakes(q: Queue): nat {
    if q.txLock <= LOCKED_UNMODIFIED then 0 else Min(q.txLock, |q.waitingToReceive|)
  }

  function RxWakes(q: Queue): nat {
    if q.rxLock <= LOCKED_UNMODIFIED then 0 else Min(q.rxLock, |q.waitingToSend|)
  }

  // The two critical sections of prvUnlockQueue.
  function UnlockTx(q: Queue): Queue {
    q.(waitingToReceive := q.waitingToReceive[TxWakes(q)..], txLock := UNLOCKED)
  }

  function UnlockRx(q: Queue): Queue {
    q.(waitingToSend := q.waitingToSend[RxWakes(q)..], rxLock := UNLOCKED)
  }

  // xQueueGenericReset on a queue in use.
  function ResetInUse(q: Queue): Queue {
    WakeSender(q.(items := [], rxLock := UNLOCKED, txLock := UNLOCKED))
  }

  // A queue of real items never holds more than it has room for. A queue of empty items (a semaphore) overflows
  // exactly when it is overwritten while full: that path does not uncount the item it replaces.
  lemma SendFits(q: Queue, item: Item, position: Position)
    requires |q.items| <= q.length && MaySend(q, position) && SendAllowed(q, item, position)
    ensures |Put(q, item, position).items| <= q.length
       <==> !(q.itemSize == 0 && position == Overwrite && |q.items| == q.length)
  {
  }

  // A binary semaphore that is given and then overwritten counts two.
  lemma OverwrittenSemaphore()
    ensures var given := Send(New(1, 0), [], SendToBack);
            && MaySend(given, Overwrite) && SendAllowed(given, [], Overwrite)
            && |given.items| == 1 && |Send(given, [], Overwrite).items| == 2
  {
  }

  // On a queue of length 1 an overwrite always leaves exactly the new item.
  lemma OverwriteReplaces(q: Queue, item: Item)
    requires q.length == 1 && |q.items| <= 1 && q.itemSize > 0
    ensures Put(q, item, Overwrite).items == [item]
  {
  }
}
