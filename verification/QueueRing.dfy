/** The queue in its storage area: a ring of fixed-size slots behind a write-to and a last-read pointer. */
module QueueRing {
  import opened Bytes
  import opened ListSpec
  import opened QueueModel

  class QueueRing {
    const storage: array<Byte>  // pcHead .. pcTail
    const length: nat           // uxLength
    const itemSize: nat         // uxItemSize
    var writeTo: nat            // pcWriteTo - pcHead
    var readFrom: nat           // pcReadFrom - pcHead
    var messagesWaiting: nat    // uxMessagesWaiting
    var rxLock: int
    var txLock: int
    var waitingToSend: seq<Entry>
    var waitingToReceive: seq<Entry>
    ghost var lastRead: nat     // the slot of readFrom
    ghost var items: seq<Item>

    ghost predicate Valid()
      reads this, storage
    {
      && length > 0 && storage.Length == length * itemSize
      && messagesWaiting == |items|
      && (forall i :: 0 <= i < |items| ==> |items[i]| == itemSize)
      && (itemSize > 0 ==> Ring())
    }

    // The write slot is (last-read slot + 1 + count) modulo the length, and the items stand in the slots between.
    ghost predicate Ring()
      reads this, storage
      requires storage.Length == length * itemSize
    {
      && lastRead < length
      && readFrom == lastRead * itemSize
      && RingHolds(storage[..], length, itemSize, lastRead, items)
      && writeTo == ItemSlot(lastRead, |items|, length) * itemSize
    }

    ghost function State(): Queue
      reads this
    {
      Queue(items, length, itemSize, waitingToSend, waitingToReceive, rxLock, txLock)
    }

    // prvInitialiseNewQueue and xQueueGenericReset.
    constructor (length: nat, itemSize: nat)
      requires length > 0
      ensures Valid() && State() == New(length, itemSize) && fresh(storage)
    {
      this.length, this.itemSize := length, itemSize;
      ProductOrder(length - 1, length, itemSize);
      storage := new Byte[length * itemSize](_ => 0);
      writeTo, readFrom, messagesWaiting := 0, (length - 1) * itemSize, 0;
      rxLock, txLock := UNLOCKED, UNLOCKED;
      waitingToSend, waitingToReceive := [], [];
      lastRead, items := length - 1, [];
    }

    // memcpy of one item into the slot at `offset`.
    method CopyIn(offset: nat, item: Item)
      requires offset + |item| <= storage.Length
      modifies storage
      ensures storage[..] == old(storage[..offset]) + item + old(storage[offset + |item|..])
    {
      ghost var bytes := storage[..];
      var i := 0;
      while i < |item|
        invariant 0 <= i <= |item|
        invariant storage[..] == bytes[..offset] + item[..i] + bytes[offset + i..]
      {
        CopyStep(bytes, offset, item, i);
        ghost var soFar := storage[..];
        storage[offset + i] := item[i];
        assert storage[..] == soFar[offset + i := item[i]];
        i := i + 1;
      }
    }

    // The branch of prvCopyDataToQueue for queueSEND_TO_BACK.
    method CopyToBack(item: Item)
      requires Valid() && itemSize > 0 && |item| == itemSize && |items| < length
      modifies this`writeTo, this`messagesWaiting, this`items, storage
      ensures Valid() && items == old(items) + [item]
    {
      ghost var bytes, slot := storage[..], ItemSlot(lastRead, |items|, length);
      Appended(bytes, length, itemSize, lastRead, items, item);
      NextSlotOffset(slot, length, itemSize);
      CopyIn(writeTo, item);
      assert storage[..] == Written(bytes, itemSize, slot, item);
      writeTo := writeTo + itemSize;
      if writeTo >= storage.Length {
        writeTo := 0;
      }
      items := items + [item];
      messagesWaiting := messagesWaiting + 1;
    }

    // The branch of prvCopyDataToQueue for queueSEND_TO_FRONT and queueOVERWRITE.
    method CopyToFront(item: Item, overwrite: bool)
      requires Valid() && itemSize > 0 && |item| == itemSize
      requires if overwrite then length == 1 else |items| < length
      modifies this`readFrom, this`messagesWaiting, this`lastRead, this`items, storage
      ensures Valid()
      ensures items == [item] + if overwrite && old(items) != [] then old(items)[1..] else old(items)
    {
      ghost var kept := if overwrite && items != [] then items[1..] else items;
      PreviousSlotOffset(lastRead, length, itemSize);
      ghost var bytes, slot := storage[..], lastRead;
      Prepended(bytes, length, itemSize, slot, kept, item);
      assert writeTo == ItemSlot(slot, |kept|, length) * itemSize;
      CopyIn(readFrom, item);
      assert storage[..] == Written(bytes, itemSize, slot, item);
      readFrom := if readFrom < itemSize then storage.Length - itemSize else readFrom - itemSize;
      if overwrite && messagesWaiting > 0 {
        messagesWaiting := messagesWaiting - 1;
      }
      messagesWaiting := messagesWaiting + 1;
      lastRead := SlotBefore(slot, length);
      items := [item] + kept;
      assert Ring();
    }

    // prvCopyDataToQueue
    method CopyDataToQueue(item: Item, position: Position)
      requires Valid() && SendAllowed(State(), item, position) && MaySend(State(), position)
      modifies this`writeTo, this`readFrom, this`messagesWaiting, this`lastRead, this`items, storage
      ensures Valid() && State() == Put(old(State()), item, position)
      ensures position == SendToBack || itemSize == 0 ==> items == old(items) + [item]
      ensures position == SendToFront && itemSize > 0 ==> items == [item] + old(items)
      ensures position == Overwrite && itemSize > 0 ==> items == [item]
    {
      if itemSize == 0 {
        messagesWaiting, items := messagesWaiting + 1, items + [item];
      } else if position == SendToBack {
        CopyToBack(item);
      } else {
        CopyToFront(item, position == Overwrite);
      }
    }

    // prvCopyDataFromQueue: step the read pointer and copy out what it points to.
    method CopyDataFromQueue() returns (buffer: Item)
      requires Valid() && items != []
      modifies this`readFrom, this`lastRead
      ensures buffer == items[0]
      ensures itemSize > 0 ==> lastRead == ItemSlot(old(lastRead), 0, length) && readFrom == lastRead * itemSize
    {
      buffer := [];
      if itemSize != 0 {
        NextSlotOffset(lastRead, length, itemSize);
        readFrom := readFrom + itemSize;
        if readFrom >= storage.Length {
          readFrom := 0;
        }
        lastRead := ItemSlot(lastRead, 0, length);
        assert SlotHolds(storage[..], itemSize, lastRead, items[0]);
        ProductOrder(lastRead + 1, length, itemSize);
        buffer := storage[readFrom..readFrom + itemSize];
      }
    }

    // xTaskRemoveFromEventList on the list of waiting receivers, if there is one.
    method UnblockReceiver()
      modifies this`waitingToReceive
      ensures State() == WakeReceiver(old(State()))
    {
      if waitingToReceive != [] {
        waitingToReceive := waitingToReceive[1..];
      }
    }

    method UnblockSender()
      modifies this`waitingToSend
      ensures State() == WakeSender(old(State()))
    {
      if waitingToSend != [] {
        waitingToSend := waitingToSend[1..];
      }
    }

    // The critical section of xQueueGenericSend.
    method GenericSend(item: Item, position: Position) returns (passed: bool)
      requires Valid() && SendAllowed(State(), item, position)
      modifies this, storage
      ensures Valid() && passed == MaySend(old(State()), position)
      ensures State() == if passed then Send(old(State()), item, position) else old(State())
      ensures passed && (position == SendToBack || itemSize == 0) ==> items == old(items) + [item]
      ensures passed && position == SendToFront && itemSize > 0 ==> items == [item] + old(items)
      ensures passed && position == Overwrite && itemSize > 0 ==> items == [item]
    {
      passed := messagesWaiting < length || position == Overwrite;
      if passed {
        CopyDataToQueue(item, position);
        UnblockReceiver();
      }
    }

    // xQueueGenericSendFromISR; an item is not sent with the lock count saturated (a configASSERT).
    method GenericSendFromISR(item: Item, position: Position) returns (passed: bool)
      requires Valid() && SendAllowed(State(), item, position)
      requires MaySend(State(), position) ==> txLock < MAX_LOCK
      modifies this, storage
      ensures Valid() && passed == MaySend(old(State()), position)
      ensures State() == if passed then SendFromISR(old(State()), item, position) else old(State())
      ensures passed && (position == SendToBack || itemSize == 0) ==> items == old(items) + [item]
      ensures passed && position == SendToFront && itemSize > 0 ==> items == [item] + old(items)
      ensures passed && position == Overwrite && itemSize > 0 ==> items == [item]
      ensures txLock == if passed && old(txLock) != UNLOCKED then old(txLock) + 1 else old(txLock)
    {
      passed := messagesWaiting < length || position == Overwrite;
      if passed {
        var lock := txLock;
        CopyDataToQueue(item, position);
        if lock == UNLOCKED {
          UnblockReceiver();
        } else {
          txLock := lock + 1;
        }
      }
    }

    // Take the first item out: the common part of the receive functions.
    method RemoveFirst() returns (buffer: Item)
      requires Valid() && items != []
      modifies this`readFrom, this`lastRead, this`messagesWaiting, this`items
      ensures Valid() && State() == Take(old(State())) && buffer == old(items)[0] && [buffer] + items == old(items)
    {
      if itemSize > 0 { Popped(storage[..], length, itemSize, lastRead, items); }
      buffer := CopyDataFromQueue();
      messagesWaiting := messagesWaiting - 1;
      items := items[1..];
    }

    // The critical section of xQueueReceive.
    method GenericReceive() returns (passed: bool, buffer: Item)
      requires Valid()
      modifies this
      ensures Valid() && passed == (old(items) != [])
      ensures passed ==> State() == Receive(old(State()))
      ensures passed ==> [buffer] + items == old(items)
      ensures !passed ==> State() == old(State())
    {
      passed, buffer := messagesWaiting > 0, [];
      if passed {
        buffer := RemoveFirst();
        UnblockSender();
      }
    }

    // xQueueReceiveFromISR
    method ReceiveFromISR() returns (passed: bool, buffer: Item)
      requires Valid() && (items != [] ==> rxLock < MAX_LOCK)
      modifies this
      ensures Valid() && passed == (old(items) != [])
      ensures passed ==> State() == QueueModel.ReceiveFromISR(old(State()))
      ensures passed ==> [buffer] + items == old(items)
      ensures rxLock == if passed && old(rxLock) != UNLOCKED then old(rxLock) + 1 else old(rxLock)
      ensures !passed ==> State() == old(State())
    {
      passed, buffer := messagesWaiting > 0, [];
      if passed {
        var lock := rxLock;
        buffer := RemoveFirst();
        if lock == UNLOCKED {
          UnblockSender();
        } else {
          rxLock := lock + 1;
        }
      }
    }

    // The critical section of xQueuePeek: the read pointer is put back.
    method GenericPeek() returns (passed: bool, buffer: Item)
      requires Valid()
      modifies this
      ensures Valid() && passed == (old(items) != [])
      ensures passed ==> State() == Peek(old(State())) && items == old(items) && buffer == items[0]
      ensures !passed ==> State() == old(State())
    {
      passed, buffer := messagesWaiting > 0, [];
      if passed {
        var original := readFrom;
        ghost var slot := lastRead;
        buffer := CopyDataFromQueue();
        readFrom := original;
        lastRead := slot;
        UnblockReceiver();
      }
    }

    // prvLockQueue
    method LockQueue()
      modifies this`rxLock, this`txLock
      ensures State() == Lock(old(State()))
      ensures rxLock == if old(rxLock) == UNLOCKED then LOCKED_UNMODIFIED else old(rxLock)
      ensures txLock == if old(txLock) == UNLOCKED then LOCKED_UNMODIFIED else old(txLock)
    {
      if rxLock == UNLOCKED {
        rxLock := LOCKED_UNMODIFIED;
      }
      if txLock == UNLOCKED {
        txLock := LOCKED_UNMODIFIED;
      }
    }

    // The first critical section of prvUnlockQueue: one waiting receiver is woken per item that came while locked.
    method UnlockQueueTx()
      modifies this`waitingToReceive, this`txLock
      ensures State() == UnlockTx(old(State())) && txLock == UNLOCKED
    {
      var lock := txLock;
      ghost var woken := 0;
      while lock > LOCKED_UNMODIFIED
        invariant 0 <= woken <= |old(waitingToReceive)| && lock == txLock - woken && txLock == old(txLock)
        invariant woken > 0 ==> lock >= 0
        invariant waitingToReceive == old(waitingToReceive)[woken..]
        decreases lock
      {
        assert |waitingToReceive| == |old(waitingToReceive)| - woken;
        if waitingToReceive == [] {
          break;
        }
        waitingToReceive := waitingToReceive[1..];
        lock := lock - 1;
        woken := woken + 1;
      }
      assert woken == TxWakes(old(State()));
      txLock := UNLOCKED;
    }

    // The second critical section of prvUnlockQueue, for the waiting senders.
    method UnlockQueueRx()
      modifies this`waitingToSend, this`rxLock
      ensures State() == UnlockRx(old(State())) && rxLock == UNLOCKED
    {
      var lock := rxLock;
      ghost var woken := 0;
      while lock > LOCKED_UNMODIFIED
        invariant 0 <= woken <= |old(waitingToSend)| && lock == rxLock - woken && rxLock == old(rxLock)
        invariant woken > 0 ==> lock >= 0
        invariant waitingToSend == old(waitingToSend)[woken..]
        decreases lock
      {
        assert |waitingToSend| == |old(waitingToSend)| - woken;
        if waitingToSend == [] {
          break;
        }
        waitingToSend := waitingToSend[1..];
        lock := lock - 1;
        woken := woken + 1;
      }
      assert woken == RxWakes(old(State()));
      rxLock := UNLOCKED;
    }

    // xQueueGenericReset on a queue in use.
    method Reset()
      requires Valid()
      modifies this`messagesWaiting, this`items, this`writeTo, this`readFrom, this`lastRead, this`rxLock, this`txLock,
               this`waitingToSend
      ensures Valid() && State() == ResetInUse(old(State()))
      ensures items == [] && rxLock == txLock == UNLOCKED && waitingToReceive == old(waitingToReceive)
    {
      ProductOrder(length - 1, length, itemSize);
      messagesWaiting, items := 0, [];
      writeTo := 0;
      readFrom := (length - 1) * itemSize;
      lastRead := length - 1;
      rxLock, txLock := UNLOCKED, UNLOCKED;
      assert ItemSlot(lastRead, 0, length) == 0 && RingHolds(storage[..], length, itemSize, lastRead, items);
      assert Valid();
      UnblockSender();
    }
  }

  // ----- slots

  // The slot of item number i in a ring of `length` slots whose last-read slot is `lastRead`.
  function ItemSlot(lastRead: nat, i: nat, length: nat): (slot: nat)
    requires lastRead < length && i <= length
    ensures slot < length
  {
    var s := lastRead + 1 + i;
    if s < length then s else if s < 2 * length then s - length else s - 2 * length
  }

  lemma ItemSlotIsModulo(lastRead: nat, i: nat, length: nat)
    requires lastRead < length && i <= length
    ensures ItemSlot(lastRead, i, length) == (lastRead + 1 + i) % length
  {
    var s, slot := lastRead + 1 + i, ItemSlot(lastRead, i, length);
    RemainderOf(s, length, if s < length then 0 else if s < 2 * length then 1 else 2, slot);
  }

  lemma RemainderOf(n: nat, d: nat, times: nat, rest: nat)
    requires rest < d && n == times * d + rest
    ensures n % d == rest
  {
    var q, left := n / d, n % d;
    assert n == q * d + left;
    assert (q - times) * d == rest - left && (times - q) * d == left - rest;
    NotNegative(q - times, d);
    NotNegative(times - q, d);
  }

  lemma NotNegative(k: int, d: int)
    requires d > 0 && k * d > -d
    ensures k >= 0
  {
  }

  // One more byte of the item.
  lemma CopyStep(bytes: seq<Byte>, offset: nat, item: Item, i: nat)
    requires offset + |item| <= |bytes| && i < |item|
    ensures (bytes[..offset] + item[..i] + bytes[offset + i..])[offset + i := item[i]]
         == bytes[..offset] + item[..i + 1] + bytes[offset + i + 1..]
  {
  }

  function SlotBefore(slot: nat, length: nat): (before: nat)
    requires slot < length
    ensures before < length && ItemSlot(before, 0, length) == slot
  {
    if slot == 0 then length - 1 else slot - 1
  }

  predicate SlotHolds(bytes: seq<Byte>, itemSize: nat, slot: nat, item: Item) {
    && 0 <= slot * itemSize <= slot * itemSize + itemSize <= |bytes|
    && bytes[slot * itemSize..slot * itemSize + itemSize] == item
  }

  predicate RingHolds(bytes: seq<Byte>, length: nat, itemSize: nat, lastRead: nat, items: seq<Item>)
    requires lastRead < length
  {
    && |items| <= length && |bytes| == length * itemSize
    && forall i :: 0 <= i < |items| ==> SlotHolds(bytes, itemSize, ItemSlot(lastRead, i, length), items[i])
  }

  // The storage after one item is copied into a slot.
  function Written(bytes: seq<Byte>, itemSize: nat, slot: nat, item: Item): seq<Byte>
    requires 0 <= slot * itemSize <= slot * itemSize + itemSize <= |bytes|
  {
    bytes[..slot * itemSize] + item + bytes[slot * itemSize + itemSize..]
  }

  lemma ProductOrder(a: nat, b: nat, size: nat)
    requires a <= b
    ensures 0 <= a * size <= b * size
    ensures a > 0 ==> (a - 1) * size == a * size - size && (a - 1) * size >= 0
  {
  }

  lemma NextSlotOffset(slot: nat, length: nat, size: nat)
    requires slot < length && size > 0
    ensures ItemSlot(slot, 0, length) * size
         == if slot * size + size >= length * size then 0 else slot * size + size
  {
    assert (slot + 1) * size == slot * size + size;
    if slot + 1 < length { ProductOrder(slot + 2, length, size); }
  }

  lemma PreviousSlotOffset(slot: nat, length: nat, size: nat)
    requires slot < length && size > 0
    ensures slot == 0 ==> slot * size < size && SlotBefore(slot, length) * size == length * size - size
    ensures slot > 0 ==> slot * size >= size && SlotBefore(slot, length) * size == slot * size - size
  {
    if slot > 0 { ProductOrder(1, slot, size); }
  }

  // Copying an item into one slot leaves every other slot as it was.
  lemma WrittenSlots(bytes: seq<Byte>, size: nat, slot: nat, item: Item, other: nat, x: Item)
    requires 0 <= slot * size <= slot * size + size <= |bytes| && |item| == size
    ensures SlotHolds(Written(bytes, size, slot, item), size, slot, item)
    ensures other != slot && SlotHolds(bytes, size, other, x) ==>
      SlotHolds(Written(bytes, size, slot, item), size, other, x)
  {
    var after := Written(bytes, size, slot, item);
    if other != slot && SlotHolds(bytes, size, other, x) {
      if other < slot { ProductOrder(other + 1, slot, size); } else { ProductOrder(slot + 1, other, size); }
      assert after[other * size..other * size + size] == bytes[other * size..other * size + size];
    }
  }

  lemma Appended(bytes: seq<Byte>, length: nat, size: nat, lastRead: nat, items: seq<Item>, item: Item)
    requires lastRead < length && RingHolds(bytes, length, size, lastRead, items)
    requires |items| < length && |item| == size
    ensures var slot := ItemSlot(lastRead, |items|, length);
            && 0 <= slot * size <= slot * size + size <= |bytes|
            && RingHolds(Written(bytes, size, slot, item), length, size, lastRead, items + [item])
            && ItemSlot(slot, 0, length) == ItemSlot(lastRead, |items| + 1, length)
  {
    var slot := ItemSlot(lastRead, |items|, length);
    ProductOrder(slot + 1, length, size);
    forall i | 0 <= i < |items| + 1
      ensures SlotHolds(Written(bytes, size, slot, item), size, ItemSlot(lastRead, i, length), (items + [item])[i])
    {
      var other := ItemSlot(lastRead, i, length);
      WrittenSlots(bytes, size, slot, item, other, (items + [item])[i]);
    }
  }

  lemma Prepended(bytes: seq<Byte>, length: nat, size: nat, lastRead: nat, items: seq<Item>, item: Item)
    requires lastRead < length && |items| < length && |item| == size && |bytes| == length * size
    requires forall i :: 0 <= i < |items| ==> SlotHolds(bytes, size, ItemSlot(lastRead, i, length), items[i])
    ensures var before := SlotBefore(lastRead, length);
            && 0 <= lastRead * size <= lastRead * size + size <= |bytes|
            && RingHolds(Written(bytes, size, lastRead, item), length, size, before, [item] + items)
            && ItemSlot(before, |items| + 1, length) == ItemSlot(lastRead, |items|, length)
  {
    var before := SlotBefore(lastRead, length);
    ProductOrder(lastRead + 1, length, size);
    forall i | 0 <= i < |items| + 1
      ensures SlotHolds(Written(bytes, size, lastRead, item), size, ItemSlot(before, i, length), ([item] + items)[i])
    {
      var other := ItemSlot(before, i, length);
      WrittenSlots(bytes, size, lastRead, item, other, ([item] + items)[i]);
      if i > 0 { assert other == ItemSlot(lastRead, i - 1, length); }
    }
  }

  lemma Popped(bytes: seq<Byte>, length: nat, size: nat, lastRead: nat, items: seq<Item>)
    requires lastRead < length && RingHolds(bytes, length, size, lastRead, items) && items != []
    ensures var next := ItemSlot(lastRead, 0, length);
            && RingHolds(bytes, length, size, next, items[1..])
            && ItemSlot(next, |items| - 1, length) == ItemSlot(lastRead, |items|, length)
  {
    var next := ItemSlot(lastRead, 0, length);
    forall i | 0 <= i < |items| - 1 ensures SlotHolds(bytes, size, ItemSlot(next, i, length), items[1..][i]) {
      assert ItemSlot(next, i, length) == ItemSlot(lastRead, i + 1, length);
      assert items[1..][i] == items[i + 1];
    }
  }
}
