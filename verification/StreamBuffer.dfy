/** The stream buffer in its storage: a head, a tail, and copies that wrap in two parts. */
module StreamBuffer {
  import opened Arithmetic
  import opened Bytes
  import opened StreamModel

  // The bytes from tail to head, around the end of the storage.
  function Region(bytes: seq<Byte>, tail: nat, head: nat): seq<Byte>
    requires tail < |bytes| && head < |bytes|
  {
    if tail <= head then bytes[tail..head] else bytes[tail..] + bytes[..head]
  }

  // An index moved on by `count`, wrapped at most once.
  function Moved(index: nat, count: nat, length: nat): nat
    requires length > 0 && index < length && count <= length
  {
    if index + count >= length then index + count - length else index + count
  }

  // The two parts of a write.
  function Written(bytes: seq<Byte>, head: nat, data: seq<Byte>): (r: seq<Byte>)
    requires head < |bytes| && |data| <= |bytes|
    ensures |r| == |bytes|
  {
    var first := Min(|bytes| - head, |data|);
    Splice(Splice(bytes, head, data[..first]), 0, data[first..])
  }

  lemma WrittenWithoutWrap(bytes: seq<Byte>, head: nat, data: seq<Byte>)
    requires head + |data| <= |bytes| && head < |bytes|
    ensures Written(bytes, head, data) == Splice(bytes, head, data)
  {
    assert data[..|data|] == data && data[|data|..] == [];
    var s := Splice(bytes, head, data);
    assert Splice(s, 0, []) == s;
  }

  lemma AppendsBehindTail(bytes: seq<Byte>, tail: nat, head: nat, data: seq<Byte>)
    requires tail <= head && head + |data| < |bytes|
    ensures Splice(bytes, head, data)[tail..head + |data|] == bytes[tail..head] + data
  {
  }

  lemma AppendsBeforeTail(bytes: seq<Byte>, tail: nat, head: nat, data: seq<Byte>)
    requires head + |data| < tail < |bytes|
    ensures Splice(bytes, head, data)[tail..] == bytes[tail..]
    ensures Splice(bytes, head, data)[..head + |data|] == bytes[..head] + data
  {
  }

  lemma FillsToEnd(bytes: seq<Byte>, tail: nat, head: nat, data: seq<Byte>)
    requires tail <= head && head + |data| == |bytes|
    ensures Splice(bytes, head, data)[tail..] == bytes[tail..head] + data
  {
  }

  lemma FillsFromStart(bytes: seq<Byte>, tail: nat, data: seq<Byte>)
    requires |data| <= tail <= |bytes|
    ensures Splice(bytes, 0, data)[..|data|] == data
    ensures Splice(bytes, 0, data)[tail..] == bytes[tail..]
  {
  }

  lemma AppendsAroundEnd(bytes: seq<Byte>, tail: nat, head: nat, data: seq<Byte>)
    requires tail <= head < |bytes| <= head + |data| < |bytes| + tail
    ensures var w := Written(bytes, head, data);
            w[tail..] + w[..head + |data| - |bytes|] == bytes[tail..head] + data
  {
    var first := |bytes| - head;
    var front, rest := data[..first], data[first..];
    FillsToEnd(bytes, tail, head, front);
    FillsFromStart(Splice(bytes, head, front), tail, rest);
    Regroup(bytes[tail..head], front, rest);
    assert front + rest == data;
  }

  // A write into the free space appends, wherever it wraps.
  lemma AppendsWithoutWrap(bytes: seq<Byte>, tail: nat, head: nat, data: seq<Byte>)
    requires tail < |bytes| && head + |data| < |bytes|
    requires |Region(bytes, tail, head)| + |data| < |bytes|
    ensures Region(Written(bytes, head, data), tail, head + |data|) == Region(bytes, tail, head) + data
  {
    WrittenWithoutWrap(bytes, head, data);
    if tail <= head {
      AppendsBehindTail(bytes, tail, head, data);
    } else {
      AppendsBeforeTail(bytes, tail, head, data);
      Regroup(bytes[tail..], bytes[..head], data);
    }
  }

  lemma Regroup(a: seq<Byte>, b: seq<Byte>, c: seq<Byte>)
    ensures a + (b + c) == a + b + c
  {
  }

  lemma WriteAppends(bytes: seq<Byte>, tail: nat, head: nat, data: seq<Byte>)
    requires tail < |bytes| && head < |bytes|
    requires |Region(bytes, tail, head)| + |data| < |bytes|
    ensures Region(Written(bytes, head, data), tail, Moved(head, |data|, |bytes|)) == Region(bytes, tail, head) + data
  {
    if head + |data| < |bytes| {
      AppendsWithoutWrap(bytes, tail, head, data);
    } else {
      AppendsAroundEnd(bytes, tail, head, data);
    }
  }

  lemma ReadTakesBehind(bytes: seq<Byte>, tail: nat, head: nat, count: nat)
    requires tail + count <= head < |bytes|
    ensures bytes[tail..head][..count] == bytes[tail..tail + count]
    ensures bytes[tail..head][count..] == bytes[tail + count..head]
  {
  }

  lemma ReadTakesAround(bytes: seq<Byte>, tail: nat, head: nat, count: nat)
    requires head < tail < |bytes| && count <= |bytes| - tail + head
    ensures var held, first := bytes[tail..] + bytes[..head], Min(|bytes| - tail, count);
            && held[..count] == bytes[tail..tail + first] + bytes[..count - first]
            && held[count..] == Region(bytes, Moved(tail, count, |bytes|), head)
  {
    var held, back := bytes[tail..] + bytes[..head], |bytes| - tail;
    if count <= back {
      assert held[..count] == bytes[tail..tail + count] && bytes[..0] == [];
      assert held[count..] == bytes[tail + count..] + bytes[..head];
    } else {
      assert held[..count] == bytes[tail..] + bytes[..count - back];
      assert held[count..] == bytes[count - back..head];
    }
  }

  // The two parts of a read.
  function Taken(bytes: seq<Byte>, tail: nat, count: nat): seq<Byte>
    requires tail < |bytes| && count <= |bytes|
  {
    var first := Min(|bytes| - tail, count);
    bytes[tail..tail + first] + bytes[..count - first]
  }

  // A read from the tail takes the first bytes.
  lemma ReadTakes(bytes: seq<Byte>, tail: nat, head: nat, count: nat)
    requires tail < |bytes| && head < |bytes| && count <= |Region(bytes, tail, head)|
    ensures Region(bytes, tail, head)[..count] == Taken(bytes, tail, count)
    ensures Region(bytes, Moved(tail, count, |bytes|), head) == Region(bytes, tail, head)[count..]
  {
    if tail <= head {
      ReadTakesBehind(bytes, tail, head, count);
      assert bytes[..0] == [] && bytes[tail..tail + count] + [] == bytes[tail..tail + count];
    } else {
      ReadTakesAround(bytes, tail, head, count);
    }
  }

  // Reading a message in two steps, its length first; a message too long for the caller is read as nothing.
  lemma MessageRead(before: Buffer, middle: Buffer, max: nat, n: nat)
    requires |before.contents| > before.lengthBytes
    requires var next := Decode(before.contents[..before.lengthBytes]);
             if before.lengthBytes == 0 then middle == before && n == Min(|before.contents|, max)
             else if next > max then middle == before && n == 0
             else && middle == before.(contents := before.contents[before.lengthBytes..])
                  && n == Min(|middle.contents|, next)
    ensures n <= |middle.contents|
    ensures middle.(contents := middle.contents[n..]) == StreamModel.Receive(before, max)
    ensures middle.contents[..n] == Received(before, max)
  {
    var all, k := before.contents, before.lengthBytes;
    if k != 0 && Decode(all[..k]) <= max {
      assert all[k..][..n] == all[k..k + n] && all[k..][n..] == all[k + n..];
    } else {
      assert all[0..] == all;
    }
  }

  class StreamBuffer {
    const buffer: array<Byte>  // pucBuffer
    const length: nat          // xLength
    const lengthBytes: nat     // sbBYTES_TO_STORE_MESSAGE_LENGTH of a message buffer, otherwise zero
    var head: nat              // xHead
    var tail: nat              // xTail
    var taskWaitingToReceive: bool
    var taskWaitingToSend: bool

    ghost predicate Valid()
      reads this
    {
      buffer.Length == length > 0 && head < length && tail < length
    }

    ghost function State(): Buffer
      reads this, buffer
      requires Valid()
    {
      Buffer(Region(buffer[..], tail, head), length, lengthBytes)
    }

    // xStreamBufferGenericCreate asks for one byte more than the buffer is to hold.
    constructor (size: nat, lengthBytes: nat)
      requires size > lengthBytes
      ensures Valid() && State() == Buffer([], size + 1, lengthBytes) && fresh(buffer)
      ensures !taskWaitingToReceive && !taskWaitingToSend
    {
      this.length, this.lengthBytes := size + 1, lengthBytes;
      buffer := new Byte[size + 1](_ => 0);
      head, tail := 0, 0;
      taskWaitingToReceive, taskWaitingToSend := false, false;
    }

    // xStreamBufferReset: refused while a task waits on the buffer.
    method Reset() returns (passed: bool)
      requires Valid()
      modifies this`head, this`tail
      ensures Valid() && passed == (!taskWaitingToReceive && !taskWaitingToSend)
      ensures State() == if passed then old(State()).(contents := []) else old(State())
    {
      passed := false;
      if !taskWaitingToReceive {
        if !taskWaitingToSend {
          head, tail := 0, 0;
          passed := true;
        }
      }
    }

    // prvBytesInBuffer
    method BytesInBuffer() returns (count: nat)
      requires Valid()
      ensures count == |State().contents|
    {
      count := length + head - tail;
      if count >= length {
        count := count - length;
      }
    }

    // xStreamBufferSpacesAvailable
    method SpacesAvailable() returns (space: nat)
      requires Valid()
      ensures space == Space(State())
    {
      space := length + tail - head - 1;
      if space >= length {
        space := space - length;
      }
    }

    // memcpy into the buffer.
    method CopyIn(at: nat, data: seq<Byte>)
      requires at + |data| <= buffer.Length
      modifies buffer
      ensures buffer[..] == Splice(old(buffer[..]), at, data)
    {
      forall i | 0 <= i < |data| {
        buffer[at + i] := data[i];
      }
      assert buffer[..at] == old(buffer[..at]) && buffer[at..at + |data|] == data;
      assert buffer[at + |data|..] == old(buffer[at + |data|..]);
      assert buffer[..] == buffer[..at] + buffer[at..at + |data|] + buffer[at + |data|..];
    }

    // prvWriteBytesToBuffer
    method WriteBytes(data: seq<Byte>) returns (written: nat)
      requires Valid() && 0 < |data| <= Space(State())
      modifies this`head, buffer
      ensures Valid() && written == |data|
      ensures State() == old(State()).(contents := old(State()).contents + data)
    {
      ghost var bytes := buffer[..];
      WriteAppends(bytes, tail, head, data);
      var nextHead, firstLength := head, Min(length - head, |data|);
      CopyIn(nextHead, data[..firstLength]);
      if |data| > firstLength {
        CopyIn(0, data[firstLength..]);
      } else {
        assert Splice(buffer[..], 0, data[firstLength..]) == buffer[..];
      }
      assert buffer[..] == Written(bytes, nextHead, data);
      nextHead := nextHead + |data|;
      if nextHead >= length {
        nextHead := nextHead - length;
      }
      head := nextHead;
      written := |data|;
    }

    // prvReadBytesFromBuffer
    method ReadBytes(maxCount: nat, bytesAvailable: nat) returns (data: seq<Byte>)
      requires Valid() && bytesAvailable <= |State().contents|
      modifies this`tail
      ensures Valid() && data == old(State()).contents[..Min(bytesAvailable, maxCount)]
      ensures State() == old(State()).(contents := old(State()).contents[Min(bytesAvailable, maxCount)..])
    {
      data := [];
      var count := Min(bytesAvailable, maxCount);
      ReadTakes(buffer[..], tail, head, count);
      if count > 0 {
        data := CopyOut(count);
        var nextTail := tail + count;
        if nextTail >= length {
          nextTail := nextTail - length;
        }
        tail := nextTail;
      }
    }

    // Its one or two copies.
    method CopyOut(count: nat) returns (data: seq<Byte>)
      requires Valid() && count <= length
      ensures data == Taken(buffer[..], tail, count)
    {
      var firstLength := Min(length - tail, count);
      data := buffer[tail..tail + firstLength];
      assert data == buffer[..][tail..tail + firstLength];
      if count > firstLength {
        data := data + buffer[..count - firstLength];
      }
    }

    // The send asserts that there is a byte to write once it has decided to write.
    ghost predicate SendAllowed(data: seq<Byte>)
      reads this, buffer
      requires Valid()
    {
      data == [] ==> Space(State()) == 0 || Space(State()) < lengthBytes
    }

    // xStreamBufferSend with no time to wait, and xStreamBufferSendFromISR: the space is what there is now.
    method SendNow(data: seq<Byte>) returns (sent: nat)
      requires Valid() && SendAllowed(data)
      modifies this`head, buffer
      ensures Valid() && State() == Send(old(State()), data) && sent == SentCount(old(State()), data)
      ensures lengthBytes == 0 ==>
        && sent == Min(|data|, length - 1 - |old(State()).contents|)
        && State().contents == old(State()).contents + data[..sent]
    {
      if lengthBytes == 0 { SendStoresPrefix(State(), data); }
      var space := SpacesAvailable();
      var dataLength, shouldWrite := |data|, true;
      if space == 0 {
        shouldWrite := false;
      } else if lengthBytes == 0 {
        dataLength := Min(dataLength, space);
      } else if space >= dataLength + lengthBytes {
        var _ := WriteBytes(Encode(|data|, lengthBytes));
      } else {
        shouldWrite := false;
      }
      sent := 0;
      if shouldWrite {
        sent := WriteBytes(data[..dataLength]);
      }
    }

    // prvReadMessageFromBuffer: a message that is too long for the caller is put back by restoring the tail.
    method ReadMessage(bufferLength: nat, bytesAvailable: nat) returns (data: seq<Byte>)
      requires Valid() && bytesAvailable == |State().contents| > lengthBytes
      modifies this`tail
      ensures Valid() && State() == StreamModel.Receive(old(State()), bufferLength)
      ensures data == Received(old(State()), bufferLength)
    {
      ghost var before := State();
      ghost var all := before.contents;
      var available, nextLength := bytesAvailable, bufferLength;
      if lengthBytes != 0 {
        var originalTail := tail;
        var lengthField := ReadBytes(lengthBytes, available);
        nextLength := Decode(lengthField);
        available := available - lengthBytes;
        if nextLength > bufferLength {
          tail := originalTail;
          nextLength := 0;
        }
      }
      ghost var middle, n := State(), Min(available, nextLength);
      data := ReadBytes(nextLength, available);
      MessageRead(before, middle, bufferLength, n);
    }

    // xStreamBufferReceive with no time to wait, and xStreamBufferReceiveFromISR.
    method ReceiveNow(bufferLength: nat) returns (data: seq<Byte>)
      requires Valid()
      modifies this`tail
      ensures Valid() && State() == StreamModel.Receive(old(State()), bufferLength)
      ensures data == Received(old(State()), bufferLength)
      ensures lengthBytes == 0 ==> |data| == Min(|old(State()).contents|, bufferLength)
      ensures lengthBytes == 0 ==> old(State()).contents == data + State().contents
    {
      if lengthBytes == 0 { ReceiveTakesFirst(State(), bufferLength); }
      data := [];
      var bytesAvailable := BytesInBuffer();
      if bytesAvailable > lengthBytes {
        data := ReadMessage(bufferLength, bytesAvailable);
      }
    }

    // xStreamBufferNextMessageLengthBytes
    method NextMessageLengthBytes() returns (next: nat)
      requires Valid()
      requires lengthBytes > 0 ==> State().contents == [] || |State().contents| > lengthBytes
      modifies this`tail
      ensures Valid() && State() == old(State()) && next == NextMessageLength(State())
    {
      next := 0;
      if lengthBytes != 0 {
        var bytesAvailable := BytesInBuffer();
        if bytesAvailable > lengthBytes {
          var originalTail := tail;
          var lengthField := ReadBytes(lengthBytes, bytesAvailable);
          next := Decode(lengthField);
          tail := originalTail;
        }
      }
    }

    // xStreamBufferIsEmpty and xStreamBufferIsFull
    method IsEmpty() returns (empty: bool)
      requires Valid()
      ensures empty <==> State().contents == []
    {
      empty := head == tail;
    }

    // A message buffer is full when not even a message of one byte would fit.
    method IsFull() returns (full: bool)
      requires Valid()
      ensures full <==> forall data: seq<Byte> :: data != [] ==> SentCount(State(), data) == 0
    {
      var space := SpacesAvailable();
      full := space <= lengthBytes;
      if !full {
        assert SentCount(State(), [0]) == 1;
      }
    }
  }
}
