/**
 What stream_buffer.c does to the bytes it holds: a byte stream, or messages framed by their length. Whole messages
 come out in the order they went in, whatever is refused on the way.
 */
module StreamModel {
  import opened Arithmetic
  import opened Bytes

  // A buffer of `length` bytes holds one less. `lengthBytes` is the size of configMESSAGE_BUFFER_LENGTH_TYPE, zero
  // in a buffer of bytes rather than messages.
  datatype Buffer = Buffer(contents: seq<Byte>, length: nat, lengthBytes: nat)

  predicate Sound(b: Buffer) {
    |b.contents| < b.length
  }

  function Space(b: Buffer): int {
    b.length - 1 - |b.contents|
  }

  // prvWriteMessageToBuffer, given the space there is.
  function Send(b: Buffer, data: seq<Byte>): Buffer
    requires Sound(b)
  {
    if b.lengthBytes == 0 then b.(contents := b.contents + data[..Min(|data|, Space(b))])
    else if Space(b) < |data| + b.lengthBytes then b
    else b.(contents := b.contents + Encode(|data|, b.lengthBytes) + data)
  }

  function SentCount(b: Buffer, data: seq<Byte>): nat
    requires Sound(b)
  {
    if b.lengthBytes == 0 then Min(|data|, Space(b))
    else if Space(b) < |data| + b.lengthBytes then 0
    else |data|
  }

  // xStreamBufferReceive without waiting, with room for `max` bytes: how many bytes leave the buffer, and which of
  // them reach the caller.
  function Leaves(b: Buffer, max: nat): (n: nat)
    ensures n <= |b.contents|
  {
    if b.lengthBytes == 0 then Min(|b.contents|, max)
    else if |b.contents| <= b.lengthBytes then 0
    else
      var next := Decode(b.contents[..b.lengthBytes]);
      if next > max then 0 else b.lengthBytes + Min(|b.contents| - b.lengthBytes, next)
  }

  function Receive(b: Buffer, max: nat): Buffer {
    b.(contents := b.contents[Leaves(b, max)..])
  }

  function Received(b: Buffer, max: nat): seq<Byte> {
    var n := Leaves(b, max);
    if n == 0 then [] else b.contents[Min(n, b.lengthBytes)..n]
  }

  // xStreamBufferNextMessageLengthBytes
  function NextMessageLength(b: Buffer): nat {
    if b.lengthBytes == 0 || |b.contents| <= b.lengthBytes then 0 else Decode(b.contents[..b.lengthBytes])
  }

  // ----- framing

  function Frame(message: seq<Byte>, lengthBytes: nat): seq<Byte> {
    Encode(|message|, lengthBytes) + message
  }

  function Frames(messages: seq<seq<Byte>>, lengthBytes: nat): seq<Byte> {
    if messages == [] then [] else Frame(messages[0], lengthBytes) + Frames(messages[1..], lengthBytes)
  }

  // Non-empty, and its length fits the length type.
  predicate Proper(message: seq<Byte>, lengthBytes: nat) {
    0 < |message| < Power(lengthBytes)
  }

  // A message buffer that holds just these messages.
  ghost predicate Holds(b: Buffer, messages: seq<seq<Byte>>) {
    && Sound(b) && b.lengthBytes > 0
    && b.contents == Frames(messages, b.lengthBytes)
    && forall m :: m in messages ==> Proper(m, b.lengthBytes)
  }

  lemma {:induction false} FramesAppend(messages: seq<seq<Byte>>, m: seq<Byte>, lengthBytes: nat)
    ensures Frames(messages + [m], lengthBytes) == Frames(messages, lengthBytes) + Frame(m, lengthBytes)
  {
    var last := Frame(m, lengthBytes);
    if messages == [] {
      assert ([] + [m])[1..] == [] && last + [] == [] + last;
    } else {
      FramesAppend(messages[1..], m, lengthBytes);
      var first, rest := Frame(messages[0], lengthBytes), Frames(messages[1..], lengthBytes);
      assert (messages + [m])[0] == messages[0] && (messages + [m])[1..] == messages[1..] + [m];
      assert first + (rest + last) == first + rest + last;
    }
  }

  // A send stores the whole message or nothing, and says which.
  lemma SendKeepsFrames(b: Buffer, messages: seq<seq<Byte>>, m: seq<Byte>)
    requires Holds(b, messages) && Proper(m, b.lengthBytes)
    ensures if SentCount(b, m) == 0 then Send(b, m) == b
            else SentCount(b, m) == |m| && Holds(Send(b, m), messages + [m])
    ensures SentCount(b, m) > 0 <==> Space(b) >= b.lengthBytes + |m|
  {
    FramesAppend(messages, m, b.lengthBytes);
    if Space(b) >= b.lengthBytes + |m| {
      assert Send(b, m).contents == b.contents + Frame(m, b.lengthBytes);
    }
  }

  // What the next length bytes say is the length of the next message.
  lemma NextLength(b: Buffer, messages: seq<seq<Byte>>)
    requires Holds(b, messages)
    ensures NextMessageLength(b) == if messages == [] then 0 else |messages[0]|
    ensures messages != [] ==> |b.contents| >= b.lengthBytes + |messages[0]|
    ensures messages != [] ==> b.contents[..b.lengthBytes] == Encode(|messages[0]|, b.lengthBytes)
    ensures messages != [] ==> b.contents[b.lengthBytes..b.lengthBytes + |messages[0]|] == messages[0]
    ensures messages != [] ==>
      b.contents[b.lengthBytes + |messages[0]|..] == Frames(messages[1..], b.lengthBytes)
  {
    if messages != [] {
      assert messages[0] in messages;
      CodeRoundTrip(|messages[0]|, b.lengthBytes);
      var length, rest := Encode(|messages[0]|, b.lengthBytes), Frames(messages[1..], b.lengthBytes);
      assert b.contents == length + messages[0] + rest;
      assert b.contents[..b.lengthBytes] == length;
    }
  }

  // A receive takes the first message whole, or leaves everything when there is none or it is too long for the
  // caller.
  lemma ReceiveTakesFrame(b: Buffer, messages: seq<seq<Byte>>, max: nat)
    requires Holds(b, messages)
    ensures if messages == [] || |messages[0]| > max then Receive(b, max) == b && Received(b, max) == []
            else Received(b, max) == messages[0] && Holds(Receive(b, max), messages[1..])
  {
    NextLength(b, messages);
    if messages == [] || |messages[0]| > max {
      assert b.contents[0..] == b.contents;
    } else {
      assert messages[0] in messages;
      assert Leaves(b, max) == b.lengthBytes + |messages[0]|;
    }
  }

  // ----- whole runs of operations, one at a time

  datatype Operation = SendMessage(message: seq<Byte>) | ReceiveMessage(max: nat)

  // The messages a run has accepted and delivered, in order.
  datatype Log = Log(accepted: seq<seq<Byte>>, delivered: seq<seq<Byte>>)

  function Apply(b: Buffer, log: Log, operation: Operation): (Buffer, Log)
    requires Sound(b)
  {
    match operation
    case SendMessage(m) =>
      (Send(b, m), if SentCount(b, m) > 0 then log.(accepted := log.accepted + [m]) else log)
    case ReceiveMessage(max) =>
      var got := Received(b, max);
      (Receive(b, max), if got != [] then log.(delivered := log.delivered + [got]) else log)
  }

  lemma SendStaysSound(b: Buffer, data: seq<Byte>)
    requires Sound(b)
    ensures Sound(Send(b, data)) && Send(b, data).length == b.length
    ensures Space(Send(b, data)) + |Send(b, data).contents| == b.length - 1
  {
  }

  function Run(b: Buffer, log: Log, run: seq<Operation>): (Buffer, Log)
    requires Sound(b)
    decreases |run|
  {
    if run == [] then (b, log)
    else
      assert run[0].SendMessage? ==> Sound(Send(b, run[0].message)) by {
        if run[0].SendMessage? { SendStaysSound(b, run[0].message); }
      }
      var (next, longer) := Apply(b, log, run[0]);
      Run(next, longer, run[1..])
  }

  ghost predicate ProperRun(run: seq<Operation>, lengthBytes: nat) {
    forall i :: 0 <= i < |run| && run[i].SendMessage? ==> Proper(run[i].message, lengthBytes)
  }

  // The accepted messages are those delivered, followed by those held.
  ghost predicate Faithful(b: Buffer, log: Log) {
    exists held :: Holds(b, held) && log.accepted == log.delivered + held
  }

  lemma SendStaysFaithful(b: Buffer, log: Log, held: seq<seq<Byte>>, m: seq<Byte>)
    requires Holds(b, held) && log.accepted == log.delivered + held && Proper(m, b.lengthBytes)
    ensures var (next, longer) := Apply(b, log, SendMessage(m)); Faithful(next, longer)
  {
    var (next, longer) := Apply(b, log, SendMessage(m));
    SendKeepsFrames(b, held, m);
    if SentCount(b, m) > 0 {
      assert longer.accepted == longer.delivered + (held + [m]);
      assert Holds(next, held + [m]);
    } else {
      assert Holds(next, held);
    }
  }

  lemma DeliveredFirst(accepted: seq<seq<Byte>>, delivered: seq<seq<Byte>>, held: seq<seq<Byte>>)
    requires accepted == delivered + held && held != []
    ensures accepted == delivered + [held[0]] + held[1..] && held[0] in held
  {
  }

  lemma ReceiveStaysFaithful(b: Buffer, log: Log, held: seq<seq<Byte>>, max: nat)
    requires Holds(b, held) && log.accepted == log.delivered + held
    ensures Faithful(Apply(b, log, ReceiveMessage(max)).0, Apply(b, log, ReceiveMessage(max)).1)
  {
    var next := Receive(b, max);
    ReceiveTakesFrame(b, held, max);
    if held == [] || |held[0]| > max {
      assert Apply(b, log, ReceiveMessage(max)) == (next, log);
    } else {
      DeliveredFirst(log.accepted, log.delivered, held);
      assert Proper(held[0], b.lengthBytes);
      assert Apply(b, log, ReceiveMessage(max)) == (next, log.(delivered := log.delivered + [held[0]]));
      assert Holds(next, held[1..]);
    }
  }

  lemma ApplyStaysFaithful(b: Buffer, log: Log, operation: Operation)
    requires Faithful(b, log)
    requires operation.SendMessage? ==> Proper(operation.message, b.lengthBytes)
    ensures var (next, longer) := Apply(b, log, operation);
            Faithful(next, longer) && next.lengthBytes == b.lengthBytes && next.length == b.length
  {
    var held :| Holds(b, held) && log.accepted == log.delivered + held;
    match operation
    case SendMessage(m) => SendStaysFaithful(b, log, held, m);
    case ReceiveMessage(max) => ReceiveStaysFaithful(b, log, held, max);
  }

  lemma {:induction false} RunStaysFaithful(b: Buffer, log: Log, run: seq<Operation>)
    requires Faithful(b, log) && ProperRun(run, b.lengthBytes)
    ensures var (last, whole) := Run(b, log, run);
            Faithful(last, whole) && last.length == b.length && last.lengthBytes == b.lengthBytes
    decreases |run|
  {
    if run != [] {
      ApplyStaysFaithful(b, log, run[0]);
      var (next, longer) := Apply(b, log, run[0]);
      assert ProperRun(run[1..], b.lengthBytes);
      RunStaysFaithful(next, longer, run[1..]);
    }
  }

  // From an empty message buffer, whatever is sent and received: the receives return exactly the accepted messages,
  // whole and in order, as far as they have got; the buffer frames the rest and has the rest of its bytes free.
  lemma MessagesInOrder(length: nat, lengthBytes: nat, run: seq<Operation>)
    requires length > 0 && lengthBytes > 0 && ProperRun(run, lengthBytes)
    ensures var (b, log) := Run(Buffer([], length, lengthBytes), Log([], []), run);
            && log.delivered <= log.accepted
            && b.contents == Frames(log.accepted[|log.delivered|..], lengthBytes)
            && Space(b) + |b.contents| == length - 1 && Space(b) >= 0
  {
    var b := Buffer([], length, lengthBytes);
    assert Holds(b, []);
    assert Log([], []).accepted == Log([], []).delivered + [];
    RunStaysFaithful(b, Log([], []), run);
    var (last, log) := Run(b, Log([], []), run);
    var held :| Holds(last, held) && log.accepted == log.delivered + held;
    assert held == log.accepted[|log.delivered|..];
  }

  // ----- bytes rather than messages

  // A send to a byte stream stores as many of the first bytes as there is room for, behind those held.
  lemma SendStoresPrefix(b: Buffer, data: seq<Byte>)
    requires Sound(b) && b.lengthBytes == 0
    ensures SentCount(b, data) == Min(|data|, Space(b)) <= |data|
    ensures Send(b, data) == b.(contents := b.contents + data[..SentCount(b, data)])
  {
  }

  // A receive takes as many of the first bytes as the caller has room for.
  lemma ReceiveTakesFirst(b: Buffer, max: nat)
    requires b.lengthBytes == 0
    ensures |Received(b, max)| == Min(|b.contents|, max) && Receive(b, max).lengthBytes == 0
    ensures b.contents == Received(b, max) + Receive(b, max).contents
  {
  }

  datatype ByteOperation = SendBytes(data: seq<Byte>) | ReceiveBytes(max: nat)

  // What a run of sends has stored, by the data given to each and the count it returned, and what receives returned.
  function SentIn(b: Buffer, run: seq<ByteOperation>): seq<Byte>
    requires Sound(b)
    decreases |run|
  {
    if run == [] then []
    else if run[0].SendBytes? then
      var data := run[0].data;
      SendStaysSound(b, data);
      data[..Min(SentCount(b, data), |data|)] + SentIn(Send(b, data), run[1..])
    else SentIn(Receive(b, run[0].max), run[1..])
  }

  function ReceivedIn(b: Buffer, run: seq<ByteOperation>): seq<Byte>
    requires Sound(b)
    decreases |run|
  {
    if run == [] then []
    else if run[0].SendBytes? then
      SendStaysSound(b, run[0].data);
      ReceivedIn(Send(b, run[0].data), run[1..])
    else Received(b, run[0].max) + ReceivedIn(Receive(b, run[0].max), run[1..])
  }

  function AfterBytes(b: Buffer, run: seq<ByteOperation>): Buffer
    requires Sound(b)
    decreases |run|
  {
    if run == [] then b
    else if run[0].SendBytes? then
      SendStaysSound(b, run[0].data);
      AfterBytes(Send(b, run[0].data), run[1..])
    else AfterBytes(Receive(b, run[0].max), run[1..])
  }

  lemma {:induction false} BytesConserved(b: Buffer, run: seq<ByteOperation>)
    requires Sound(b) && b.lengthBytes == 0
    ensures b.contents + SentIn(b, run) == ReceivedIn(b, run) + AfterBytes(b, run).contents
    decreases |run|
  {
    if run == [] {
    } else if run[0].SendBytes? {
      var data := run[0].data;
      SendStaysSound(b, data);
      SendStoresPrefix(b, data);
      BytesConserved(Send(b, data), run[1..]);
      assert b.contents + (data[..SentCount(b, data)] + SentIn(Send(b, data), run[1..]))
          == b.contents + data[..SentCount(b, data)] + SentIn(Send(b, data), run[1..]);
    } else {
      var next, got := Receive(b, run[0].max), Received(b, run[0].max);
      ReceiveTakesFirst(b, run[0].max);
      BytesConserved(next, run[1..]);
      assert got + next.contents + SentIn(next, run[1..]) == got + (next.contents + SentIn(next, run[1..]));
      assert got + ReceivedIn(next, run[1..]) + AfterBytes(next, run[1..]).contents
          == got + (ReceivedIn(next, run[1..]) + AfterBytes(next, run[1..]).contents);
    }
  }

  // From an empty byte stream: what the receives have returned, followed by what is held, is what the callers of the
  // sends were told is stored, byte for byte and in order.
  lemma BytesInOrder(length: nat, run: seq<ByteOperation>)
    requires length > 0
    ensures var b := Buffer([], length, 0); ReceivedIn(b, run) + AfterBytes(b, run).contents == SentIn(b, run)
  {
    BytesConserved(Buffer([], length, 0), run);
    assert [] + SentIn(Buffer([], length, 0), run) == SentIn(Buffer([], length, 0), run);
  }

  // A message alone in the buffer comes back whole exactly when its length fits the length type: no send checks it.
  lemma OversizeIsCut(b: Buffer, m: seq<Byte>, max: nat)
    requires b.contents == [] && b.lengthBytes > 0 && m != [] && |m| <= max
    requires b.length - 1 >= b.lengthBytes + |m|
    ensures Received(Send(b, m), max) == m <==> |m| < Power(b.lengthBytes)
  {
    var sent, length := Send(b, m), Encode(|m|, b.lengthBytes);
    assert sent.contents == length + m && sent.contents[..b.lengthBytes] == length;
    CodeRoundTrip(|m|, b.lengthBytes);
    DecodeAtMost(|m|, b.lengthBytes);
    var n := Decode(length);
    assert Received(sent, max) == m[..n];
  }
}
