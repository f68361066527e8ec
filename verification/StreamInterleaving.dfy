/**
 One writer and one reader of a byte stream, interleaved between every look at the other side's index, every byte
 copied (in any order) and every publishing of an own index. No lock is held; nothing is lost, doubled or torn.
 */
module StreamInterleaving {
  import opened Arithmetic
  import opened Bytes
  import opened StreamModel
  import opened StreamBuffer

  datatype Writer =
    | WriterIdle
    | Sampling(data: seq<Byte>, space: nat)              // the space it last saw
    | Writing(data: seq<Byte>, space: nat, chunk: seq<Byte>, written: set<nat>)  // bytes of the chunk in the buffer

  datatype Reader =
    | ReaderIdle
    | Looking(max: nat, available: nat)                  // the bytes it last saw
    | Reading(target: seq<Byte>, read: set<nat>)         // the bytes already copied out

  // A send that has returned: what it was given and how many bytes it said are stored.
  datatype Sent = Sent(data: seq<Byte>, count: nat)

  datatype State = State(
    bytes: seq<Byte>,
    head: nat,
    tail: nat,
    writer: Writer,
    reader: Reader,
    sends: seq<Sent>,       // the sends so far
    sent: seq<Byte>,        // all bytes published by sends so far
    received: seq<Byte>)    // all bytes returned by receives so far

  datatype Step =
    | BeginSend(data: seq<Byte>)
    | SampleTail            // as often as the writer waits for space
    | BeginWrite
    | WriteByte(k: nat)
    | PublishHead
    | BeginReceive(max: nat)
    | SampleHead
    | BeginRead(garbage: seq<Byte>)   // what the caller's buffer held before
    | ReadByte(k: nat)
    | PublishTail

  // xStreamBufferSpacesAvailable and prvBytesInBuffer.
  function SpaceBetween(tail: nat, head: nat, length: nat): nat
    requires tail < length && head < length
  {
    var space := length + tail - head - 1;
    if space >= length then space - length else space
  }

  function BytesBetween(tail: nat, head: nat, length: nat): nat
    requires tail < length && head < length
  {
    var count := length + head - tail;
    if count >= length then count - length else count
  }

  function Created(length: nat): State
    requires length > 0
  {
    State(seq(length, _ => 0), 0, 0, WriterIdle, ReaderIdle, [], [], [])
  }

  predicate InBounds(s: State) {
    && s.head < |s.bytes| && s.tail < |s.bytes|
    && (s.writer.Writing? ==> |s.writer.chunk| <= |s.bytes|)
    && (s.reader.Reading? ==> |s.reader.target| <= |s.bytes|)
  }

  predicate Enabled(s: State, step: Step) {
    InBounds(s) &&
    match step
    case BeginSend(data) => s.writer.WriterIdle? && data != []
    case SampleTail => s.writer.Sampling?
    case BeginWrite => s.writer.Sampling? && Min(|s.writer.data|, s.writer.space) <= |s.bytes|
    case WriteByte(k) => s.writer.Writing? && k < |s.writer.chunk|
    case PublishHead => s.writer.Writing? && forall k | 0 <= k < |s.writer.chunk| :: k in s.writer.written
    case BeginReceive(_) => s.reader.ReaderIdle?
    case SampleHead => s.reader.Looking?
    case BeginRead(garbage) =>
      s.reader.Looking? && |garbage| == Min(s.reader.available, s.reader.max) <= |s.bytes|
    case ReadByte(k) => s.reader.Reading? && k < |s.reader.target|
    case PublishTail => s.reader.Reading? && forall k | 0 <= k < |s.reader.target| :: k in s.reader.read
  }

  function Next(s: State, step: Step): State
    requires Enabled(s, step)
  {
    match step
    case BeginSend(data) => s.(writer := Sampling(data, 0))
    case SampleTail => s.(writer := Sampling(s.writer.data, SpaceBetween(s.tail, s.head, |s.bytes|)))
    case BeginWrite =>
      var data, space := s.writer.data, s.writer.space;
      if space == 0 then s.(writer := WriterIdle, sends := s.sends + [Sent(data, 0)])
      else s.(writer := Writing(data, space, data[..Min(|data|, space)], {}))
    case WriteByte(k) =>
      s.(bytes := s.bytes[Moved(s.head, k, |s.bytes|) := s.writer.chunk[k]],
         writer := Writing(s.writer.data, s.writer.space, s.writer.chunk, s.writer.written + {k}))
    case PublishHead =>
      s.(head := Moved(s.head, |s.writer.chunk|, |s.bytes|), writer := WriterIdle, sent := s.sent + s.writer.chunk,
         sends := s.sends + [Sent(s.writer.data, |s.writer.chunk|)])
    case BeginReceive(max) => s.(reader := Looking(max, 0))
    case SampleHead => s.(reader := s.reader.(available := BytesBetween(s.tail, s.head, |s.bytes|)))
    case BeginRead(garbage) => s.(reader := if garbage == [] then ReaderIdle else Reading(garbage, {}))
    case ReadByte(k) =>
      s.(reader := Reading(s.reader.target[k := s.bytes[Moved(s.tail, k, |s.bytes|)]], s.reader.read + {k}))
    case PublishTail =>
      s.(tail := Moved(s.tail, |s.reader.target|, |s.bytes|), reader := ReaderIdle,
         received := s.received + s.reader.target)
  }

  // ----- what holds in every reachable state

  // The bytes held.
  function Unread(s: State): seq<Byte>
    requires InBounds(s)
  {
    Region(s.bytes, s.tail, s.head)
  }

  // What the writer saw is no more than there is, and its part of the chunk is in place.
  ghost predicate WriterOk(s: State)
    requires InBounds(s)
  {
    match s.writer
    case WriterIdle => true
    case Sampling(data, space) => |Unread(s)| + space < |s.bytes|
    case Writing(data, space, chunk, written) =>
      && |Unread(s)| + |chunk| < |s.bytes| && chunk == data[..Min(|data|, space)]
      && forall k :: 0 <= k < |chunk| && k in written ==> s.bytes[Moved(s.head, k, |s.bytes|)] == chunk[k]
  }

  // What the reader saw is no more than there is, and its copies are of the first bytes held.
  ghost predicate ReaderOk(s: State)
    requires InBounds(s)
  {
    match s.reader
    case ReaderIdle => true
    case Looking(max, available) => available <= |Unread(s)|
    case Reading(target, read) =>
      && |target| <= |Unread(s)|
      && forall k :: 0 <= k < |target| && k in read ==> target[k] == Unread(s)[k]
  }

  ghost predicate Inv(s: State) {
    && InBounds(s) && WriterOk(s) && ReaderOk(s)
    && s.sent == s.received + Unread(s)
    && CountsOk(s.sends) && s.sent == Stored(s.sends)
  }

  // No send says it stored more than it was given.
  ghost predicate CountsOk(sends: seq<Sent>) {
    forall i :: 0 <= i < |sends| ==> sends[i].count <= |sends[i].data|
  }

  // What the sends say they stored of what they were given.
  ghost function Stored(sends: seq<Sent>): seq<Byte>
    requires CountsOk(sends)
  {
    if sends == [] then []
    else
      var last := sends[|sends| - 1];
      Stored(sends[..|sends| - 1]) + last.data[..last.count]
  }

  // ----- the ring

  lemma RegionLength(bytes: seq<Byte>, tail: nat, head: nat)
    requires tail < |bytes| && head < |bytes|
    ensures |Region(bytes, tail, head)| == BytesBetween(tail, head, |bytes|)
    ensures SpaceBetween(tail, head, |bytes|) == |bytes| - 1 - |Region(bytes, tail, head)|
  {
  }

  lemma RegionAt(bytes: seq<Byte>, tail: nat, head: nat, i: nat)
    requires tail < |bytes| && head < |bytes| && i < |Region(bytes, tail, head)|
    ensures Region(bytes, tail, head)[i] == bytes[Moved(tail, i, |bytes|)]
  {
  }

  // The free slots behind the head are none of those that hold unread bytes.
  lemma InFlightApart(bytes: seq<Byte>, tail: nat, head: nat, k: nat, i: nat)
    requires tail < |bytes| && head < |bytes| && i < |Region(bytes, tail, head)|
    requires |Region(bytes, tail, head)| + k < |bytes|
    ensures Moved(head, k, |bytes|) != Moved(tail, i, |bytes|)
  {
  }

  lemma RegionUntouched(bytes: seq<Byte>, tail: nat, head: nat, k: nat, b: Byte)
    requires tail < |bytes| && head < |bytes| && |Region(bytes, tail, head)| + k < |bytes|
    ensures Region(bytes[Moved(head, k, |bytes|) := b], tail, head) == Region(bytes, tail, head)
  {
    var after := bytes[Moved(head, k, |bytes|) := b];
    forall i | 0 <= i < |Region(bytes, tail, head)|
      ensures Region(after, tail, head)[i] == Region(bytes, tail, head)[i]
    {
      RegionAt(bytes, tail, head, i);
      RegionAt(after, tail, head, i);
      InFlightApart(bytes, tail, head, k, i);
    }
  }

  lemma RegionGrows(bytes: seq<Byte>, tail: nat, head: nat, chunk: seq<Byte>)
    requires tail < |bytes| && head < |bytes| && |Region(bytes, tail, head)| + |chunk| < |bytes|
    requires forall k :: 0 <= k < |chunk| ==> bytes[Moved(head, k, |bytes|)] == chunk[k]
    ensures Region(bytes, tail, Moved(head, |chunk|, |bytes|)) == Region(bytes, tail, head) + chunk
  {
    var before, after := Region(bytes, tail, head), Region(bytes, tail, Moved(head, |chunk|, |bytes|));
    assert |after| == |before| + |chunk|;
    forall i | 0 <= i < |after| ensures after[i] == (before + chunk)[i] {
      RegionAt(bytes, tail, Moved(head, |chunk|, |bytes|), i);
      if i < |before| {
        RegionAt(bytes, tail, head, i);
      } else {
        assert Moved(tail, i, |bytes|) == Moved(head, i - |before|, |bytes|);
      }
    }
  }

  // ----- every step keeps the invariant

  lemma WriteByteKeeps(s: State, k: nat)
    requires Inv(s) && Enabled(s, WriteByte(k))
    ensures Inv(Next(s, WriteByte(k)))
  {
    RegionUntouched(s.bytes, s.tail, s.head, k, s.writer.chunk[k]);
    var r := Next(s, WriteByte(k));
    assert Unread(r) == Unread(s);
    forall j | 0 <= j < |s.writer.chunk| && j in r.writer.written
      ensures r.bytes[Moved(s.head, j, |s.bytes|)] == s.writer.chunk[j]
    {
      assert j != k ==> Moved(s.head, j, |s.bytes|) != Moved(s.head, k, |s.bytes|);
    }
  }

  lemma StoredNext(sends: seq<Sent>, last: Sent)
    requires CountsOk(sends) && last.count <= |last.data|
    ensures CountsOk(sends + [last]) && Stored(sends + [last]) == Stored(sends) + last.data[..last.count]
  {
    assert (sends + [last])[..|sends|] == sends;
  }

  lemma PublishHeadKeeps(s: State)
    requires Inv(s) && Enabled(s, PublishHead)
    ensures Inv(Next(s, PublishHead))
  {
    StoredNext(s.sends, Sent(s.writer.data, |s.writer.chunk|));
    RegionGrows(s.bytes, s.tail, s.head, s.writer.chunk);
    assert s.received + (Unread(s) + s.writer.chunk) == s.received + Unread(s) + s.writer.chunk;
  }

  lemma BeginWriteKeeps(s: State)
    requires Inv(s) && Enabled(s, BeginWrite)
    ensures Inv(Next(s, BeginWrite))
  {
    assert Unread(Next(s, BeginWrite)) == Unread(s);
    if s.writer.space == 0 {
      StoredNothing(s.sends, s.writer.data);
    }
  }

  lemma StoredNothing(sends: seq<Sent>, data: seq<Byte>)
    requires CountsOk(sends)
    ensures CountsOk(sends + [Sent(data, 0)]) && Stored(sends + [Sent(data, 0)]) == Stored(sends)
  {
    StoredNext(sends, Sent(data, 0));
    assert Stored(sends) + data[..0] == Stored(sends);
  }

  lemma SamplesKeep(s: State, step: Step)
    requires Inv(s) && Enabled(s, step)
    requires step.BeginSend? || step.SampleTail? || step.BeginReceive? || step.SampleHead? || step.BeginRead?
    ensures Inv(Next(s, step))
  {
    RegionLength(s.bytes, s.tail, s.head);
    assert Unread(Next(s, step)) == Unread(s);
  }

  lemma ReadByteKeeps(s: State, k: nat)
    requires Inv(s) && Enabled(s, ReadByte(k))
    ensures Inv(Next(s, ReadByte(k)))
  {
    RegionAt(s.bytes, s.tail, s.head, k);
  }

  lemma PublishTailKeeps(s: State)
    requires Inv(s) && Enabled(s, PublishTail)
    ensures Inv(Next(s, PublishTail))
  {
    var n, u := |s.reader.target|, Unread(s);
    assert s.reader.target == u[..n];
    ReadTakes(s.bytes, s.tail, s.head, n);
    var r := Next(s, PublishTail);
    assert Unread(r) == u[n..];
    TakenAndLeft(s.received, u, n);
  }

  lemma TakenAndLeft(received: seq<Byte>, unread: seq<Byte>, n: nat)
    requires n <= |unread|
    ensures received + unread == received + unread[..n] + unread[n..]
  {
    assert unread == unread[..n] + unread[n..];
  }

  lemma StepKeeps(s: State, step: Step)
    requires Inv(s) && Enabled(s, step)
    ensures Inv(Next(s, step))
  {
    match step
    case WriteByte(k) => WriteByteKeeps(s, k);
    case PublishHead => PublishHeadKeeps(s);
    case ReadByte(k) => ReadByteKeeps(s, k);
    case PublishTail => PublishTailKeeps(s);
    case BeginWrite => BeginWriteKeeps(s);
    case _ => SamplesKeep(s, step);
  }

  ghost predicate RunAllowed(s: State, run: seq<Step>)
    decreases |run|
  {
    run != [] ==> Enabled(s, run[0]) && RunAllowed(Next(s, run[0]), run[1..])
  }

  ghost function Run(s: State, run: seq<Step>): State
    requires RunAllowed(s, run)
    decreases |run|
  {
    if run == [] then s else Run(Next(s, run[0]), run[1..])
  }

  lemma {:induction false} RunKeeps(s: State, run: seq<Step>)
    requires Inv(s) && RunAllowed(s, run)
    ensures Inv(Run(s, run)) && |Run(s, run).bytes| == |s.bytes|
    decreases |run|
  {
    if run != [] {
      StepKeeps(s, run[0]);
      RunKeeps(Next(s, run[0]), run[1..]);
    }
  }

  // At every moment the bytes received, followed by the bytes held, are the bytes sent.
  lemma ReceivedThenHeldIsSent(length: nat, run: seq<Step>)
    requires length > 0 && RunAllowed(Created(length), run)
    ensures var s := Run(Created(length), run); InBounds(s) && s.received + Unread(s) == s.sent
  {
    RunKeeps(Created(length), run);
  }

  // What the sends of a run are given, in order.
  ghost function Offered(run: seq<Step>): seq<seq<Byte>> {
    if run == [] then []
    else (if run[0].BeginSend? then [run[0].data] else []) + Offered(run[1..])
  }

  // What the sends so far were given, with the one that has not returned.
  ghost function Given(s: State): seq<seq<Byte>> {
    seq(|s.sends|, i requires 0 <= i < |s.sends| => s.sends[i].data)
    + if s.writer.WriterIdle? then [] else [s.writer.data]
  }

  lemma {:induction false} GivenIsOffered(s: State, run: seq<Step>)
    requires RunAllowed(s, run)
    ensures Given(Run(s, run)) == Given(s) + Offered(run)
    decreases |run|
  {
    if run != [] {
      var first := if run[0].BeginSend? then [run[0].data] else [];
      GivenStep(s, run[0]);
      GivenIsOffered(Next(s, run[0]), run[1..]);
      assert Given(s) + (first + Offered(run[1..])) == Given(s) + first + Offered(run[1..]);
    }
  }

  lemma GivenStep(s: State, step: Step)
    requires Enabled(s, step)
    ensures Given(Next(s, step)) == Given(s) + if step.BeginSend? then [step.data] else []
  {
  }

  // The same for the callers of the sends: in every run the bytes received, followed by the bytes held, are what the
  // sends that have returned said is stored, the first bytes of what each was given. The one under way copies as many
  // of its first bytes as there was space.
  lemma CallersBytesInOrder(length: nat, run: seq<Step>)
    requires length > 0 && RunAllowed(Created(length), run)
    ensures var s := Run(Created(length), run);
            && InBounds(s) && CountsOk(s.sends) && s.received + Unread(s) == Stored(s.sends)
            && Given(s) == Offered(run)
            && (s.writer.Writing? ==> s.writer.chunk == s.writer.data[..Min(|s.writer.data|, s.writer.space)])
  {
    RunKeeps(Created(length), run);
    GivenIsOffered(Created(length), run);
  }

  // No byte the writer is about to write, or has written and not published, stands where an unread byte does.
  lemma WriterNeverOverwrites(length: nat, run: seq<Step>, k: nat, i: nat)
    requires length > 0 && RunAllowed(Created(length), run)
    ensures var s := Run(Created(length), run);
            && InBounds(s) && |s.bytes| == length
            && (s.writer.Writing? && k < |s.writer.chunk| && i < |Unread(s)| ==>
                  Moved(s.head, k, length) != Moved(s.tail, i, length))
  {
    RunKeeps(Created(length), run);
    var s := Run(Created(length), run);
    if s.writer.Writing? && k < |s.writer.chunk| && i < |Unread(s)| {
      InFlightApart(s.bytes, s.tail, s.head, k, i);
    }
  }

  // The bounds in Enabled never hold a step back.
  lemma NothingIsHeldBack(length: nat, run: seq<Step>)
    requires length > 0 && RunAllowed(Created(length), run)
    ensures var s := Run(Created(length), run);
            && InBounds(s)
            && (s.writer.Sampling? ==> Enabled(s, BeginWrite))
            && (s.reader.Looking? ==>
                  forall garbage :: |garbage| == Min(s.reader.available, s.reader.max) ==>
                    Enabled(s, BeginRead(garbage)))
  {
    RunKeeps(Created(length), run);
  }
}
