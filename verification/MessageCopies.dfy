/**
 The same writer and reader of a message buffer byte by byte: between every sampling and publishing of an index each
 byte is copied in or out on its own, in any order. Every such run does what MessageInterleaving says of the bytes
 between the indices.
 */
module MessageCopies {
  import opened Arithmetic
  import opened Bytes
  import opened StreamModel
  import opened StreamBuffer
  import S = StreamInterleaving
  import M = MessageInterleaving

  datatype Writer =
    | WriterIdle
    | Asking(message: M.Message)
    | Sampled(message: M.Message, space: nat)
    | WritingLength(message: M.Message, space: nat, written: set<nat>)
    | WritingData(message: M.Message, written: set<nat>)

  datatype Reader =
    | ReaderIdle
    | Calling(max: nat, peek: bool)
    | Saw(max: nat, peek: bool, available: nat)
    | ReadingLength(max: nat, peek: bool, available: nat, target: seq<Byte>, read: set<nat>)
    | HasLength(max: nat, peek: bool, available: nat, word: seq<Byte>, originalTail: nat)
    | ReadingData(max: nat, peek: bool, available: nat, word: seq<Byte>, target: seq<Byte>, read: set<nat>)

  datatype State = State(
    bytes: seq<Byte>,
    head: nat,
    tail: nat,
    lengthBytes: nat,
    writer: Writer,
    reader: Reader,
    accepted: seq<M.Message>,
    received: seq<M.Message>)

  datatype Step =
    | BeginSend(message: M.Message)
    | SampleTail
    | BeginWrite                       // or give up
    | WriteByte(i: nat)
    | PublishHead
    | BeginReceive(max: nat, peek: bool)
    | SampleHead
    | BeginRead(garbage: seq<Byte>)    // or find nothing
    | ReadByte(i: nat)
    | PublishTail
    | Decide(garbage: seq<Byte>)       // read the data, or restore the tail

  function Created(length: nat, lengthBytes: nat): State
    requires length > 0
  {
    State(seq(length, _ => 0), 0, 0, lengthBytes, WriterIdle, ReaderIdle, [], [])
  }

  // What is being copied in.
  function Chunk(s: State): seq<Byte> {
    match s.writer
    case WritingLength(m, _, _) => Encode(|m|, s.lengthBytes)
    case WritingData(m, _) => m
    case _ => []
  }

  // ----- what the bytes stand for

  function WriterOf(w: Writer): M.Writer {
    match w
    case WriterIdle => M.WriterIdle
    case Asking(m) => M.Asking(m)
    case Sampled(m, space) => M.Sampled(m, space)
    case WritingLength(m, space, _) => M.Sampled(m, space)
    case WritingData(m, _) => M.Half(m)
  }

  function ReaderOf(r: Reader): M.Reader {
    match r
    case ReaderIdle => M.ReaderIdle
    case Calling(max, peek) => M.Calling(max, peek)
    case Saw(max, peek, available) => M.Saw(max, peek, available)
    case ReadingLength(max, peek, available, _, _) => M.Saw(max, peek, available)
    case HasLength(max, peek, available, word, _) => M.HasLength(max, peek, available, word)
    case ReadingData(max, peek, available, word, _, _) => M.HasLength(max, peek, available, word)
  }

  predicate InBounds(s: State) {
    && s.head < |s.bytes| && s.tail < |s.bytes| && |Chunk(s)| <= |s.bytes|
    && match s.reader
       case ReadingLength(_, _, _, target, _) => |target| <= |s.bytes|
       case ReadingData(_, _, _, _, target, _) => |target| <= |s.bytes|
       case HasLength(_, _, _, _, originalTail) => originalTail < |s.bytes|
       case _ => true
  }

  function Held(s: State): seq<Byte>
    requires InBounds(s)
  {
    Region(s.bytes, s.tail, s.head)
  }

  function View(s: State): M.State
    requires InBounds(s)
  {
    M.State(Held(s), |s.bytes|, s.lengthBytes, WriterOf(s.writer), ReaderOf(s.reader), s.accepted, s.received)
  }

  predicate Done(n: nat, copied: set<nat>) {
    forall i | 0 <= i < n :: i in copied
  }

  predicate Enabled(s: State, step: Step) {
    InBounds(s) &&
    match step
    case BeginSend(m) => s.writer.WriterIdle? && Proper(m, s.lengthBytes)
    case SampleTail =>
      s.writer.Asking? || (s.writer.Sampled? && s.writer.space < s.lengthBytes + |s.writer.message|)
    case BeginWrite => s.writer.Sampled?
    case WriteByte(i) => i < |Chunk(s)|
    case PublishHead => (s.writer.WritingLength? || s.writer.WritingData?) && Done(|Chunk(s)|, s.writer.written)
    case BeginReceive(_, _) => s.reader.ReaderIdle?
    case SampleHead => s.reader.Calling?
    case BeginRead(garbage) => s.reader.Saw? && |garbage| == s.lengthBytes
    case ReadByte(i) => (s.reader.ReadingLength? || s.reader.ReadingData?) && i < |s.reader.target|
    case PublishTail => (s.reader.ReadingLength? || s.reader.ReadingData?) && Done(|s.reader.target|, s.reader.read)
    case Decide(garbage) => s.reader.HasLength? && (!M.PutsBack(View(s)) ==> |garbage| == M.Taken(View(s)))
  }

  function Next(s: State, step: Step): State
    requires Enabled(s, step)
  {
    match step
    case BeginSend(m) => s.(writer := Asking(m))
    case SampleTail => s.(writer := Sampled(s.writer.message, S.SpaceBetween(s.tail, s.head, |s.bytes|)))
    case BeginWrite =>
      s.(writer := if s.writer.space < s.lengthBytes + |s.writer.message| then WriterIdle
                   else WritingLength(s.writer.message, s.writer.space, {}))
    case WriteByte(i) =>
      s.(bytes := s.bytes[Moved(s.head, i, |s.bytes|) := Chunk(s)[i]],
         writer := s.writer.(written := s.writer.written + {i}))
    case PublishHead =>
      var head := Moved(s.head, |Chunk(s)|, |s.bytes|);
      if s.writer.WritingLength? then s.(head := head, writer := WritingData(s.writer.message, {}))
      else s.(head := head, writer := WriterIdle, accepted := s.accepted + [s.writer.message])
    case BeginReceive(max, peek) => s.(reader := Calling(max, peek))
    case SampleHead =>
      s.(reader := Saw(s.reader.max, s.reader.peek, S.BytesBetween(s.tail, s.head, |s.bytes|)))
    case BeginRead(garbage) =>
      s.(reader := if s.reader.available <= s.lengthBytes then ReaderIdle
                   else ReadingLength(s.reader.max, s.reader.peek, s.reader.available, garbage, {}))
    case ReadByte(i) =>
      var target := s.reader.target[i := s.bytes[Moved(s.tail, i, |s.bytes|)]];
      s.(reader := s.reader.(target := target, read := s.reader.read + {i}))
    case PublishTail =>
      var tail := Moved(s.tail, |s.reader.target|, |s.bytes|);
      if s.reader.ReadingLength?
      then s.(tail := tail,
              reader := HasLength(s.reader.max, s.reader.peek, s.reader.available, s.reader.target, s.tail))
      else s.(tail := tail, reader := ReaderIdle, received := s.received + [s.reader.target])
    case Decide(garbage) =>
      if M.PutsBack(View(s)) then s.(tail := s.reader.originalTail, reader := ReaderIdle)
      else s.(reader := ReadingData(s.reader.max, s.reader.peek, s.reader.available, s.reader.word, garbage, {}))
  }

  // ----- what holds in every state

  // The bytes of the chunk that are in place.
  ghost predicate WriterOk(s: State)
    requires InBounds(s)
  {
    && (s.writer.WritingLength? ==> s.writer.space >= s.lengthBytes + |s.writer.message|)
    && (s.writer.WritingLength? || s.writer.WritingData? ==>
          forall i :: 0 <= i < |Chunk(s)| && i in s.writer.written ==>
            s.bytes[Moved(s.head, i, |s.bytes|)] == Chunk(s)[i])
  }

  // The copies out that are made, of the first bytes held.
  ghost predicate Copied(target: seq<Byte>, read: set<nat>, held: seq<Byte>) {
    |target| <= |held| && forall i :: 0 <= i < |target| && i in read ==> target[i] == held[i]
  }

  // For as long as there is room to put it back, the length that the reader has taken is still before its tail.
  ghost predicate Kept(s: State)
    requires InBounds(s) && s.reader.HasLength?
  {
    |s.reader.word| + |Held(s)| + M.Owed(View(s)) < |s.bytes| ==>
      Region(s.bytes, s.reader.originalTail, s.head) == s.reader.word + Held(s)
  }

  ghost predicate ReaderOk(s: State)
    requires InBounds(s)
  {
    match s.reader
    case ReadingLength(_, _, available, target, read) =>
      |target| == s.lengthBytes < available && Copied(target, read, Held(s))
    case HasLength(_, _, _, _, _) => Kept(s)
    case ReadingData(_, _, _, _, target, read) =>
      !M.PutsBack(View(s)) && |target| == M.Taken(View(s)) && Copied(target, read, Held(s))
    case _ => true
  }

  ghost predicate Inv(s: State) {
    InBounds(s) && M.Inv(View(s)) && WriterOk(s) && ReaderOk(s)
  }

  // A restore of the tail that leaves room for what the writer has still to store.
  predicate RestoreFits(s: State, step: Step)
    requires Enabled(s, step)
  {
    step.Decide? && M.PutsBack(View(s)) ==> |s.reader.word| + |Held(s)| + M.Owed(View(s)) < |s.bytes|
  }

  // What a step does to the bytes between the indices: nothing, or one step of MessageInterleaving.
  function Shadow(s: State, step: Step): seq<M.Step>
    requires Enabled(s, step)
  {
    match step
    case BeginSend(m) => [M.BeginSend(m)]
    case SampleTail => [M.SampleTail]
    case BeginWrite => if s.writer.space < s.lengthBytes + |s.writer.message| then [M.PublishLength] else []
    case WriteByte(_) => []
    case PublishHead => if s.writer.WritingLength? then [M.PublishLength] else [M.PublishData]
    case BeginReceive(max, peek) => [M.BeginReceive(max, peek)]
    case SampleHead => [M.SampleHead]
    case BeginRead(_) => if s.reader.available <= s.lengthBytes then [M.TakeLength] else []
    case ReadByte(_) => []
    case PublishTail => if s.reader.ReadingLength? then [M.TakeLength] else [M.TakeData]
    case Decide(_) => if M.PutsBack(View(s)) then [M.TakeData] else []
  }

  ghost predicate Refines(s: State, step: Step)
    requires Enabled(s, step)
  {
    var r := Next(s, step);
    && Inv(r)
    && M.RunAllowed(View(s), Shadow(s, step)) && M.Run(View(s), Shadow(s, step)) == View(r)
  }

  // ----- each step

  // A step of MessageInterleaving keeps its invariant, if it is not a restore without room.
  lemma OneStepRefines(s: State, step: Step, shadow: M.Step)
    requires Inv(s) && Enabled(s, step) && Shadow(s, step) == [shadow]
    requires M.Enabled(View(s), shadow) && M.RestoreFits(View(s), shadow)
    requires InBounds(Next(s, step)) && View(Next(s, step)) == M.Next(View(s), shadow)
    requires WriterOk(Next(s, step)) && ReaderOk(Next(s, step))
    ensures Refines(s, step)
  {
    M.StepKeeps(View(s), shadow);
    M.OneStep(View(s), shadow);
  }

  lemma NoStepRefines(s: State, step: Step)
    requires Inv(s) && Enabled(s, step) && Shadow(s, step) == []
    requires InBounds(Next(s, step)) && View(Next(s, step)) == View(s)
    requires WriterOk(Next(s, step)) && ReaderOk(Next(s, step))
    ensures Refines(s, step)
  {
  }

  // ----- the writer

  lemma WriteByteKeepsView(s: State, i: nat)
    requires Inv(s) && Enabled(s, WriteByte(i))
    ensures var r := Next(s, WriteByte(i)); InBounds(r) && Chunk(r) == Chunk(s) && View(r) == View(s)
  {
    S.RegionUntouched(s.bytes, s.tail, s.head, i, Chunk(s)[i]);
  }

  lemma WriteByteKeepsWriter(s: State, i: nat)
    requires Inv(s) && Enabled(s, WriteByte(i))
    ensures InBounds(Next(s, WriteByte(i))) && WriterOk(Next(s, WriteByte(i)))
  {
    var r, chunk := Next(s, WriteByte(i)), Chunk(s);
    WriteByteKeepsView(s, i);
    forall j | 0 <= j < |chunk| && j in r.writer.written ensures r.bytes[Moved(s.head, j, |s.bytes|)] == chunk[j] {
      assert j != i ==> Moved(s.head, j, |s.bytes|) != Moved(s.head, i, |s.bytes|);
    }
  }

  lemma WriteByteKeepsReader(s: State, i: nat)
    requires Inv(s) && Enabled(s, WriteByte(i))
    ensures InBounds(Next(s, WriteByte(i))) && ReaderOk(Next(s, WriteByte(i)))
  {
    var r := Next(s, WriteByte(i));
    WriteByteKeepsView(s, i);
    if s.reader.HasLength? && |s.reader.word| + |Held(s)| + M.Owed(View(s)) < |s.bytes| {
      S.RegionUntouched(s.bytes, s.reader.originalTail, s.head, i, Chunk(s)[i]);
      assert Region(r.bytes, r.reader.originalTail, r.head) == r.reader.word + Held(r);
    }
  }

  lemma WriteByteRefines(s: State, i: nat)
    requires Inv(s) && Enabled(s, WriteByte(i))
    ensures Refines(s, WriteByte(i))
  {
    WriteByteKeepsView(s, i);
    WriteByteKeepsWriter(s, i);
    WriteByteKeepsReader(s, i);
    NoStepRefines(s, WriteByte(i));
  }

  // The chunk is as long as what the writer owes, or shorter, and it is in place.
  lemma ChunkInPlace(s: State)
    requires Inv(s) && Enabled(s, PublishHead)
    ensures |Held(s)| + |Chunk(s)| <= |Held(s)| + M.Owed(View(s)) < |s.bytes|
    ensures forall i :: 0 <= i < |Chunk(s)| ==> s.bytes[Moved(s.head, i, |s.bytes|)] == Chunk(s)[i]
  {
  }

  // So it comes behind the bytes held.
  lemma PublishHeadHolds(s: State)
    requires Inv(s) && Enabled(s, PublishHead)
    ensures Region(s.bytes, s.tail, Moved(s.head, |Chunk(s)|, |s.bytes|)) == Held(s) + Chunk(s)
  {
    ChunkInPlace(s);
    S.RegionGrows(s.bytes, s.tail, s.head, Chunk(s));
  }

  // And behind a length that may be put back.
  lemma PublishHeadKept(s: State)
    requires Inv(s) && Enabled(s, PublishHead) && s.reader.HasLength?
    requires |s.reader.word| + |Held(s)| + M.Owed(View(s)) < |s.bytes|
    ensures Region(s.bytes, s.reader.originalTail, Moved(s.head, |Chunk(s)|, |s.bytes|))
         == s.reader.word + (Held(s) + Chunk(s))
  {
    ChunkInPlace(s);
    S.RegionGrows(s.bytes, s.reader.originalTail, s.head, Chunk(s));
    Regrouped(s.reader.word, Held(s), Chunk(s));
  }

  lemma Regrouped(a: seq<Byte>, b: seq<Byte>, c: seq<Byte>)
    ensures a + b + c == a + (b + c)
  {
  }

  lemma PublishHeadView(s: State)
    requires Inv(s) && Enabled(s, PublishHead)
    ensures var r, step := Next(s, PublishHead), Shadow(s, PublishHead)[0];
            && InBounds(r) && M.Enabled(View(s), step) && View(r) == M.Next(View(s), step)
            && WriterOk(r)
  {
    PublishHeadHolds(s);
  }

  lemma PublishHeadReader(s: State)
    requires Inv(s) && Enabled(s, PublishHead)
    ensures InBounds(Next(s, PublishHead)) && ReaderOk(Next(s, PublishHead))
  {
    var r := Next(s, PublishHead);
    PublishHeadHolds(s);
    PublishHeadView(s);
    assert Held(r) == Held(s) + Chunk(s);
    match s.reader
    case ReadingLength(_, _, _, target, read) => CopiedLonger(target, read, Held(s), Chunk(s));
    case ReadingData(_, _, _, _, target, read) => CopiedLonger(target, read, Held(s), Chunk(s));
    case HasLength(_, _, _, word, _) =>
      assert |Held(r)| + M.Owed(View(r)) == |Held(s)| + M.Owed(View(s));
      if |word| + |Held(s)| + M.Owed(View(s)) < |s.bytes| { PublishHeadKept(s); }
    case _ =>
  }

  lemma CopiedLonger(target: seq<Byte>, read: set<nat>, held: seq<Byte>, more: seq<Byte>)
    requires Copied(target, read, held)
    ensures Copied(target, read, held + more)
  {
  }

  lemma PublishHeadRefines(s: State)
    requires Inv(s) && Enabled(s, PublishHead)
    ensures Refines(s, PublishHead)
  {
    PublishHeadView(s);
    PublishHeadReader(s);
    OneStepRefines(s, PublishHead, Shadow(s, PublishHead)[0]);
  }

  // A writer that goes on without touching bytes or index, and owes no less.
  lemma WriterGoesOn(s: State, w: Writer)
    requires Inv(s) && InBounds(s.(writer := w))
    ensures View(s.(writer := w)) == View(s).(writer := WriterOf(w))
    ensures M.Owed(View(s.(writer := w))) >= M.Owed(View(s)) ==> ReaderOk(s.(writer := w))
  {
    assert Held(s.(writer := w)) == Held(s);
  }

  lemma BeginWriteRefines(s: State)
    requires Inv(s) && Enabled(s, BeginWrite)
    ensures Refines(s, BeginWrite)
  {
    WriterGoesOn(s, Next(s, BeginWrite).writer);
    if Shadow(s, BeginWrite) == [] {
      NoStepRefines(s, BeginWrite);
    } else {
      OneStepRefines(s, BeginWrite, M.PublishLength);
    }
  }

  lemma SampleTailRefines(s: State)
    requires Inv(s) && Enabled(s, SampleTail)
    ensures Refines(s, SampleTail)
  {
    S.RegionLength(s.bytes, s.tail, s.head);
    WriterGoesOn(s, Next(s, SampleTail).writer);
    OneStepRefines(s, SampleTail, M.SampleTail);
  }

  lemma BeginSendRefines(s: State, m: M.Message)
    requires Inv(s) && Enabled(s, BeginSend(m))
    ensures Refines(s, BeginSend(m))
  {
    WriterGoesOn(s, Asking(m));
    OneStepRefines(s, BeginSend(m), M.BeginSend(m));
  }

  // ----- the reader

  // A reader that goes on without touching an index.
  lemma ReaderGoesOn(s: State, reader: Reader)
    requires Inv(s) && InBounds(s.(reader := reader))
    ensures View(s.(reader := reader)) == View(s).(reader := ReaderOf(reader))
    ensures WriterOk(s.(reader := reader)) && Held(s.(reader := reader)) == Held(s)
  {
  }

  lemma SampleHeadRefines(s: State)
    requires Inv(s) && Enabled(s, SampleHead)
    ensures Refines(s, SampleHead)
  {
    S.RegionLength(s.bytes, s.tail, s.head);
    ReaderGoesOn(s, Next(s, SampleHead).reader);
    OneStepRefines(s, SampleHead, M.SampleHead);
  }

  lemma BeginReadRefines(s: State, garbage: seq<Byte>)
    requires Inv(s) && Enabled(s, BeginRead(garbage))
    ensures Refines(s, BeginRead(garbage))
  {
    var step := BeginRead(garbage);
    M.TakeLengthKeeps(View(s));
    ReaderGoesOn(s, Next(s, step).reader);
    if s.reader.available <= s.lengthBytes {
      OneStepRefines(s, step, M.TakeLength);
    } else {
      NoStepRefines(s, step);
    }
  }

  lemma ReadByteRefines(s: State, i: nat)
    requires Inv(s) && Enabled(s, ReadByte(i))
    ensures Refines(s, ReadByte(i))
  {
    var r := Next(s, ReadByte(i));
    S.RegionAt(s.bytes, s.tail, s.head, i);
    ReaderGoesOn(s, r.reader);
    assert Copied(r.reader.target, r.reader.read, Held(r));
    NoStepRefines(s, ReadByte(i));
  }

  lemma AllCopied(target: seq<Byte>, read: set<nat>, held: seq<Byte>)
    requires Copied(target, read, held) && Done(|target|, read)
    ensures target == held[..|target|]
  {
  }

  // All that was to be copied out is the first of the bytes held.
  lemma AllTaken(bytes: seq<Byte>, tail: nat, head: nat, target: seq<Byte>, read: set<nat>)
    requires tail < |bytes| && head < |bytes|
    requires Copied(target, read, Region(bytes, tail, head)) && Done(|target|, read)
    ensures target == Region(bytes, tail, head)[..|target|]
    ensures Region(bytes, Moved(tail, |target|, |bytes|), head) == Region(bytes, tail, head)[|target|..]
  {
    AllCopied(target, read, Region(bytes, tail, head));
    ReadTakes(bytes, tail, head, |target|);
  }

  lemma PublishTailRefines(s: State)
    requires Inv(s) && Enabled(s, PublishTail)
    ensures Refines(s, PublishTail)
  {
    AllTaken(s.bytes, s.tail, s.head, s.reader.target, s.reader.read);
    if s.reader.ReadingLength? {
      LengthTaken(s);
      OneStepRefines(s, PublishTail, M.TakeLength);
    } else {
      OneStepRefines(s, PublishTail, M.TakeData);
    }
  }

  lemma LengthTaken(s: State)
    requires Inv(s) && Enabled(s, PublishTail) && s.reader.ReadingLength?
    ensures var r := Next(s, PublishTail);
            && InBounds(r) && M.Enabled(View(s), M.TakeLength) && View(r) == M.Next(View(s), M.TakeLength)
            && ReaderOk(r)
  {
    var n := |s.reader.target|;
    AllTaken(s.bytes, s.tail, s.head, s.reader.target, s.reader.read);
    assert Held(s) == Held(s)[..n] + Held(s)[n..];
  }

  lemma DecideRefines(s: State, garbage: seq<Byte>)
    requires Inv(s) && Enabled(s, Decide(garbage)) && RestoreFits(s, Decide(garbage))
    ensures Refines(s, Decide(garbage))
  {
    var step := Decide(garbage);
    M.TakeDataKeeps(View(s));
    if M.PutsBack(View(s)) {
      assert Held(Next(s, step)) == s.reader.word + Held(s);
      OneStepRefines(s, step, M.TakeData);
    } else {
      ReaderGoesOn(s, Next(s, step).reader);
      NoStepRefines(s, step);
    }
  }

  lemma BeginReceiveRefines(s: State, max: nat, peek: bool)
    requires Inv(s) && Enabled(s, BeginReceive(max, peek))
    ensures Refines(s, BeginReceive(max, peek))
  {
    ReaderGoesOn(s, Calling(max, peek));
    OneStepRefines(s, BeginReceive(max, peek), M.BeginReceive(max, peek));
  }

  lemma StepRefines(s: State, step: Step)
    requires Inv(s) && Enabled(s, step) && RestoreFits(s, step)
    ensures Refines(s, step)
  {
    match step
    case BeginSend(m) => BeginSendRefines(s, m);
    case SampleTail => SampleTailRefines(s);
    case BeginWrite => BeginWriteRefines(s);
    case WriteByte(i) => WriteByteRefines(s, i);
    case PublishHead => PublishHeadRefines(s);
    case BeginReceive(max, peek) => BeginReceiveRefines(s, max, peek);
    case SampleHead => SampleHeadRefines(s);
    case BeginRead(garbage) => BeginReadRefines(s, garbage);
    case ReadByte(i) => ReadByteRefines(s, i);
    case PublishTail => PublishTailRefines(s);
    case Decide(garbage) => DecideRefines(s, garbage);
  }

  // ----- whole runs

  ghost predicate RunAllowed(s: State, run: seq<Step>)
    decreases |run|
  {
    run != [] ==> Enabled(s, run[0]) && RunAllowed(Next(s, run[0]), run[1..])
  }

  ghost function Run(s: State, run: seq<Step>): State
    requires RunAllowed(s, run)
    decreases |run|
  {
    if run == [] then s else Run(Next(s, run[0]), run[1..])
  }

  ghost predicate RestoresFit(s: State, run: seq<Step>)
    requires RunAllowed(s, run)
    decreases |run|
  {
    run != [] ==> RestoreFits(s, run[0]) && RestoresFit(Next(s, run[0]), run[1..])
  }

  ghost function ShadowRun(s: State, run: seq<Step>): seq<M.Step>
    requires RunAllowed(s, run)
    decreases |run|
  {
    if run == [] then [] else Shadow(s, run[0]) + ShadowRun(Next(s, run[0]), run[1..])
  }

  // A run byte by byte whose restores fit is a run of MessageInterleaving on the bytes between the indices.
  lemma {:induction false} RunRefines(s: State, run: seq<Step>)
    requires Inv(s) && RunAllowed(s, run) && RestoresFit(s, run)
    ensures Inv(Run(s, run)) && M.RunAllowed(View(s), ShadowRun(s, run))
    ensures M.Run(View(s), ShadowRun(s, run)) == View(Run(s, run))
    decreases |run|
  {
    if run != [] {
      StepRefines(s, run[0]);
      RunRefines(Next(s, run[0]), run[1..]);
      M.RunSplits(View(s), Shadow(s, run[0]), ShadowRun(Next(s, run[0]), run[1..]));
    }
  }

  lemma {:induction false} RunKeepsSizes(s: State, run: seq<Step>)
    requires RunAllowed(s, run)
    ensures |Run(s, run).bytes| == |s.bytes| && Run(s, run).lengthBytes == s.lengthBytes
    decreases |run|
  {
    if run != [] {
      RunKeepsSizes(Next(s, run[0]), run[1..]);
    }
  }

  lemma CreatedKeeps(length: nat, k: nat)
    requires length > 0 && k > 0
    ensures Inv(Created(length, k)) && View(Created(length, k)) == M.Created(length, k)
  {
  }

  // Byte by byte, in every run whose restores fit: the messages received are the first of those accepted, whole and in
  // order, and what the indices enclose frames the others.
  lemma CopiedInOrder(length: nat, k: nat, run: seq<Step>)
    requires length > 0 && k > 0 && RunAllowed(Created(length, k), run) && RestoresFit(Created(length, k), run)
    ensures var s := Run(Created(length, k), run);
            && InBounds(s) && |s.bytes| == length && s.received <= s.accepted
            && M.Stream(View(s)) == Frames(s.accepted[|s.received|..], k) + M.Partial(View(s))
  {
    CreatedKeeps(length, k);
    RunRefines(Created(length, k), run);
    RunKeepsSizes(Created(length, k), run);
  }

  // No byte is copied in where one stands that is still to be read, nor where one of a length that may be put back.
  lemma NothingOverwritten(length: nat, k: nat, run: seq<Step>, i: nat, j: nat)
    requires length > 0 && k > 0 && RunAllowed(Created(length, k), run) && RestoresFit(Created(length, k), run)
    ensures var s := Run(Created(length, k), run);
            && InBounds(s) && |s.bytes| == length
            && (i < |Chunk(s)| && j < |Held(s)| ==> Moved(s.head, i, length) != Moved(s.tail, j, length))
            && (i < |Chunk(s)| && s.reader.HasLength? && j < |s.reader.word|
                && |s.reader.word| + |Held(s)| + M.Owed(View(s)) < length ==>
                  && j < |Region(s.bytes, s.reader.originalTail, s.head)|
                  && Moved(s.head, i, length) != Moved(s.reader.originalTail, j, length))
  {
    CreatedKeeps(length, k);
    RunRefines(Created(length, k), run);
    RunKeepsSizes(Created(length, k), run);
    if i < |Chunk(Run(Created(length, k), run))| {
      ChunkApart(Run(Created(length, k), run), i, j);
    }
  }

  lemma ChunkApart(s: State, i: nat, j: nat)
    requires Inv(s) && i < |Chunk(s)|
    ensures j < |Held(s)| ==> Moved(s.head, i, |s.bytes|) != Moved(s.tail, j, |s.bytes|)
    ensures s.reader.HasLength? && j < |s.reader.word|
            && |s.reader.word| + |Held(s)| + M.Owed(View(s)) < |s.bytes| ==>
              && j < |Region(s.bytes, s.reader.originalTail, s.head)|
              && Moved(s.head, i, |s.bytes|) != Moved(s.reader.originalTail, j, |s.bytes|)
  {
    if j < |Held(s)| {
      S.InFlightApart(s.bytes, s.tail, s.head, i, j);
    }
    if s.reader.HasLength? && j < |s.reader.word|
       && |s.reader.word| + |Held(s)| + M.Owed(View(s)) < |s.bytes| {
      S.InFlightApart(s.bytes, s.reader.originalTail, s.head, i, j);
    }
  }

  // What the sends of a run are given, in order.
  ghost function Offered(run: seq<Step>): seq<M.Message> {
    if run == [] then []
    else (if run[0].BeginSend? then [run[0].message] else []) + Offered(run[1..])
  }

  lemma {:induction false} ShadowOffers(s: State, run: seq<Step>)
    requires RunAllowed(s, run)
    ensures M.Offered(ShadowRun(s, run)) == Offered(run)
    decreases |run|
  {
    if run != [] {
      var shadow, rest := Shadow(s, run[0]), ShadowRun(Next(s, run[0]), run[1..]);
      ShadowOffers(Next(s, run[0]), run[1..]);
      if shadow == [] {
        assert shadow + rest == rest;
      } else {
        assert (shadow + rest)[0] == shadow[0] && (shadow + rest)[1..] == rest;
      }
    }
  }

  // The accepted messages are some of those given to the sends, unchanged and in that order.
  lemma AcceptedWereOffered(length: nat, k: nat, run: seq<Step>)
    requires length > 0 && k > 0 && RunAllowed(Created(length, k), run) && RestoresFit(Created(length, k), run)
    ensures M.Subsequence(Run(Created(length, k), run).accepted, Offered(run))
  {
    CreatedKeeps(length, k);
    RunRefines(Created(length, k), run);
    ShadowOffers(Created(length, k), run);
    var s, shadow := Run(Created(length, k), run), ShadowRun(Created(length, k), run);
    M.AcceptedWereOffered(length, k, shadow);
    if !s.writer.WriterIdle? {
      assert M.Made(View(s)) == s.accepted + [View(s).writer.message];
      M.OneLess(s.accepted, Offered(run), View(s).writer.message);
    } else {
      assert M.Made(View(s)) == s.accepted;
    }
  }

  // ----- receives with room for every message

  ghost predicate RoomyReceives(run: seq<Step>, longest: nat) {
    forall i :: 0 <= i < |run| ==>
      && (run[i].BeginReceive? ==> run[i].max >= longest && !run[i].peek)
      && (run[i].BeginSend? ==> |run[i].message| <= longest)
  }

  lemma RoomyKeeps(s: State, step: Step, longest: nat)
    requires Inv(s) && Enabled(s, step) && M.Roomy(View(s), longest) && RoomyReceives([step], longest)
    requires Refines(s, step)
    ensures M.Roomy(View(Next(s, step)), longest)
  {
    assert [step][0] == step;
    var shadow := Shadow(s, step);
    if shadow != [] {
      M.OneStep(View(s), shadow[0]);
      M.RoomyKeeps(View(s), shadow[0], longest);
    }
  }

  lemma {:induction false} RoomyRestoresFit(s: State, run: seq<Step>, longest: nat)
    requires Inv(s) && M.Roomy(View(s), longest) && RunAllowed(s, run) && RoomyReceives(run, longest)
    ensures RestoresFit(s, run)
    decreases |run|
  {
    if run != [] {
      var step := run[0];
      assert RoomyReceives([step], longest) && RoomyReceives(run[1..], longest);
      if step.Decide? {
        M.NothingPutBack(View(s), longest);
      }
      StepRefines(s, step);
      RoomyKeeps(s, step, longest);
      RoomyRestoresFit(Next(s, step), run[1..], longest);
    }
  }

  // When every receive has room for every message and nobody peeks, messages come whole and in order however the copies
  // are interleaved.
  lemma WholeMessagesCopied(length: nat, k: nat, run: seq<Step>, longest: nat)
    requires length > 0 && k > 0 && RunAllowed(Created(length, k), run) && RoomyReceives(run, longest)
    ensures var s := Run(Created(length, k), run); s.received <= s.accepted
  {
    CreatedKeeps(length, k);
    RoomyRestoresFit(Created(length, k), run, longest);
    CopiedInOrder(length, k, run);
  }
}
