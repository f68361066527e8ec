/**
 One writer and one reader of a message buffer, interleaved between every sampling and every publishing of an index. A
 message is published in two parts, its length and its data; it is read in two parts as well, and a message that is
 only looked at, or too long for the caller, is put back by restoring the tail. What the indices enclose is a sequence
 here; how its bytes are copied in and out is in MessageCopies.
 */
module MessageInterleaving {
  import opened Arithmetic
  import opened Bytes
  import opened StreamModel

  type Message = seq<Byte>

  datatype Writer =
    | WriterIdle
    | Asking(message: Message)                   // before it samples the tail
    | Sampled(message: Message, space: nat)      // the space it last saw
    | Half(message: Message)                     // the length is published, the data is not

  datatype Reader =
    | ReaderIdle
    | Calling(max: nat, peek: bool)              // before it samples the head
    | Saw(max: nat, peek: bool, available: nat)  // the bytes it saw
    | HasLength(max: nat, peek: bool, available: nat, word: seq<Byte>)  // the tail is past the length

  datatype State = State(
    held: seq<Byte>,           // from the tail to the head
    length: nat,
    lengthBytes: nat,
    writer: Writer,
    reader: Reader,
    accepted: seq<Message>,    // what sends have stored
    received: seq<Message>)    // what receives have returned

  datatype Step =
    | BeginSend(message: Message)
    | SampleTail               // as often as the writer waits for space
    | PublishLength            // or give up
    | PublishData
    | BeginReceive(max: nat, peek: bool)
    | SampleHead
    | TakeLength               // or find nothing
    | TakeData                 // or restore the tail

  function Created(length: nat, lengthBytes: nat): State {
    State([], length, lengthBytes, WriterIdle, ReaderIdle, [], [])
  }

  predicate Enabled(s: State, step: Step) {
    match step
    case BeginSend(m) => s.writer.WriterIdle? && Proper(m, s.lengthBytes)
    case SampleTail => (s.writer.Asking? || WaitsForSpace(s)) && |s.held| < s.length
    case PublishLength => s.writer.Sampled?
    case PublishData => s.writer.Half?
    case BeginReceive(_, _) => s.reader.ReaderIdle?
    case SampleHead => s.reader.Calling?
    case TakeLength => s.reader.Saw? && (s.reader.available > s.lengthBytes ==> |s.held| >= s.lengthBytes)
    case TakeData => s.reader.HasLength? && (!PutsBack(s) ==> |s.held| >= Taken(s))
  }

  predicate WaitsForSpace(s: State) {
    s.writer.Sampled? && s.writer.space < s.lengthBytes + |s.writer.message|
  }

  // The message is only looked at, or too long for the caller.
  predicate PutsBack(s: State)
    requires s.reader.HasLength?
  {
    s.reader.peek || Decode(s.reader.word) > s.reader.max
  }

  function Taken(s: State): nat
    requires s.reader.HasLength?
  {
    Min(Max(s.reader.available - s.lengthBytes, 0), Decode(s.reader.word))
  }

  function Next(s: State, step: Step): State
    requires Enabled(s, step)
  {
    match step
    case BeginSend(m) => s.(writer := Asking(m))
    case SampleTail => s.(writer := Sampled(s.writer.message, s.length - 1 - |s.held|))
    case PublishLength =>
      if s.writer.space < s.lengthBytes + |s.writer.message| then s.(writer := WriterIdle)
      else s.(held := s.held + Encode(|s.writer.message|, s.lengthBytes), writer := Half(s.writer.message))
    case PublishData =>
      s.(held := s.held + s.writer.message, accepted := s.accepted + [s.writer.message], writer := WriterIdle)
    case BeginReceive(max, peek) => s.(reader := Calling(max, peek))
    case SampleHead => s.(reader := Saw(s.reader.max, s.reader.peek, |s.held|))
    case TakeLength =>
      var k := s.lengthBytes;
      if s.reader.available <= k then s.(reader := ReaderIdle)
      else s.(held := s.held[k..], reader := HasLength(s.reader.max, s.reader.peek, s.reader.available, s.held[..k]))
    case TakeData =>
      if PutsBack(s) then s.(held := s.reader.word + s.held, reader := ReaderIdle)
      else s.(held := s.held[Taken(s)..], reader := ReaderIdle, received := s.received + [s.held[..Taken(s)]])
  }

  // ----- what holds in every state

  function Pending(s: State): seq<Message>
    requires |s.received| <= |s.accepted|
  {
    s.accepted[|s.received|..]
  }

  function Stream(s: State): seq<Byte> {
    if s.reader.HasLength? then s.reader.word + s.held else s.held
  }

  function Partial(s: State): seq<Byte> {
    if s.writer.Half? then Encode(|s.writer.message|, s.lengthBytes) else []
  }

  // What the writer has still to store of a message that it found space for.
  function Owed(s: State): nat {
    match s.writer
    case Sampled(m, space) => if space >= s.lengthBytes + |m| then s.lengthBytes + |m| else 0
    case Half(m) => |m|
    case _ => 0
  }

  // What is held, and what the writer has still to store, fits.
  predicate Room(s: State) {
    |s.held| + Owed(s) < s.length
  }

  ghost predicate AllProper(s: State) {
    && (forall m :: m in s.accepted ==> Proper(m, s.lengthBytes))
    && (!s.writer.WriterIdle? ==> Proper(s.writer.message, s.lengthBytes))
  }

  // The reader saw the first message whole, or saw none of it but perhaps the length.
  predicate ReaderOk(reader: Reader, pending: seq<Message>, k: nat) {
    match reader
    case Saw(_, _, available) => available > k ==> pending != [] && available >= k + |pending[0]|
    case HasLength(_, _, available, word) =>
      pending != [] && available >= k + |pending[0]| && word == Encode(|pending[0]|, k)
    case _ => true
  }

  // The bytes are those of the messages not yet received, and perhaps the length of the one being sent.
  ghost predicate Framed(s: State) {
    && s.received <= s.accepted && AllProper(s)
    && Stream(s) == Frames(Pending(s), s.lengthBytes) + Partial(s)
    && ReaderOk(s.reader, Pending(s), s.lengthBytes)
  }

  ghost predicate Inv(s: State) {
    s.lengthBytes > 0 && Framed(s) && Room(s)
  }

  // The one step that may take room away is to put a length back. It fits exactly with what is held and what the writer
  // has still to store, which may be more than when the length was taken.
  predicate RestoreFits(s: State, step: Step)
    requires Enabled(s, step)
  {
    step.TakeData? && PutsBack(s) ==> |s.reader.word| + |s.held| + Owed(s) < s.length
  }

  // ----- each step

  lemma FirstFrame(pending: seq<Message>, k: nat, partial: seq<Byte>)
    requires pending != []
    ensures var stream := Frames(pending, k) + partial;
            && |stream| >= k + |pending[0]| && stream[..k] == Encode(|pending[0]|, k)
            && stream[k..][..|pending[0]|] == pending[0]
            && stream[k..][|pending[0]|..] == Frames(pending[1..], k) + partial
  {
    var word, m, rest := Encode(|pending[0]|, k), pending[0], Frames(pending[1..], k);
    Regroup(word, m, rest, partial);
    ThreeParts(word, m, rest + partial);
  }

  lemma Regroup(a: seq<Byte>, b: seq<Byte>, c: seq<Byte>, d: seq<Byte>)
    ensures a + b + c + d == a + (b + (c + d))
  {
  }

  lemma ThreeParts(a: seq<Byte>, b: seq<Byte>, c: seq<Byte>)
    ensures (a + (b + c))[..|a|] == a && (a + (b + c))[|a|..] == b + c
    ensures (b + c)[..|b|] == b && (b + c)[|b|..] == c
  {
  }

  lemma StreamGrows(s: State, r: State, data: seq<Byte>)
    requires r.reader == s.reader && r.held == s.held + data
    ensures Stream(r) == Stream(s) + data
  {
    if s.reader.HasLength? {
      assert s.reader.word + (s.held + data) == s.reader.word + s.held + data;
    }
  }

  lemma SampleHeadKeeps(s: State)
    requires Inv(s) && Enabled(s, SampleHead)
    ensures Inv(Next(s, SampleHead))
  {
    if Pending(s) != [] {
      FirstFrame(Pending(s), s.lengthBytes, Partial(s));
    }
  }

  lemma TakeLengthKeeps(s: State)
    requires Inv(s) && s.reader.Saw?
    ensures Enabled(s, TakeLength) && Inv(Next(s, TakeLength))
  {
    if s.reader.available > s.lengthBytes {
      LengthIsTaken(s);
    }
  }

  lemma LengthIsTaken(s: State)
    requires Inv(s) && s.reader.Saw? && s.reader.available > s.lengthBytes
    ensures |s.held| >= s.lengthBytes && s.held[..s.lengthBytes] == Encode(|Pending(s)[0]|, s.lengthBytes)
    ensures s.held[..s.lengthBytes] + s.held[s.lengthBytes..] == s.held
  {
    assert s.held == Frames(Pending(s), s.lengthBytes) + Partial(s);
    FirstFrame(Pending(s), s.lengthBytes, Partial(s));
    Halves(s.held, s.lengthBytes);
  }

  lemma Halves(s: seq<Byte>, k: nat)
    requires k <= |s|
    ensures s[..k] + s[k..] == s
  {
  }

  lemma PublishLengthKeeps(s: State)
    requires Inv(s) && Enabled(s, PublishLength)
    ensures Inv(Next(s, PublishLength))
  {
    var r, word := Next(s, PublishLength), Encode(|s.writer.message|, s.lengthBytes);
    if r.writer.Half? {
      StreamGrows(s, r, word);
      assert Partial(s) == [] && Partial(r) == word;
      assert Frames(Pending(s), s.lengthBytes) + [] == Frames(Pending(s), s.lengthBytes);
    }
  }

  lemma PublishDataKeeps(s: State)
    requires Inv(s) && Enabled(s, PublishData)
    ensures Inv(Next(s, PublishData))
  {
    var r, m := Next(s, PublishData), s.writer.message;
    AcceptedGrows(s);
    StreamGrows(s, r, m);
    OneMoreFrame(s.accepted, s.received, m, s.lengthBytes);
    assert Stream(r) == Frames(Pending(r), s.lengthBytes);
    assert Partial(r) == [] && Stream(r) + [] == Stream(r);
  }

  lemma AcceptedGrows(s: State)
    requires Inv(s) && Enabled(s, PublishData)
    ensures var r := Next(s, PublishData);
            && r.received <= r.accepted && AllProper(r) && Room(r)
            && ReaderOk(r.reader, Pending(r), r.lengthBytes)
  {
    var r, m := Next(s, PublishData), s.writer.message;
    OneMoreFrame(s.accepted, s.received, m, s.lengthBytes);
    StillFirst(s.reader, Pending(s), m, s.lengthBytes);
    assert forall x :: x in r.accepted ==> x in s.accepted || x == m;
    assert s.received <= s.accepted <= r.accepted;
  }

  lemma StillFirst(reader: Reader, pending: seq<Message>, m: Message, k: nat)
    requires ReaderOk(reader, pending, k)
    ensures ReaderOk(reader, pending + [m], k)
  {
    assert pending != [] ==> (pending + [m])[0] == pending[0];
  }

  lemma OneMoreFrame(accepted: seq<Message>, received: seq<Message>, m: Message, k: nat)
    requires received <= accepted
    ensures (accepted + [m])[|received|..] == accepted[|received|..] + [m]
    ensures Frames((accepted + [m])[|received|..], k) == Frames(accepted[|received|..], k) + Encode(|m|, k) + m
  {
    var pending := accepted[|received|..];
    assert (accepted + [m])[|received|..] == pending + [m];
    FramesAppend(pending, m, k);
    assert Frames(pending, k) + (Encode(|m|, k) + m) == Frames(pending, k) + Encode(|m|, k) + m;
  }

  // A message is taken whole, or put back.
  lemma TakeDataKeeps(s: State)
    requires Inv(s) && s.reader.HasLength?
    ensures Enabled(s, TakeData) && Framed(Next(s, TakeData))
    ensures Room(Next(s, TakeData)) <==> RestoreFits(s, TakeData)
    ensures !PutsBack(s) ==> Next(s, TakeData).received == s.received + [Pending(s)[0]]
  {
    var pending := Pending(s);
    assert pending[0] in s.accepted;
    CodeRoundTrip(|pending[0]|, s.lengthBytes);
    FirstFrame(pending, s.lengthBytes, Partial(s));
    assert Stream(s)[s.lengthBytes..] == s.held;
    if !PutsBack(s) {
      TakenInOrder(s.accepted, s.received, pending);
    }
  }

  lemma TakenInOrder(accepted: seq<Message>, received: seq<Message>, pending: seq<Message>)
    requires received <= accepted && pending == accepted[|received|..] && pending != []
    ensures received + [pending[0]] <= accepted && accepted[|received| + 1..] == pending[1..]
  {
  }

  lemma BeginKeeps(s: State, step: Step)
    requires Inv(s) && Enabled(s, step) && (step.BeginSend? || step.BeginReceive?)
    ensures Inv(Next(s, step))
  {
    var r := Next(s, step);
    assert Stream(r) == Stream(s) && Partial(r) == Partial(s) && Pending(r) == Pending(s);
  }

  lemma SampleTailKeeps(s: State)
    requires Inv(s) && Enabled(s, SampleTail)
    ensures Inv(Next(s, SampleTail))
  {
    var r := Next(s, SampleTail);
    assert Stream(r) == Stream(s) && Partial(r) == Partial(s) && Pending(r) == Pending(s);
  }

  lemma StepKeeps(s: State, step: Step)
    requires Inv(s) && Enabled(s, step)
    ensures Framed(Next(s, step)) && Next(s, step).lengthBytes == s.lengthBytes
    ensures Inv(Next(s, step)) <==> RestoreFits(s, step)
  {
    match step
    case BeginSend(_) => BeginKeeps(s, step);
    case SampleTail => SampleTailKeeps(s);
    case PublishLength => PublishLengthKeeps(s);
    case PublishData => PublishDataKeeps(s);
    case BeginReceive(_, _) => BeginKeeps(s, step);
    case SampleHead => SampleHeadKeeps(s);
    case TakeLength => TakeLengthKeeps(s);
    case TakeData => TakeDataKeeps(s);
  }

  // ----- whole runs

  ghost predicate RunAllowed(s: State, run: seq<Step>)
    decreases |run|
  {
    run != [] ==> Enabled(s, run[0]) && RunAllowed(Next(s, run[0]), run[1..])
  }

  ghost function Run(s: State, run: seq<Step>): State
    requires RunAllowed(s, run)
    decreases |run|
  {
    if run == [] then s else Run(Next(s, run[0]), run[1..])
  }

  ghost predicate RestoresFit(s: State, run: seq<Step>)
    requires RunAllowed(s, run)
    decreases |run|
  {
    run != [] ==> RestoreFits(s, run[0]) && RestoresFit(Next(s, run[0]), run[1..])
  }

  ghost predicate AlwaysRoom(s: State, run: seq<Step>)
    requires RunAllowed(s, run)
    decreases |run|
  {
    Room(s) && (run != [] ==> AlwaysRoom(Next(s, run[0]), run[1..]))
  }

  lemma {:induction false} RunKeeps(s: State, run: seq<Step>)
    requires Inv(s) && RunAllowed(s, run)
    ensures AlwaysRoom(s, run) <==> RestoresFit(s, run)
    ensures RestoresFit(s, run) ==> Inv(Run(s, run))
    decreases |run|
  {
    if run != [] {
      StepKeeps(s, run[0]);
      if RestoreFits(s, run[0]) {
        RunKeeps(Next(s, run[0]), run[1..]);
      }
    }
  }

  lemma {:induction false} RunSplits(s: State, first: seq<Step>, second: seq<Step>)
    requires RunAllowed(s, first) && RunAllowed(Run(s, first), second)
    ensures RunAllowed(s, first + second) && Run(s, first + second) == Run(Run(s, first), second)
    decreases |first|
  {
    if first == [] {
      assert [] + second == second;
    } else {
      RunSplits(Next(s, first[0]), first[1..], second);
      assert (first + second)[0] == first[0] && (first + second)[1..] == first[1..] + second;
    }
  }

  lemma {:induction false} RunKeepsSizes(s: State, run: seq<Step>)
    requires RunAllowed(s, run)
    ensures Run(s, run).length == s.length && Run(s, run).lengthBytes == s.lengthBytes
    decreases |run|
  {
    if run != [] {
      RunKeepsSizes(Next(s, run[0]), run[1..]);
    }
  }

  // In every run whose restores fit, at every moment: the messages received are the first of those accepted, whole and
  // in order; the bytes between the indices, with a length the reader has just taken, frame the others and perhaps the
  // length of the next; and what the writer is about to copy in has room.
  lemma ReceivedInOrder(length: nat, k: nat, run: seq<Step>)
    requires length > 0 && k > 0 && RunAllowed(Created(length, k), run) && RestoresFit(Created(length, k), run)
    ensures var s := Run(Created(length, k), run);
            && s.received <= s.accepted
            && Stream(s) == Frames(s.accepted[|s.received|..], k) + Partial(s)
            && s.length == length && s.lengthBytes == k && Room(s)
  {
    CreatedKeeps(length, k);
    RunKeeps(Created(length, k), run);
    RunKeepsSizes(Created(length, k), run);
  }

  lemma CreatedKeeps(length: nat, k: nat)
    requires length > 0 && k > 0
    ensures Inv(Created(length, k))
  {
  }

  // There is room throughout a run exactly when its restores fit.
  lemma RoomExactly(length: nat, k: nat, run: seq<Step>)
    requires length > 0 && k > 0 && RunAllowed(Created(length, k), run)
    ensures AlwaysRoom(Created(length, k), run) <==> RestoresFit(Created(length, k), run)
  {
    CreatedKeeps(length, k);
    RunKeeps(Created(length, k), run);
  }

  // Every receive has room for the longest message, and nobody peeks.
  ghost predicate RoomyReceives(run: seq<Step>, longest: nat) {
    forall i :: 0 <= i < |run| ==>
      && (run[i].BeginReceive? ==> run[i].max >= longest && !run[i].peek)
      && (run[i].BeginSend? ==> |run[i].message| <= longest)
  }

  ghost predicate Roomy(s: State, longest: nat) {
    && (forall m :: m in s.accepted ==> |m| <= longest)
    && (!s.writer.WriterIdle? ==> |s.writer.message| <= longest)
    && (!s.reader.ReaderIdle? ==> s.reader.max >= longest && !s.reader.peek)
  }

  lemma NothingPutBack(s: State, longest: nat)
    requires Inv(s) && Roomy(s, longest) && s.reader.HasLength?
    ensures !PutsBack(s)
  {
    assert Pending(s)[0] in s.accepted;
    CodeRoundTrip(|Pending(s)[0]|, s.lengthBytes);
  }

  lemma RoomyKeeps(s: State, step: Step, longest: nat)
    requires Roomy(s, longest) && Enabled(s, step) && RoomyReceives([step], longest)
    ensures Roomy(Next(s, step), longest)
  {
    assert [step][0] == step;
  }

  lemma {:induction false} RoomyRestoresFit(s: State, run: seq<Step>, longest: nat)
    requires Inv(s) && Roomy(s, longest) && RunAllowed(s, run) && RoomyReceives(run, longest)
    ensures RestoresFit(s, run)
    decreases |run|
  {
    if run != [] {
      var step := run[0];
      assert RoomyReceives([step], longest) && RoomyReceives(run[1..], longest);
      if step.TakeData? {
        NothingPutBack(s, longest);
      }
      assert RestoreFits(s, step);
      StepKeeps(s, step);
      RoomyKeeps(s, step, longest);
      RoomyRestoresFit(Next(s, step), run[1..], longest);
    }
  }

  // When every receive has room for every message and nobody peeks, messages come whole and in order in every
  // interleaving.
  lemma WholeMessages(length: nat, k: nat, run: seq<Step>, longest: nat)
    requires length > 0 && k > 0 && RunAllowed(Created(length, k), run) && RoomyReceives(run, longest)
    ensures var s := Run(Created(length, k), run); s.received <= s.accepted && Room(s)
  {
    CreatedKeeps(length, k);
    RoomyRestoresFit(Created(length, k), run, longest);
    ReceivedInOrder(length, k, run);
  }

  // ----- what is accepted is what was sent

  // What the sends of a run are given, in order.
  ghost function Offered(run: seq<Step>): seq<Message> {
    if run == [] then []
    else (if run[0].BeginSend? then [run[0].message] else []) + Offered(run[1..])
  }

  // The messages accepted, and the one being sent.
  function Made(s: State): seq<Message> {
    s.accepted + if s.writer.WriterIdle? then [] else [s.writer.message]
  }

  // All of a in b, in the order of b.
  predicate Subsequence(a: seq<Message>, b: seq<Message>)
    decreases |b|
  {
    || a == []
    || (b != [] && a[|a| - 1] == b[|b| - 1] && Subsequence(a[..|a| - 1], b[..|b| - 1]))
    || (b != [] && Subsequence(a, b[..|b| - 1]))
  }

  lemma OneMoreOfBoth(a: seq<Message>, b: seq<Message>, m: Message)
    requires Subsequence(a, b)
    ensures Subsequence(a + [m], b + [m])
  {
    assert (a + [m])[..|a|] == a && (b + [m])[..|b|] == b;
  }

  lemma {:induction false} OneLess(a: seq<Message>, b: seq<Message>, m: Message)
    requires Subsequence(a + [m], b)
    ensures Subsequence(a, b)
    decreases |b|
  {
    if a != [] {
      var front := b[..|b| - 1];
      assert (a + [m])[..|a|] == a;
      if !(m == b[|b| - 1] && Subsequence(a, front)) {
        OneLess(a, front, m);
      }
    }
  }

  lemma MadeStep(s: State, step: Step, offered: seq<Message>)
    requires Enabled(s, step) && Subsequence(Made(s), offered)
    ensures Subsequence(Made(Next(s, step)), offered + if step.BeginSend? then [step.message] else [])
  {
    match step
    case BeginSend(m) =>
      assert Made(s) == s.accepted;
      OneMoreOfBoth(Made(s), offered, m);
    case PublishLength =>
      assert offered + [] == offered;
      if Made(Next(s, step)) != Made(s) {
        OneLess(s.accepted, offered, s.writer.message);
        assert Made(Next(s, step)) == s.accepted;
      }
    case _ =>
      assert offered + [] == offered && Made(Next(s, step)) == Made(s);
  }

  lemma {:induction false} MadeOfOffered(s: State, run: seq<Step>, offered: seq<Message>)
    requires RunAllowed(s, run) && Subsequence(Made(s), offered)
    ensures Subsequence(Made(Run(s, run)), offered + Offered(run))
    decreases |run|
  {
    if run == [] {
      assert offered + [] == offered;
    } else {
      var first := if run[0].BeginSend? then [run[0].message] else [];
      MadeStep(s, run[0], offered);
      MadeOfOffered(Next(s, run[0]), run[1..], offered + first);
      assert offered + (first + Offered(run[1..])) == offered + first + Offered(run[1..]);
    }
  }

  // In every run, whatever its restores do, the accepted messages are some of those given to the sends, unchanged and
  // in that order.
  lemma AcceptedWereOffered(length: nat, k: nat, run: seq<Step>)
    requires length > 0 && RunAllowed(Created(length, k), run)
    ensures Subsequence(Made(Run(Created(length, k), run)), Offered(run))
  {
    MadeOfOffered(Created(length, k), run, []);
    assert [] + Offered(run) == Offered(run);
  }

  // ----- a restore without room, and a peek at half a message

  lemma RunExtends(s: State, run: seq<Step>, step: Step)
    requires RunAllowed(s, run) && Enabled(Run(s, run), step)
    ensures RunAllowed(s, run + [step]) && Run(s, run + [step]) == Next(Run(s, run), step)
  {
    OneStep(Run(s, run), step);
    RunSplits(s, run, [step]);
  }

  lemma OneStep(s: State, step: Step)
    requires Enabled(s, step)
    ensures RunAllowed(s, [step]) && Run(s, [step]) == Next(s, step)
  {
    assert [step][1..] == [];
  }

  lemma EncodedOne()
    ensures Encode(1, 4) == [1, 0, 0, 0] && Decode([1, 0, 0, 0]) == 1 && Power(4) > 1
  {
    assert Encode(0, 1) == [0] && Encode(0, 2) == [0, 0] && Encode(0, 3) == [0, 0, 0];
    CodeRoundTrip(1, 4);
    assert Power(1) == 256 && Power(2) == 256 * Power(1) && Power(3) == 256 * Power(2) && Power(4) == 256 * Power(3);
  }

  // A length published, its message of one byte not yet.
  lemma HalfSent(length: nat) returns (run: seq<Step>)
    requires length >= 7
    ensures RunAllowed(Created(length, 4), run)
    ensures Run(Created(length, 4), run) == State([1, 0, 0, 0], length, 4, Half([7]), ReaderIdle, [], [])
  {
    var s := Created(length, 4);
    EncodedOne();
    run := [];
    RunExtends(s, run, BeginSend([7]));
    run := run + [BeginSend([7])];
    RunExtends(s, run, SampleTail);
    run := run + [SampleTail];
    RunExtends(s, run, PublishLength);
    run := run + [PublishLength];
  }

  // A reader takes the length of the message, which is too long for it.
  lemma LengthTaken(length: nat) returns (run: seq<Step>)
    requires length >= 7
    ensures RunAllowed(Created(length, 4), run)
    ensures Run(Created(length, 4), run)
         == State([7], length, 4, WriterIdle, HasLength(0, false, 5, [1, 0, 0, 0]), [[7]], [])
  {
    var s := Created(length, 4);
    run := HalfSent(length);
    RunExtends(s, run, PublishData);
    run := run + [PublishData];
    assert Run(s, run) == State([1, 0, 0, 0, 7], length, 4, WriterIdle, ReaderIdle, [[7]], []);
    RunExtends(s, run, BeginReceive(0, false));
    run := run + [BeginReceive(0, false)];
    RunExtends(s, run, SampleHead);
    run := run + [SampleHead];
    RunExtends(s, run, TakeLength);
    run := run + [TakeLength];
  }

  // And the writer finds space for another.
  lemma SpaceSeen(length: nat) returns (run: seq<Step>)
    requires length >= 7
    ensures RunAllowed(Created(length, 4), run)
    ensures Run(Created(length, 4), run)
         == State([7], length, 4, Sampled([8], length - 2), HasLength(0, false, 5, [1, 0, 0, 0]), [[7]], [])
  {
    var s := Created(length, 4);
    EncodedOne();
    run := LengthTaken(length);
    RunExtends(s, run, BeginSend([8]));
    run := run + [BeginSend([8])];
    RunExtends(s, run, SampleTail);
    run := run + [SampleTail];
  }

  // When the reader then restores the tail both messages fit, or the one that the writer goes on to store overruns the
  // first: it depends on whether the buffer holds ten bytes.
  lemma RestoreLosesRoom(length: nat) returns (run: seq<Step>)
    requires length >= 7
    ensures RunAllowed(Created(length, 4), run) && Enabled(Run(Created(length, 4), run), TakeData)
    ensures var s := Run(Created(length, 4), run);
            var restored := Next(s, TakeData);
            && PutsBack(s) && restored.accepted == [[7]] && Enabled(restored, PublishLength)
            && Next(restored, PublishLength).writer == Half([8])
            && (Room(restored) <==> RestoreFits(s, TakeData)) && (RestoreFits(s, TakeData) <==> length - 1 >= 10)
  {
    EncodedOne();
    run := SpaceSeen(length);
  }

  // xStreamBufferNextMessageLengthBytes asserts that it sees no bytes when it does not see more than a length. It is
  // right about that exactly when a whole message is in the buffer or no length without its message.
  lemma PeekAssertExactly(s: State)
    requires Inv(s) && s.reader.Calling?
    ensures (|s.held| <= s.lengthBytes ==> s.held == []) <==> Pending(s) != [] || !s.writer.Half?
  {
    if Pending(s) != [] {
      FirstFrame(Pending(s), s.lengthBytes, Partial(s));
      assert Pending(s)[0] in s.accepted;
    }
  }

  lemma PeekSeesHalf() returns (run: seq<Step>)
    ensures RunAllowed(Created(7, 4), run) && Run(Created(7, 4), run).reader == Saw(0, true, 4)
  {
    run := HalfSent(7);
    RunExtends(Created(7, 4), run, BeginReceive(0, true));
    run := run + [BeginReceive(0, true)];
    RunExtends(Created(7, 4), run, SampleHead);
    run := run + [SampleHead];
  }
}
