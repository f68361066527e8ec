/** The dataset in its nonvolatile section: a header, a version, three scalars and two curves at fixed offsets. */
module DatasetCodec {
  import opened Bytes
  import opened LookupTable

  type UInt32 = n: nat | n < 0x1_0000_0000
  type Int32 = i: int | -0x8000_0000 <= i < 0x8000_0000

  const HEADER: seq<Byte> := [68, 65, 84, 65]  // "DATA"
  const VERSION: UInt32 := 101
  const SECTION_SIZE := 300
  const CURVE_SPACE := 100

  datatype Code = Success | UnexpectedValue | NotEnoughMemory | InternalError

  // A knot with the int32_t coordinates the dataset uses.
  predicate Fits32(p: Point) {
    -0x8000_0000 <= p.x < 0x8000_0000 && -0x8000_0000 <= p.y < 0x8000_0000
  }

  type Knot = p: Point | Fits32(p) witness Point(0, 0)
  type Curve = seq<Knot>

  datatype Data = Data(
    fuelInput: Curve,
    fuelOutput: Curve,
    inputPulses: UInt32,
    outputPulses: UInt32,
    amplifyingFactor: UInt32,
    readVersion: UInt32)

  function Word(n: nat): seq<Byte> {
    Encode(n, 4)
  }

  // Two's complement.
  function Unsigned(i: Int32): UInt32 {
    if i < 0 then i + 0x1_0000_0000 else i
  }

  function Signed(n: UInt32): Int32 {
    if n >= 0x8000_0000 then n - 0x1_0000_0000 else n
  }

  // ----- to_bytes and from_bytes

  function KnotBytes(p: Knot): (s: seq<Byte>)
    ensures |s| == 8
  {
    Word(Unsigned(p.x)) + Word(Unsigned(p.y))
  }

  function KnotsBytes(c: Curve): (s: seq<Byte>)
    ensures |s| == 8 * |c|
  {
    if c == [] then [] else KnotBytes(c[0]) + KnotsBytes(c[1..])
  }

  // The count of the knots, then the knots.
  function CurveBytes(c: Curve): seq<Byte> {
    Word(|c|) + KnotsBytes(c)
  }

  function WordAt(bytes: seq<Byte>, at: nat): UInt32
    requires at + 4 <= |bytes|
  {
    DecodeSmall(bytes[at..at + 4]);
    assert Power(4) == 256 * Power(3) && Power(3) == 256 * Power(2) && Power(2) == 256 * Power(1);
    Decode(bytes[at..at + 4])
  }

  function KnotAt(bytes: seq<Byte>, at: nat): Knot
    requires at + 8 <= |bytes|
  {
    Point(Signed(WordAt(bytes, at)), Signed(WordAt(bytes, at + 4)))
  }

  function KnotsAt(bytes: seq<Byte>, at: nat, n: nat): (c: Curve)
    requires at + 8 * n <= |bytes|
    ensures |c| == n
    decreases n
  {
    if n == 0 then [] else [KnotAt(bytes, at)] + KnotsAt(bytes, at + 8, n - 1)
  }

  // The curve read from bytes[begin..end]. Its count is read even when there are only two or three bytes.
  function CurveAt(bytes: seq<Byte>, begin: nat, end: nat): Curve
    requires begin <= end <= |bytes| && (end - begin >= 2 ==> begin + 4 <= |bytes|)
  {
    if end - begin >= 2 && WordAt(bytes, begin) * 8 + 4 <= end - begin
    then KnotsAt(bytes, begin + 4, WordAt(bytes, begin))
    else []
  }

  predicate Has(bytes: seq<Byte>, at: nat, data: seq<Byte>) {
    at + |data| <= |bytes| && bytes[at..at + |data|] == data
  }

  lemma HasPart(bytes: seq<Byte>, at: nat, a: seq<Byte>, b: seq<Byte>)
    requires Has(bytes, at, a + b)
    ensures Has(bytes, at, a) && Has(bytes, at + |a|, b)
  {
    assert bytes[at..at + |a|] == (a + b)[..|a|];
    assert bytes[at + |a|..at + |a| + |b|] == (a + b)[|a|..];
  }

  lemma WordRoundTrip(bytes: seq<Byte>, at: nat, n: UInt32)
    requires Has(bytes, at, Word(n))
    ensures WordAt(bytes, at) == n
  {
    CodeRoundTrip(n, 4);
    assert Power(4) == 256 * Power(3) && Power(3) == 256 * Power(2) && Power(2) == 256 * Power(1);
  }

  lemma KnotRoundTrip(bytes: seq<Byte>, at: nat, p: Knot)
    requires Has(bytes, at, KnotBytes(p))
    ensures KnotAt(bytes, at) == p
  {
    HasPart(bytes, at, Word(Unsigned(p.x)), Word(Unsigned(p.y)));
    WordRoundTrip(bytes, at, Unsigned(p.x));
    WordRoundTrip(bytes, at + 4, Unsigned(p.y));
  }

  lemma {:induction false} KnotsRoundTrip(bytes: seq<Byte>, at: nat, c: Curve)
    requires Has(bytes, at, KnotsBytes(c))
    ensures KnotsAt(bytes, at, |c|) == c
    decreases |c|
  {
    if c != [] {
      HasPart(bytes, at, KnotBytes(c[0]), KnotsBytes(c[1..]));
      KnotRoundTrip(bytes, at, c[0]);
      KnotsRoundTrip(bytes, at + 8, c[1..]);
    }
  }

  // from_bytes undoes to_bytes, wherever the bytes stand.
  lemma CurveRoundTrip(bytes: seq<Byte>, at: nat, c: Curve)
    requires |c| < 0x1_0000_0000 && Has(bytes, at, CurveBytes(c))
    ensures CurveAt(bytes, at, at + |CurveBytes(c)|) == c
  {
    HasPart(bytes, at, Word(|c|), KnotsBytes(c));
    WordRoundTrip(bytes, at, |c|);
    KnotsRoundTrip(bytes, at + 4, c);
  }

  // ----- write_dataset and load_dataset on the bytes of the section

  function StoreScalars(bytes: seq<Byte>, d: Data): (r: seq<Byte>)
    requires |bytes| >= SECTION_SIZE
    ensures |r| == |bytes|
  {
    var header := Splice(Splice(bytes, 0, HEADER), 4, Word(VERSION));
    var pulses := Splice(Splice(header, 32, Word(d.inputPulses)), 36, Word(d.outputPulses));
    Splice(pulses, 40, Word(d.amplifyingFactor))
  }

  predicate CurveFits(c: Curve) {
    |CurveBytes(c)| + 4 <= CURVE_SPACE
  }

  function StoreCurve(bytes: seq<Byte>, at: nat, c: Curve): (r: seq<Byte>)
    requires CurveFits(c) && at + CURVE_SPACE <= |bytes|
    ensures |r| == |bytes|
  {
    Splice(Splice(bytes, at, Word(|CurveBytes(c)|)), at + 4, CurveBytes(c))
  }

  function Store(bytes: seq<Byte>, d: Data): (Code, seq<Byte>)
    requires |bytes| >= SECTION_SIZE
  {
    var scalars := StoreScalars(bytes, d);
    if !CurveFits(d.fuelOutput) then (NotEnoughMemory, scalars)
    else
      var output := StoreCurve(scalars, 100, d.fuelOutput);
      if !CurveFits(d.fuelInput) then (NotEnoughMemory, output)
      else (Success, StoreCurve(output, 200, d.fuelInput))
  }

  datatype LoadedCurve = Loaded(curve: Curve) | OutOfBounds

  function LoadCurve(bytes: seq<Byte>, at: nat): LoadedCurve
    requires |bytes| >= SECTION_SIZE && at <= 200
  {
    if at + 4 >= |bytes| then OutOfBounds
    else
      var size := WordAt(bytes, at);
      if at + 4 + size >= |bytes| then OutOfBounds
      else Loaded(CurveAt(bytes, at + 4, at + 4 + size))
  }

  // What is read before an error stays read.
  function Load(bytes: seq<Byte>, d: Data): (Code, Data) {
    if |bytes| < SECTION_SIZE then (NotEnoughMemory, d)
    else if bytes[..4] != HEADER then (UnexpectedValue, d)
    else
      var version := d.(readVersion := WordAt(bytes, 4));
      if version.readVersion > VERSION then (UnexpectedValue, version)
      else
        var scalars := version.(inputPulses := WordAt(bytes, 32), outputPulses := WordAt(bytes, 36),
                                amplifyingFactor := WordAt(bytes, 40));
        match LoadCurve(bytes, 100)
        case OutOfBounds => (UnexpectedValue, scalars)
        case Loaded(output) =>
          match LoadCurve(bytes, 200)
          case OutOfBounds => (UnexpectedValue, scalars.(fuelOutput := output))
          case Loaded(input) => (Success, scalars.(fuelOutput := output, fuelInput := input))
  }

  lemma SpliceHas(bytes: seq<Byte>, at: nat, data: seq<Byte>)
    requires at + |data| <= |bytes|
    ensures Has(Splice(bytes, at, data), at, data)
  {
  }

  // A write leaves alone what does not overlap it.
  lemma SpliceKeeps(bytes: seq<Byte>, at: nat, data: seq<Byte>, other: nat, kept: seq<Byte>)
    requires at + |data| <= |bytes| && Has(bytes, other, kept)
    requires other + |kept| <= at || at + |data| <= other
    ensures Has(Splice(bytes, at, data), other, kept)
  {
    var r := Splice(bytes, at, data);
    forall i | other <= i < other + |kept| ensures r[i] == bytes[i] {
    }
    assert r[other..other + |kept|] == bytes[other..other + |kept|];
  }

  ghost predicate HasScalars(bytes: seq<Byte>, d: Data) {
    && Has(bytes, 0, HEADER) && Has(bytes, 4, Word(VERSION))
    && Has(bytes, 32, Word(d.inputPulses)) && Has(bytes, 36, Word(d.outputPulses))
    && Has(bytes, 40, Word(d.amplifyingFactor))
  }

  ghost predicate HasCurve(bytes: seq<Byte>, at: nat, c: Curve) {
    Has(bytes, at, Word(|CurveBytes(c)|)) && Has(bytes, at + 4, CurveBytes(c))
  }

  lemma ScalarsStored(bytes: seq<Byte>, d: Data)
    requires |bytes| >= SECTION_SIZE
    ensures HasScalars(StoreScalars(bytes, d), d)
  {
    var b1 := Splice(bytes, 0, HEADER);
    var b2 := Splice(b1, 4, Word(VERSION));
    var b3 := Splice(b2, 32, Word(d.inputPulses));
    var b4 := Splice(b3, 36, Word(d.outputPulses));
    SpliceHas(bytes, 0, HEADER);
    SpliceHas(b1, 4, Word(VERSION));
    SpliceKeeps(b1, 4, Word(VERSION), 0, HEADER);
    SpliceHas(b2, 32, Word(d.inputPulses));
    SpliceKeeps(b2, 32, Word(d.inputPulses), 0, HEADER);
    SpliceKeeps(b2, 32, Word(d.inputPulses), 4, Word(VERSION));
    SpliceHas(b3, 36, Word(d.outputPulses));
    SpliceKeeps(b3, 36, Word(d.outputPulses), 0, HEADER);
    SpliceKeeps(b3, 36, Word(d.outputPulses), 4, Word(VERSION));
    SpliceKeeps(b3, 36, Word(d.outputPulses), 32, Word(d.inputPulses));
    SpliceHas(b4, 40, Word(d.amplifyingFactor));
    SpliceKeeps(b4, 40, Word(d.amplifyingFactor), 0, HEADER);
    SpliceKeeps(b4, 40, Word(d.amplifyingFactor), 4, Word(VERSION));
    SpliceKeeps(b4, 40, Word(d.amplifyingFactor), 32, Word(d.inputPulses));
    SpliceKeeps(b4, 40, Word(d.amplifyingFactor), 36, Word(d.outputPulses));
  }

  lemma CurveStored(bytes: seq<Byte>, at: nat, c: Curve)
    requires CurveFits(c) && at + CURVE_SPACE <= |bytes|
    ensures HasCurve(StoreCurve(bytes, at, c), at, c)
  {
    var size := Word(|CurveBytes(c)|);
    SpliceHas(bytes, at, size);
    SpliceHas(Splice(bytes, at, size), at + 4, CurveBytes(c));
    SpliceKeeps(Splice(bytes, at, size), at + 4, CurveBytes(c), at, size);
  }

  // A curve that fits stays within its hundred bytes.
  lemma CurveKeeps(bytes: seq<Byte>, at: nat, c: Curve, other: nat, kept: seq<Byte>)
    requires CurveFits(c) && at + CURVE_SPACE <= |bytes| && Has(bytes, other, kept) && other + |kept| <= at
    ensures Has(StoreCurve(bytes, at, c), other, kept)
  {
    var size := Word(|CurveBytes(c)|);
    SpliceKeeps(bytes, at, size, other, kept);
    SpliceKeeps(Splice(bytes, at, size), at + 4, CurveBytes(c), other, kept);
  }

  lemma CurveKeepsScalars(bytes: seq<Byte>, at: nat, c: Curve, d: Data)
    requires CurveFits(c) && 100 <= at && at + CURVE_SPACE <= |bytes| && HasScalars(bytes, d)
    ensures HasScalars(StoreCurve(bytes, at, c), d)
  {
    CurveKeeps(bytes, at, c, 0, HEADER);
    CurveKeeps(bytes, at, c, 4, Word(VERSION));
    CurveKeeps(bytes, at, c, 32, Word(d.inputPulses));
    CurveKeeps(bytes, at, c, 36, Word(d.outputPulses));
    CurveKeeps(bytes, at, c, 40, Word(d.amplifyingFactor));
  }

  // Nothing a successful write stores overlaps anything else it stores.
  lemma StoredApart(bytes: seq<Byte>, d: Data)
    requires |bytes| >= SECTION_SIZE && Store(bytes, d).0 == Success
    ensures var r := Store(bytes, d).1;
            HasScalars(r, d) && HasCurve(r, 100, d.fuelOutput) && HasCurve(r, 200, d.fuelInput)
  {
    var scalars := StoreScalars(bytes, d);
    var output := StoreCurve(scalars, 100, d.fuelOutput);
    ScalarsStored(bytes, d);
    CurveKeepsScalars(scalars, 100, d.fuelOutput, d);
    CurveStored(scalars, 100, d.fuelOutput);
    CurveKeepsScalars(output, 200, d.fuelInput, d);
    CurveStored(output, 200, d.fuelInput);
    CurveKeeps(output, 200, d.fuelInput, 100, Word(|CurveBytes(d.fuelOutput)|));
    CurveKeeps(output, 200, d.fuelInput, 104, CurveBytes(d.fuelOutput));
  }

  lemma CurveLoads(bytes: seq<Byte>, at: nat, c: Curve)
    requires |bytes| >= SECTION_SIZE && at <= 200 && HasCurve(bytes, at, c) && CurveFits(c)
    ensures LoadCurve(bytes, at) == Loaded(c)
  {
    WordRoundTrip(bytes, at, |CurveBytes(c)|);
    CurveRoundTrip(bytes, at + 4, c);
  }

  // A successful write is read back exactly, whatever the section and the reader held before.
  lemma StoreLoadRoundTrip(bytes: seq<Byte>, d: Data, before: Data)
    requires |bytes| >= SECTION_SIZE && Store(bytes, d).0 == Success
    ensures Load(Store(bytes, d).1, before) == (Success, d.(readVersion := VERSION))
  {
    var r := Store(bytes, d).1;
    StoredApart(bytes, d);
    WordRoundTrip(r, 4, VERSION);
    WordRoundTrip(r, 32, d.inputPulses);
    WordRoundTrip(r, 36, d.outputPulses);
    WordRoundTrip(r, 40, d.amplifyingFactor);
    CurveLoads(r, 100, d.fuelOutput);
    CurveLoads(r, 200, d.fuelInput);
  }

  // Outside the header, the version, the scalars and the two curves a write leaves the section as it was, whether or
  // not it succeeds.
  lemma StoreKeepsRest(bytes: seq<Byte>, d: Data, i: nat)
    requires |bytes| >= SECTION_SIZE && i < |bytes|
    requires 8 <= i < 32 || 44 <= i < 100 || i >= SECTION_SIZE
    ensures |Store(bytes, d).1| == |bytes| && Store(bytes, d).1[i] == bytes[i]
  {
    var scalars := StoreScalars(bytes, d);
    ScalarsKeepRest(bytes, d, i);
    if CurveFits(d.fuelOutput) {
      var output := StoreCurve(scalars, 100, d.fuelOutput);
      CurveKeepsRest(scalars, 100, d.fuelOutput, i);
      if CurveFits(d.fuelInput) {
        CurveKeepsRest(output, 200, d.fuelInput, i);
      }
    }
  }

  lemma ScalarsKeepRest(bytes: seq<Byte>, d: Data, i: nat)
    requires |bytes| >= SECTION_SIZE && i < |bytes| && (8 <= i < 32 || 44 <= i)
    ensures StoreScalars(bytes, d)[i] == bytes[i]
  {
    var b1 := Splice(bytes, 0, HEADER);
    var b2 := Splice(b1, 4, Word(VERSION));
    var b3 := Splice(b2, 32, Word(d.inputPulses));
    var b4 := Splice(b3, 36, Word(d.outputPulses));
    SplicedElsewhere(bytes, 0, HEADER, i);
    SplicedElsewhere(b1, 4, Word(VERSION), i);
    SplicedElsewhere(b2, 32, Word(d.inputPulses), i);
    SplicedElsewhere(b3, 36, Word(d.outputPulses), i);
    SplicedElsewhere(b4, 40, Word(d.amplifyingFactor), i);
  }

  lemma SplicedElsewhere(bytes: seq<Byte>, at: nat, data: seq<Byte>, i: nat)
    requires at + |data| <= |bytes| && i < |bytes| && (i < at || at + |data| <= i)
    ensures Splice(bytes, at, data)[i] == bytes[i]
  {
  }

  lemma CurveKeepsRest(bytes: seq<Byte>, at: nat, c: Curve, i: nat)
    requires CurveFits(c) && at + CURVE_SPACE <= |bytes| && i < |bytes| && (i < at || i >= at + CURVE_SPACE)
    ensures StoreCurve(bytes, at, c)[i] == bytes[i]
  {
  }

  lemma CurveLoadsExactly(bytes: seq<Byte>, at: nat)
    requires |bytes| >= SECTION_SIZE && at <= 200
    ensures LoadCurve(bytes, at).Loaded? <==> at + 4 + WordAt(bytes, at) < |bytes|
  {
  }

  // A section is loaded exactly when it is long enough, begins with the header, is of no newer version, and says of
  // both curves that they end inside it.
  lemma LoadSucceeds(bytes: seq<Byte>, d: Data)
    ensures Load(bytes, d).0 == Success <==>
      && |bytes| >= SECTION_SIZE && bytes[..4] == [68, 65, 84, 65] && WordAt(bytes, 4) <= 101
      && 104 + WordAt(bytes, 100) < |bytes| && 204 + WordAt(bytes, 200) < |bytes|
  {
    assert HEADER == [68, 65, 84, 65];
    if |bytes| >= SECTION_SIZE && bytes[..4] == HEADER && WordAt(bytes, 4) <= VERSION {
      CurveLoadsExactly(bytes, 100);
      CurveLoadsExactly(bytes, 200);
    }
  }

  // A section that is too short or has another header changes nothing, one of a newer version only what is remembered
  // of the version; each is answered by its code.
  lemma LoadRefuses(bytes: seq<Byte>, d: Data)
    ensures |bytes| < SECTION_SIZE ==> Load(bytes, d) == (NotEnoughMemory, d)
    ensures |bytes| >= SECTION_SIZE && bytes[..4] != [68, 65, 84, 65] ==> Load(bytes, d) == (UnexpectedValue, d)
    ensures |bytes| >= SECTION_SIZE && bytes[..4] == [68, 65, 84, 65] && WordAt(bytes, 4) > 101 ==>
      Load(bytes, d) == (UnexpectedValue, d.(readVersion := WordAt(bytes, 4)))
  {
    assert HEADER == [68, 65, 84, 65];
  }

  // A write succeeds exactly when neither curve has more than eleven knots.
  lemma StoreSucceeds(bytes: seq<Byte>, d: Data)
    requires |bytes| >= SECTION_SIZE
    ensures Store(bytes, d).0
         == if |d.fuelOutput| <= 11 && |d.fuelInput| <= 11 then Success else NotEnoughMemory
  {
  }
}
