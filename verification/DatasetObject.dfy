/** The dataset object: it fills buffers and a nonvolatile section, and reads them back. */
module DatasetObject {
  import opened Bytes
  import opened LookupTable
  import opened DatasetCodec

  lemma {:induction false} KnotsBytesAppend(c: Curve, p: Knot)
    ensures KnotsBytes(c + [p]) == KnotsBytes(c) + KnotBytes(p)
  {
    if c == [] {
      assert (c + [p])[1..] == [] && KnotBytes(p) + [] == [] + KnotBytes(p);
    } else {
      KnotsBytesAppend(c[1..], p);
      assert (c + [p])[1..] == c[1..] + [p];
      assert KnotBytes(c[0]) + (KnotsBytes(c[1..]) + KnotBytes(p)) ==
             KnotBytes(c[0]) + KnotsBytes(c[1..]) + KnotBytes(p);
    }
  }

  lemma {:induction false} KnotsAtIndex(bytes: seq<Byte>, at: nat, n: nat, i: nat)
    requires at + 8 * n <= |bytes| && i < n
    ensures KnotsAt(bytes, at, n)[i] == KnotAt(bytes, at + 8 * i)
    decreases n
  {
    if i > 0 {
      KnotsAtIndex(bytes, at + 8, n - 1, i - 1);
    }
  }

  lemma KnotsAtAppend(bytes: seq<Byte>, at: nat, n: nat)
    requires at + 8 * (n + 1) <= |bytes|
    ensures KnotsAt(bytes, at, n + 1) == KnotsAt(bytes, at, n) + [KnotAt(bytes, at + 8 * n)]
  {
    var longer, shorter := KnotsAt(bytes, at, n + 1), KnotsAt(bytes, at, n);
    KnotsAtIndex(bytes, at, n + 1, n);
    forall i | 0 <= i < n ensures longer[i] == shorter[i] {
      KnotsAtIndex(bytes, at, n + 1, i);
      KnotsAtIndex(bytes, at, n, i);
    }
  }

  // memcpy
  method CopyTo(target: array<Byte>, at: nat, data: seq<Byte>)
    requires at + |data| <= target.Length
    modifies target
    ensures target[..] == Splice(old(target[..]), at, data)
  {
    forall i | 0 <= i < |data| {
      target[at + i] := data[i];
    }
    assert target[..at] == old(target[..at]) && target[at..at + |data|] == data;
    assert target[at + |data|..] == old(target[at + |data|..]);
    assert target[..] == target[..at] + target[at..at + |data|] + target[at + |data|..];
  }

  // Writing on behind what is already written.
  lemma SpliceExtends(bytes: seq<Byte>, at: nat, data: seq<Byte>)
    requires at + |data| <= |bytes|
    ensures Splice(bytes, at, data)[..at + |data|] == bytes[..at] + data
  {
  }

  lemma OneMoreKnot(c: Curve, i: nat)
    requires i < |c|
    ensures Word(|c|) + KnotsBytes(c[..i + 1]) ==
            Word(|c|) + KnotsBytes(c[..i]) + Word(Unsigned(c[i].x)) + Word(Unsigned(c[i].y))
  {
    assert c[..i + 1] == c[..i] + [c[i]];
    KnotsBytesAppend(c[..i], c[i]);
  }

  // to_bytes
  method ToBytes(c: Curve) returns (result: array<Byte>)
    ensures fresh(result) && result[..] == CurveBytes(c)
  {
    result := new Byte[4 + 8 * |c|](_ => 0);
    SpliceExtends(result[..], 0, Word(|c|));
    CopyTo(result, 0, Word(|c|));
    var writePointer, i := 4, 0;
    assert result[..4] == Word(|c|) + KnotsBytes(c[..0]);
    while i < |c|
      invariant i <= |c| && writePointer == 4 + 8 * i && result.Length == 4 + 8 * |c|
      invariant result[..writePointer] == Word(|c|) + KnotsBytes(c[..i])
    {
      var x, y := Word(Unsigned(c[i].x)), Word(Unsigned(c[i].y));
      OneMoreKnot(c, i);
      SpliceExtends(result[..], writePointer, x);
      CopyTo(result, writePointer, x);
      writePointer := writePointer + 4;
      SpliceExtends(result[..], writePointer, y);
      CopyTo(result, writePointer, y);
      writePointer := writePointer + 4;
      i := i + 1;
    }
    assert c[..i] == c && result[..writePointer] == result[..];
  }

  // from_bytes on bytes[begin..end]
  method FromBytes(bytes: seq<Byte>, begin: nat, end: nat) returns (curve: Curve)
    requires begin <= end <= |bytes| && (end - begin >= 2 ==> begin + 4 <= |bytes|)
    ensures curve == CurveAt(bytes, begin, end)
  {
    curve := [];
    var length := end - begin;
    if length >= 2 {
      var count := WordAt(bytes, begin);
      if count * 8 + 4 <= length {
        var data: Curve, readPointer, i := [], begin + 4, 0;
        while i < count
          invariant i <= count && readPointer == begin + 4 + 8 * i
          invariant data == KnotsAt(bytes, begin + 4, i)
        {
          var x := Signed(WordAt(bytes, readPointer));
          readPointer := readPointer + 4;
          var y := Signed(WordAt(bytes, readPointer));
          readPointer := readPointer + 4;
          KnotsAtAppend(bytes, begin + 4, i);
          data := data + [Point(x, y)];
          i := i + 1;
        }
        curve := data;
      }
    }
  }

  // The section as far as the dataset sees it: NonvolatileDataHandler is not part of this model.
  class Section {
    const present: bool
    const readCode: Code        // what read_section answers
    const data: array<Byte>
    var dataValid: bool

    constructor (data: array<Byte>, present: bool, readCode: Code)
      ensures this.data == data && this.present == present && this.readCode == readCode && !dataValid
    {
      this.data, this.present, this.readCode, dataValid := data, present, readCode, false;
    }
  }

  class Dataset {
    var fuelInput: Curve
    var fuelOutput: Curve
    var inputPulses: UInt32
    var outputPulses: UInt32
    var amplifyingFactor: UInt32
    var readVersion: UInt32

    ghost function State(): Data
      reads this
    {
      Data(fuelInput, fuelOutput, inputPulses, outputPulses, amplifyingFactor, readVersion)
    }

    constructor (d: Data)
      ensures State() == d
    {
      fuelInput, fuelOutput, inputPulses, outputPulses := d.fuelInput, d.fuelOutput, d.inputPulses, d.outputPulses;
      amplifyingFactor, readVersion := d.amplifyingFactor, d.readVersion;
    }

    // lb_store_characteristic_curve
    method StoreCurveAt(section: Section, position: nat, curve: Curve) returns (code: Code)
      requires position + CURVE_SPACE <= section.data.Length
      modifies section.data
      ensures code == (if CurveFits(curve) then Success else InternalError)
      ensures section.data[..] ==
              if CurveFits(curve) then StoreCurve(old(section.data[..]), position, curve) else old(section.data[..])
    {
      code := InternalError;
      var buffer := ToBytes(curve);
      if buffer.Length + 4 <= 100 {
        CopyTo(section.data, position, Word(buffer.Length));
        CopyTo(section.data, position + 4, buffer[..]);
        code := Success;
      }
    }

    // write_dataset
    method Write(section: Section) returns (code: Code)
      modifies section.data
      ensures !section.present || section.data.Length < SECTION_SIZE ==>
        code == UnexpectedValue && section.data[..] == old(section.data[..])
      ensures section.present && section.data.Length >= SECTION_SIZE ==>
        (code, section.data[..]) == Store(old(section.data[..]), State())
    {
      if !section.present || section.data.Length < 300 {
        return UnexpectedValue;
      }
      CopyTo(section.data, 0, HEADER);
      CopyTo(section.data, 4, Word(VERSION));
      CopyTo(section.data, 32, Word(inputPulses));
      CopyTo(section.data, 36, Word(outputPulses));
      CopyTo(section.data, 40, Word(amplifyingFactor));
      code := StoreCurveAt(section, 100, fuelOutput);
      if code != Success {
        return NotEnoughMemory;
      }
      code := StoreCurveAt(section, 200, fuelInput);
      if code != Success {
        return NotEnoughMemory;
      }
    }

    // lb_load_characteristic_curve
    method LoadCurveAt(bytes: seq<Byte>, position: nat) returns (loaded: LoadedCurve)
      requires |bytes| >= SECTION_SIZE && position <= 200
      ensures loaded == LoadCurve(bytes, position)
    {
      loaded := OutOfBounds;
      if position + 4 < |bytes| {
        var size := WordAt(bytes, position);
        if position + 4 + size < |bytes| {
          var curve := FromBytes(bytes, position + 4, position + 4 + size);
          loaded := Loaded(curve);
        }
      }
    }

    // load_dataset
    method Load(section: Section) returns (code: Code)
      modifies this
      ensures !section.present || !section.dataValid ==> code == UnexpectedValue && State() == old(State())
      ensures section.present && section.dataValid && section.readCode != Success ==>
        code == section.readCode && State() == old(State())
      ensures section.present && section.dataValid && section.readCode == Success ==>
        (code, State()) == DatasetCodec.Load(section.data[..], old(State()))
    {
      if !section.present || !section.dataValid {
        return UnexpectedValue;
      }
      if section.readCode != Success {
        return section.readCode;
      }
      var buffer := section.data[..];
      if |buffer| < 300 {
        return NotEnoughMemory;
      }
      if buffer[0] != 68 || buffer[1] != 65 || buffer[2] != 84 || buffer[3] != 65 {
        assert buffer[..4] != HEADER by {
          assert buffer[..4][0] == buffer[0] && buffer[..4][1] == buffer[1];
          assert buffer[..4][2] == buffer[2] && buffer[..4][3] == buffer[3];
        }
        return UnexpectedValue;
      }
      assert buffer[..4] == HEADER;
      readVersion := WordAt(buffer, 4);
      if readVersion > VERSION {
        return UnexpectedValue;
      }
      inputPulses := WordAt(buffer, 32);
      outputPulses := WordAt(buffer, 36);
      amplifyingFactor := WordAt(buffer, 40);
      var output := LoadCurveAt(buffer, 100);
      if output.OutOfBounds? {
        return UnexpectedValue;
      }
      fuelOutput := output.curve;
      var input := LoadCurveAt(buffer, 200);
      if input.OutOfBounds? {
        return UnexpectedValue;
      }
      fuelInput := input.curve;
      code := Success;
    }
  }
}
