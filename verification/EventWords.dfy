/**
 The words in which event_groups.c keeps event bits and, in the top byte, its control bits: each operation on words is
 the operation on sets of bits by which EventGroups describes it.
 */
module EventWords {
  import opened EventGroups

  const CLEAR_EVENTS_ON_EXIT_BIT: bv32 := 0x0100_0000
  const UNBLOCKED_DUE_TO_BIT_SET: bv32 := 0x0200_0000
  const WAIT_FOR_ALL_BITS: bv32 := 0x0400_0000
  const EVENT_BITS_CONTROL_BYTES: bv32 := 0xff00_0000
  const ITEM_VALUE_IN_USE: bv32 := 0x8000_0000  // taskEVENT_LIST_ITEM_VALUE_IN_USE

  // The value of the event list item of a waiting task.
  function ItemWord(wanted: bv32, clear: bool, all: bool): bv32 {
    wanted | (if clear then CLEAR_EVENTS_ON_EXIT_BIT else 0) | (if all then WAIT_FOR_ALL_BITS else 0)
    | ITEM_VALUE_IN_USE
  }

  function WantedBits(item: bv32): bv32 {
    item & !EVENT_BITS_CONTROL_BYTES
  }

  predicate WantsAll(item: bv32) {
    item & EVENT_BITS_CONTROL_BYTES & WAIT_FOR_ALL_BITS != 0
  }

  predicate ClearsOnExit(item: bv32) {
    item & EVENT_BITS_CONTROL_BYTES & CLEAR_EVENTS_ON_EXIT_BIT != 0
  }

  // The test that xEventGroupSetBits makes on each item.
  predicate WordMatches(item: bv32, bits: bv32) {
    MatchFound(WantedBits(item), WantsAll(item), bits)
  }

  predicate MatchFound(wanted: bv32, all: bool, bits: bv32) {
    if all then wanted & bits == wanted else wanted & bits != 0
  }

  predicate Marked(item: bv32) {
    item & UNBLOCKED_DUE_TO_BIT_SET != 0
  }

  // What the event list item of a woken task is given.
  function WokenWord(bits: bv32): bv32 {
    bits | UNBLOCKED_DUE_TO_BIT_SET | ITEM_VALUE_IN_USE
  }

  // ----- control bits

  // Bits and control bits do not mix: what is packed into an item is what is read from it, and only a task that was
  // woken for its bits finds the mark of that.
  lemma ItemUnpacks(wanted: bv32, clear: bool, all: bool)
    requires wanted & EVENT_BITS_CONTROL_BYTES == 0
    ensures var item := ItemWord(wanted, clear, all);
            && WantedBits(item) == wanted && WantsAll(item) == all && ClearsOnExit(item) == clear
            && !Marked(item)
  {
    if clear && all {
      UnpacksBoth(wanted);
    } else if clear {
      UnpacksClear(wanted);
    } else if all {
      UnpacksAll(wanted);
    } else {
      UnpacksNone(wanted);
    }
  }

  lemma UnpacksBoth(wanted: bv32)
    requires wanted & EVENT_BITS_CONTROL_BYTES == 0
    ensures var item := ItemWord(wanted, true, true);
            WantedBits(item) == wanted && WantsAll(item) && ClearsOnExit(item) && !Marked(item)
  {
  }

  lemma UnpacksClear(wanted: bv32)
    requires wanted & EVENT_BITS_CONTROL_BYTES == 0
    ensures var item := ItemWord(wanted, true, false);
            WantedBits(item) == wanted && !WantsAll(item) && ClearsOnExit(item) && !Marked(item)
  {
  }

  lemma UnpacksAll(wanted: bv32)
    requires wanted & EVENT_BITS_CONTROL_BYTES == 0
    ensures var item := ItemWord(wanted, false, true);
            WantedBits(item) == wanted && WantsAll(item) && !ClearsOnExit(item) && !Marked(item)
  {
  }

  lemma UnpacksNone(wanted: bv32)
    requires wanted & EVENT_BITS_CONTROL_BYTES == 0
    ensures var item := ItemWord(wanted, false, false);
            WantedBits(item) == wanted && !WantsAll(item) && !ClearsOnExit(item) && !Marked(item)
  {
  }

  lemma WokenUnpacks(bits: bv32)
    requires bits & EVENT_BITS_CONTROL_BYTES == 0
    ensures Marked(WokenWord(bits)) && WantedBits(WokenWord(bits)) == bits
  {
  }

  lemma WantedIsAll(bits: bv32)
    requires bits & EVENT_BITS_CONTROL_BYTES == 0
    ensures WantedBits(bits) == bits
  {
  }

  // ----- words and sets of bits

  predicate IsBit(m: bv32) {
    m != 0 && m & (m - 1) == 0
  }

  ghost predicate Represents(word: bv32, bits: Bits) {
    forall m: bv32 :: m in bits <==> IsBit(m) && word & m != 0
  }

  lemma BitOfOr(w: bv32, v: bv32, m: bv32)
    ensures (w | v) & m != 0 <==> w & m != 0 || v & m != 0
  {
  }

  lemma BitOfAnd(w: bv32, v: bv32, m: bv32)
    requires IsBit(m)
    ensures w & v & m != 0 <==> w & m != 0 && v & m != 0
  {
  }

  lemma BitOfAndNot(w: bv32, v: bv32, m: bv32)
    requires IsBit(m)
    ensures w & !v & m != 0 <==> w & m != 0 && v & m == 0
  {
  }

  lemma MemberOfAnd(w: bv32, v: bv32, m: bv32, inW: bool, inV: bool)
    requires inW <==> IsBit(m) && w & m != 0
    requires inV <==> IsBit(m) && v & m != 0
    ensures inW && inV <==> IsBit(m) && w & v & m != 0
  {
    if IsBit(m) { BitOfAnd(w, v, m); }
  }

  lemma MemberOfAndNot(w: bv32, v: bv32, m: bv32, inW: bool, inV: bool)
    requires inW <==> IsBit(m) && w & m != 0
    requires inV <==> IsBit(m) && v & m != 0
    ensures inW && !inV <==> IsBit(m) && w & !v & m != 0
  {
    if IsBit(m) { BitOfAndNot(w, v, m); }
  }

  lemma InIntersection(w: bv32, v: bv32, a: Bits, b: Bits, m: bv32)
    requires Represents(w, a) && Represents(v, b)
    ensures m in a * b <==> IsBit(m) && w & v & m != 0
  {
    MemberOfAnd(w, v, m, m in a, m in b);
  }

  lemma InDifference(w: bv32, v: bv32, a: Bits, b: Bits, m: bv32)
    requires Represents(w, a) && Represents(v, b)
    ensures m in a - b <==> IsBit(m) && w & !v & m != 0
  {
    MemberOfAndNot(w, v, m, m in a, m in b);
  }

  lemma RepresentsOr(w: bv32, v: bv32, a: Bits, b: Bits)
    requires Represents(w, a) && Represents(v, b)
    ensures Represents(w | v, a + b)
  {
    forall m: bv32 ensures m in a + b <==> IsBit(m) && (w | v) & m != 0 {
      BitOfOr(w, v, m);
    }
  }

  lemma RepresentsAnd(w: bv32, v: bv32, a: Bits, b: Bits)
    requires Represents(w, a) && Represents(v, b)
    ensures Represents(w & v, a * b)
  {
    forall m: bv32 ensures m in a * b <==> IsBit(m) && w & v & m != 0 {
      InIntersection(w, v, a, b, m);
    }
  }

  lemma RepresentsAndNot(w: bv32, v: bv32, a: Bits, b: Bits)
    requires Represents(w, a) && Represents(v, b)
    ensures Represents(w & !v, a - b)
  {
    forall m: bv32 ensures m in a - b <==> IsBit(m) && w & !v & m != 0 {
      InDifference(w, v, a, b, m);
    }
  }

  lemma ZeroHasNone(m: bv32)
    ensures (0 as bv32) & m == 0
  {
  }

  lemma ZeroIsEmpty()
    ensures Represents(0, {})
  {
    forall m: bv32 ensures m in {} <==> IsBit(m) && 0 & m != 0 {
      ZeroHasNone(m);
    }
  }

  function LowestBit(word: bv32): bv32 {
    word & (0 - word)
  }

  function OtherBits(word: bv32): bv32 {
    word & !LowestBit(word)
  }

  lemma OtherBitsAreLess(word: bv32)
    requires word != 0
    ensures OtherBits(word) < word
  {
  }

  lemma LowestAndOthers(word: bv32)
    ensures word == LowestBit(word) | OtherBits(word)
  {
  }

  lemma OnlyLowestBit(word: bv32, m: bv32)
    requires word != 0
    ensures IsBit(m) && LowestBit(word) & m != 0 <==> m == LowestBit(word)
  {
  }

  lemma LowestRepresents(word: bv32)
    requires word != 0
    ensures Represents(LowestBit(word), {LowestBit(word)})
  {
    forall m: bv32 ensures m in {LowestBit(word)} <==> IsBit(m) && LowestBit(word) & m != 0 {
      OnlyLowestBit(word, m);
    }
  }

  lemma BitsJoin(word: bv32, others: Bits)
    requires word != 0 && Represents(OtherBits(word), others)
    ensures Represents(word, {LowestBit(word)} + others)
  {
    LowestRepresents(word);
    RepresentsOr(LowestBit(word), OtherBits(word), {LowestBit(word)}, others);
    LowestAndOthers(word);
  }

  // Every word has its set of bits.
  lemma {:induction false} WordHasBits(word: bv32) returns (bits: Bits)
    ensures Represents(word, bits)
    decreases word
  {
    if word == 0 {
      bits := {};
      ZeroIsEmpty();
    } else {
      OtherBitsAreLess(word);
      var others := WordHasBits(OtherBits(word));
      bits := {LowestBit(word)} + others;
      BitsJoin(word, others);
    }
  }

  lemma WordHasSet(word: bv32)
    ensures exists bits :: Represents(word, bits)
  {
    var bits := WordHasBits(word);
  }

  ghost function BitsOf(word: bv32): (bits: Bits)
    ensures Represents(word, bits)
  {
    WordHasSet(word);
    var bits :| Represents(word, bits);
    bits
  }

  lemma SameBits(w: bv32, a: Bits, b: Bits)
    requires Represents(w, a) && Represents(w, b)
    ensures a == b
  {
    forall m ensures m in a <==> m in b {
      assert m in a <==> IsBit(m) && w & m != 0;
    }
  }

  // Setting bits in a word.
  lemma OrIsUnion(w: bv32, v: bv32)
    ensures BitsOf(w | v) == BitsOf(w) + BitsOf(v)
  {
    RepresentsOr(w, v, BitsOf(w), BitsOf(v));
    SameBits(w | v, BitsOf(w | v), BitsOf(w) + BitsOf(v));
  }

  // Clearing them.
  lemma AndNotIsDifference(w: bv32, v: bv32)
    ensures BitsOf(w & !v) == BitsOf(w) - BitsOf(v)
  {
    RepresentsAndNot(w, v, BitsOf(w), BitsOf(v));
    SameBits(w & !v, BitsOf(w & !v), BitsOf(w) - BitsOf(v));
  }

  lemma AndIsIntersection(w: bv32, v: bv32)
    ensures BitsOf(w & v) == BitsOf(w) * BitsOf(v)
  {
    RepresentsAnd(w, v, BitsOf(w), BitsOf(v));
    SameBits(w & v, BitsOf(w & v), BitsOf(w) * BitsOf(v));
  }

  lemma NoBitIsZero(word: bv32)
    ensures word == 0 <==> BitsOf(word) == {}
  {
    if word == 0 {
      ZeroIsEmpty();
      SameBits(word, BitsOf(word), {});
    } else {
      LowestBitIsIn(word, BitsOf(word));
    }
  }

  lemma LowestBitIsIn(word: bv32, bits: Bits)
    requires word != 0 && Represents(word, bits)
    ensures LowestBit(word) in bits
  {
    LowestBitIsBit(word);
  }

  lemma LowestBitIsBit(word: bv32)
    requires word != 0
    ensures IsBit(LowestBit(word)) && word & LowestBit(word) != 0
  {
  }

  lemma WordParts(w: bv32, v: bv32)
    ensures w == (w & v) | (w & !v) && (w & v) & !v == 0
  {
  }

  lemma OrZero(w: bv32)
    ensures w | 0 == w
  {
  }

  lemma NothingLeft(w: bv32, v: bv32)
    ensures w & v == w <==> w & !v == 0
  {
    WordParts(w, v);
    if w & !v == 0 {
      OrZero(w & v);
    }
    if w & v == w {
      assert (w & v) & !v == 0;
    }
  }

  // The masked comparisons are the tests for all bits and for any.
  lemma MatchIsMet(wanted: bv32, all: bool, bits: bv32)
    ensures MatchFound(wanted, all, bits) <==> Met(BitsOf(bits), BitsOf(wanted), all)
  {
    if all {
      AndNotIsDifference(wanted, bits);
      NoBitIsZero(wanted & !bits);
      NothingLeft(wanted, bits);
      NoneMissing(BitsOf(wanted), BitsOf(bits));
    } else {
      AndIsIntersection(wanted, bits);
      NoBitIsZero(wanted & bits);
      assert BitsOf(wanted) * BitsOf(bits) == BitsOf(bits) * BitsOf(wanted);
    }
  }

  lemma NoneMissing(a: Bits, b: Bits)
    ensures a - b == {} <==> a <= b
  {
    if a - b == {} {
      forall m | m in a ensures m in b {
        assert m in b || m in a - b;
      }
    }
  }

  // ----- words without control bits

  ghost predicate NoControl(word: bv32) {
    BitsOf(word) !! BitsOf(EVENT_BITS_CONTROL_BYTES)
  }

  // As the asserts in event_groups.c say it.
  lemma NoControlExactly(word: bv32)
    ensures NoControl(word) <==> word & EVENT_BITS_CONTROL_BYTES == 0
  {
    AndIsIntersection(word, EVENT_BITS_CONTROL_BYTES);
    NoBitIsZero(word & EVENT_BITS_CONTROL_BYTES);
    NothingShared(BitsOf(word), BitsOf(EVENT_BITS_CONTROL_BYTES));
  }

  lemma NothingShared(a: Bits, b: Bits)
    ensures a * b == {} <==> a !! b
  {
    if a * b == {} {
      forall m | m in a ensures m !in b {
        assert m !in a * b;
      }
    }
  }

  lemma JoinedHasNoControl(w: bv32, v: bv32)
    requires NoControl(w) && NoControl(v)
    ensures NoControl(w | v)
  {
    OrIsUnion(w, v);
  }

  lemma ClearedHasNoControl(word: bv32, mask: bv32)
    requires NoControl(word)
    ensures NoControl(word & !mask)
  {
    AndNotIsDifference(word, mask);
  }
}
