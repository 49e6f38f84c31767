/** What the operations on words mean for the numbers they stand for. */
module Numbers {
  import opened Arithmetic
  import opened Words
  import opened Alu

  /** Shifted right by one position under the sign bit. */
  function Half(w: Word): Word { (w >> 1) | (w & 0x8000_0000) }

  // ---------------------------------------------------------------- one position

  /** A byte shifted right by one position, with bit 0 of the byte above it moving in. */
  function ShiftedByte(b: Byte, above: Byte): Byte { (b >> 1) | (above << 7) }
  function ShiftedTop(b: Byte): Byte { (b >> 1) | (b & 0x80) }

  lemma HalfByte0(w: Word)
    ensures ByteOf(Half(w), 0) == ShiftedByte(ByteOf(w, 0), ByteOf(w, 1))
  {
  }

  lemma HalfByte1(w: Word)
    ensures ByteOf(Half(w), 1) == ShiftedByte(ByteOf(w, 1), ByteOf(w, 2))
  {
  }

  lemma HalfByte2(w: Word)
    ensures ByteOf(Half(w), 2) == ShiftedByte(ByteOf(w, 2), ByteOf(w, 3))
  {
  }

  lemma HalfByte3(w: Word)
    ensures ByteOf(Half(w), 3) == ShiftedTop(ByteOf(w, 3))
  {
  }

  lemma HalfOfByte(b: Byte)
    ensures (b >> 1) as int == b as int / 2
  {
  }

  lemma LowBitOfByte(b: Byte)
    ensures (b << 7) == if b & 1 == 1 then 128 else 0
  {
  }

  lemma OddByte(b: Byte)
    ensures b & 1 == 1 <==> b as int % 2 == 1
  {
  }

  lemma WithTopBit(b: Byte)
    requires b < 128
    ensures (b | 128) as int == b as int + 128
  {
  }

  lemma HalfIsSmall(b: Byte)
    ensures b >> 1 < 128
  {
  }

  lemma ShiftIn(b: Byte, c: Byte)
    ensures ShiftedByte(b, c) as int == b as int / 2 + 128 * (c as int % 2)
  {
    HalfOfByte(b);
    HalfIsSmall(b);
    LowBitOfByte(c);
    OddByte(c);
    WithTopBit(b >> 1);
  }

  lemma KeepTop(b: Byte)
    ensures ShiftedTop(b) as int == b as int / 2 + if b as int >= 128 then 128 else 0
  {
  }

  lemma SignDigit(w: Word)
    ensures Negative(w) <==> Digit(w, 3) >= 128
  {
    assert Negative(w) <==> ByteOf(w, 3) >= 128;
    ByteAtLeast128(ByteOf(w, 3));
  }

  lemma ByteAtLeast128(b: Byte)
    ensures b >= 128 <==> b as int >= 128
  {
  }

  lemma SignOfHalf(w: Word)
    ensures Negative(Half(w)) == Negative(w)
  {
  }

  lemma HalfDigit0(w: Word)
    ensures Digit(Half(w), 0) == Digit(w, 0) / 2 + 128 * (Digit(w, 1) % 2)
  {
    hide ByteOf, Half, ShiftedByte;
    HalfByte0(w);
    ShiftIn(ByteOf(w, 0), ByteOf(w, 1));
  }

  lemma HalfDigit1(w: Word)
    ensures Digit(Half(w), 1) == Digit(w, 1) / 2 + 128 * (Digit(w, 2) % 2)
  {
    hide ByteOf, Half, ShiftedByte;
    HalfByte1(w);
    ShiftIn(ByteOf(w, 1), ByteOf(w, 2));
  }

  lemma HalfDigit2(w: Word)
    ensures Digit(Half(w), 2) == Digit(w, 2) / 2 + 128 * (Digit(w, 3) % 2)
  {
    hide ByteOf, Half, ShiftedByte;
    HalfByte2(w);
    ShiftIn(ByteOf(w, 2), ByteOf(w, 3));
  }

  lemma HalfDigit3(w: Word)
    ensures Digit(Half(w), 3) == Digit(w, 3) / 2 + if Negative(w) then 128 else 0
  {
    hide ByteOf, Half, Negative, ShiftedTop;
    HalfByte3(w);
    KeepTop(ByteOf(w, 3));
    SignDigit(w);
  }

  lemma HalfIsFloor(w: Word)
    ensures Signed(Half(w)) == Signed(w) / 2
  {
    hide Digit, Half, Negative;
    HalfDigit0(w);
    HalfDigit1(w);
    HalfDigit2(w);
    HalfDigit3(w);
    SignOfHalf(w);
    SignDigit(w);
  }

  // ---------------------------------------------------------------- any number of positions

  // The logical shift by `s` positions and the ones that fill them in.
  function Shifted(u: Word, s: Word): Word
    requires s < 32
  {
    u >> s
  }

  function Ones(s: Word): Word
    requires 0 < s < 32
  {
    0xFFFF_FFFF << (32 - s)
  }

  // One more position.
  function Once(w: Word): Word { w >> 1 }
  function OneMore(ones: Word): Word { (ones >> 1) | 0x8000_0000 }
  function Filled(w: Word, ones: Word): Word { w | ones }

  lemma SraParts(u: Word, s: Word)
    requires 0 < s < 32
    ensures Sra32(u, s) == if Negative(u) then Filled(Shifted(u, s), Ones(s)) else Shifted(u, s)
  {
    hide Negative;
  }

  lemma ShiftOnce(u: Word, s: Word)
    requires 1 < s < 32
    ensures Shifted(u, s) == Once(Shifted(u, s - 1))
  {
  }

  lemma OnesOnce(s: Word)
    requires 1 < s < 32
    ensures Ones(s) == OneMore(Ones(s - 1))
  {
  }

  lemma OnesTop(s: Word)
    requires 0 < s < 32
    ensures Negative(Ones(s))
  {
  }

  lemma ShiftedIsPositive(u: Word, s: Word)
    requires s < 32 && !Negative(u)
    ensures !Negative(Shifted(u, s))
  {
  }

  lemma HalfOfPositive(w: Word)
    requires !Negative(w)
    ensures Half(w) == Once(w)
  {
  }

  lemma HalfOfFilled(w: Word, ones: Word)
    requires Negative(ones)
    ensures Half(Filled(w, ones)) == Filled(Once(w), OneMore(ones))
  {
  }

  lemma SraByOne(u: Word)
    ensures Sra32(u, 1) == if Negative(u) then Filled(Once(u), 0x8000_0000) else Once(u)
  {
    assert (0xFFFF_FFFF as Word) << 31 == 0x8000_0000;
  }

  lemma HalfOfNegative(w: Word)
    requires Negative(w)
    ensures Half(w) == Filled(Once(w), 0x8000_0000)
  {
  }

  lemma SraOne(u: Word)
    ensures Sra32(u, 1) == Half(u)
  {
    hide Negative, Once, Filled, Sra32, Half;
    SraByOne(u);
    if Negative(u) {
      HalfOfNegative(u);
    } else {
      HalfOfPositive(u);
    }
  }

  lemma SraStep(u: Word, s: Word)
    requires 1 < s < 32
    ensures Sra32(u, s) == Half(Sra32(u, s - 1))
  {
    hide Half, Negative, Shifted, Ones, Sra32, Once, OneMore, Filled;
    SraParts(u, s);
    SraParts(u, s - 1);
    ShiftOnce(u, s);
    if Negative(u) {
      OnesOnce(s);
      OnesTop(s - 1);
      HalfOfFilled(Shifted(u, s - 1), Ones(s - 1));
    } else {
      ShiftedIsPositive(u, s - 1);
      HalfOfPositive(Shifted(u, s - 1));
    }
  }

  lemma DigitStep(s: Word)
    requires 0 < s < 32
    ensures Digit(s, 0) == Digit(s - 1, 0) + 1
  {
  }

  lemma FloorTwice(x: int, p: nat)
    requires p > 0
    ensures (x / p) / 2 == x / (2 * p)
  {
    var q, e := x / p, x / p / 2;
    assert x == q * p + x % p;
    Doubled(e, p);
    if q == 2 * e {
      assert x == e * (2 * p) + x % p;
      QuotientAndRemainder(e, 2 * p, x % p);
    } else {
      assert q == 2 * e + 1;
      assert x == e * (2 * p) + (p + x % p);
      QuotientAndRemainder(e, 2 * p, p + x % p);
    }
  }

  lemma Doubled(e: int, p: nat)
    ensures (2 * e) * p == e * (2 * p) && (2 * e + 1) * p == e * (2 * p) + p
  {
  }

  /** `sra32` is division by a power of two, rounding towards minus infinity. */
  lemma {:induction false} SraIsFloorDivision(u: Word, shift: Word)
    requires shift < 32
    ensures Signed(Sra32(u, shift)) == Signed(u) / Pow2(Digit(shift, 0))
    decreases Digit(shift, 0)
  {
    hide Signed, Digit, Half;
    if shift == 0 {
      assert Digit(0, 0) == 0 by { ZeroDigit(); }
    } else {
      DigitStep(shift);
      SraIsFloorDivision(u, shift - 1);
      if shift == 1 {
        SraOne(u);
      } else {
        SraStep(u, shift);
      }
      HalfIsFloor(Sra32(u, shift - 1));
      FloorTwice(Signed(u), Pow2(Digit(shift - 1, 0)));
    }
  }

  lemma ZeroDigit()
    ensures Digit(0, 0) == 0
  {
  }

  // ---------------------------------------------------------------- comparisons

  predicate Below(a: Word, b: Word) { a < b }
  predicate ByteBelow(b: Byte, c: Byte) { b < c }

  lemma BytesInOrder(b: Byte, c: Byte)
    ensures ByteBelow(b, c) <==> b as int < c as int
    ensures b == c <==> b as int == c as int
  {
  }

  lemma DigitOrder(a: Word, b: Word, i: bv2)
    ensures ByteBelow(ByteOf(a, i), ByteOf(b, i)) <==> Digit(a, i) < Digit(b, i)
    ensures ByteOf(a, i) == ByteOf(b, i) <==> Digit(a, i) == Digit(b, i)
  {
    hide ByteOf, ByteBelow;
    BytesInOrder(ByteOf(a, i), ByteOf(b, i));
  }

  // Comparison of words by the highest byte in which they differ.
  lemma DifferAt3(a: Word, b: Word)
    requires ByteOf(a, 3) != ByteOf(b, 3)
    ensures Below(a, b) <==> ByteBelow(ByteOf(a, 3), ByteOf(b, 3))
  {
  }

  /** The lower three bytes moved up by one. */
  function Up(w: Word): Word { w << 8 }

  predicate SameTop(a: Word, b: Word) { a >> 24 == b >> 24 }

  lemma SameTopByte(a: Word, b: Word)
    requires ByteOf(a, 3) == ByteOf(b, 3)
    ensures SameTop(a, b)
  {
  }

  lemma UpKeepsOrder(a: Word, b: Word)
    requires SameTop(a, b) && Below(a, b)
    ensures Below(Up(a), Up(b))
  {
  }

  lemma UpReflectsOrder(a: Word, b: Word)
    requires SameTop(a, b) && Below(Up(a), Up(b))
    ensures Below(a, b)
  {
  }

  lemma TopEqual(a: Word, b: Word)
    requires ByteOf(a, 3) == ByteOf(b, 3)
    ensures Below(a, b) <==> Below(Up(a), Up(b))
  {
    hide ByteOf, SameTop, Below, Up;
    SameTopByte(a, b);
    if Below(a, b) {
      UpKeepsOrder(a, b);
    }
    if Below(Up(a), Up(b)) {
      UpReflectsOrder(a, b);
    }
  }

  lemma BytesUp(w: Word)
    ensures ByteOf(Up(w), 3) == ByteOf(w, 2) && ByteOf(Up(w), 2) == ByteOf(w, 1) && ByteOf(Up(w), 1) == ByteOf(w, 0)
  {
  }

  lemma DifferAt2(a: Word, b: Word)
    requires ByteOf(a, 3) == ByteOf(b, 3) && ByteOf(a, 2) != ByteOf(b, 2)
    ensures Below(a, b) <==> ByteBelow(ByteOf(a, 2), ByteOf(b, 2))
  {
    hide ByteOf, Up, Below, ByteBelow;
    TopEqual(a, b);
    BytesUp(a);
    BytesUp(b);
    DifferAt3(Up(a), Up(b));
  }

  lemma DifferAt1(a: Word, b: Word)
    requires ByteOf(a, 3) == ByteOf(b, 3) && ByteOf(a, 2) == ByteOf(b, 2) && ByteOf(a, 1) != ByteOf(b, 1)
    ensures Below(a, b) <==> ByteBelow(ByteOf(a, 1), ByteOf(b, 1))
  {
    hide ByteOf, Up, Below, ByteBelow;
    TopEqual(a, b);
    BytesUp(a);
    BytesUp(b);
    DifferAt2(Up(a), Up(b));
  }

  lemma DifferAt0(a: Word, b: Word)
    requires ByteOf(a, 3) == ByteOf(b, 3) && ByteOf(a, 2) == ByteOf(b, 2) && ByteOf(a, 1) == ByteOf(b, 1)
    requires ByteOf(a, 0) != ByteOf(b, 0)
    ensures Below(a, b) <==> ByteBelow(ByteOf(a, 0), ByteOf(b, 0))
  {
    hide ByteOf, Up, Below, ByteBelow;
    TopEqual(a, b);
    BytesUp(a);
    BytesUp(b);
    DifferAt1(Up(a), Up(b));
  }

  lemma SameBytes(a: Word, b: Word)
    requires ByteOf(a, 3) == ByteOf(b, 3) && ByteOf(a, 2) == ByteOf(b, 2)
    requires ByteOf(a, 1) == ByteOf(b, 1) && ByteOf(a, 0) == ByteOf(b, 0)
    ensures !Below(a, b)
  {
    assert a == b;
  }

  lemma ByteOrder(a: Word, b: Word)
    ensures Below(a, b) <==> Value(a) < Value(b)
  {
    hide ByteOf, Below, ByteBelow, Digit;
    DigitOrder(a, b, 3);
    DigitOrder(a, b, 2);
    DigitOrder(a, b, 1);
    DigitOrder(a, b, 0);
    if Digit(a, 3) != Digit(b, 3) {
      DifferAt3(a, b);
    } else if Digit(a, 2) != Digit(b, 2) {
      DifferAt2(a, b);
    } else if Digit(a, 1) != Digit(b, 1) {
      DifferAt1(a, b);
    } else if Digit(a, 0) != Digit(b, 0) {
      DifferAt0(a, b);
    } else {
      SameBytes(a, b);
    }
  }

  /** Unsigned comparison of words is comparison of their unsigned numbers. */
  lemma UnsignedOrder(a: Word, b: Word)
    ensures a < b <==> Value(a) < Value(b)
  {
    hide Value;
    ByteOrder(a, b);
  }

  /** The comparison both units use is comparison of the signed numbers. */
  lemma SignedOrder(a: Word, b: Word)
    ensures SignedLess(a, b) <==> Signed(a) < Signed(b)
  {
    hide Negative, Digit;
    UnsignedOrder(a, b);
    SignDigit(a);
    SignDigit(b);
  }

  // ---------------------------------------------------------------- counting

  // The bytes of the next word: a carry runs through the bytes that are full.
  lemma NoCarry(w: Word)
    requires ByteOf(w, 0) != 255
    ensures ByteOf(w + 1, 0) == ByteOf(w, 0) + 1
    ensures ByteOf(w + 1, 1) == ByteOf(w, 1) && ByteOf(w + 1, 2) == ByteOf(w, 2) && ByteOf(w + 1, 3) == ByteOf(w, 3)
  {
  }

  lemma CarryInto1(w: Word)
    requires ByteOf(w, 0) == 255 && ByteOf(w, 1) != 255
    ensures ByteOf(w + 1, 0) == 0 && ByteOf(w + 1, 1) == ByteOf(w, 1) + 1
    ensures ByteOf(w + 1, 2) == ByteOf(w, 2) && ByteOf(w + 1, 3) == ByteOf(w, 3)
  {
  }

  lemma CarryInto2(w: Word)
    requires ByteOf(w, 0) == 255 && ByteOf(w, 1) == 255 && ByteOf(w, 2) != 255
    ensures ByteOf(w + 1, 0) == 0 && ByteOf(w + 1, 1) == 0 && ByteOf(w + 1, 2) == ByteOf(w, 2) + 1
    ensures ByteOf(w + 1, 3) == ByteOf(w, 3)
  {
  }

  lemma CarryInto3(w: Word)
    requires ByteOf(w, 0) == 255 && ByteOf(w, 1) == 255 && ByteOf(w, 2) == 255 && ByteOf(w, 3) != 255
    ensures ByteOf(w + 1, 0) == 0 && ByteOf(w + 1, 1) == 0 && ByteOf(w + 1, 2) == 0
    ensures ByteOf(w + 1, 3) == ByteOf(w, 3) + 1
  {
  }

  function Successor(w: Word): Word { w + 1 }

  function NextByte(b: Byte): Byte { b + 1 }

  lemma ByteSuccessor(b: Byte)
    requires b != 255
    ensures NextByte(b) as int == b as int + 1
  {
  }

  lemma FullByte(b: Byte)
    ensures b == 255 <==> b as int == 255
  {
  }

  /** All four bytes are full: the next word is zero. */
  predicate Full(w: Word) {
    ByteOf(w, 0) == 255 && ByteOf(w, 1) == 255 && ByteOf(w, 2) == 255 && ByteOf(w, 3) == 255
  }

  lemma SuccessorBytes(w: Word)
    requires !Full(w)
    ensures
      var v := Successor(w);
      if ByteOf(w, 0) != 255 then
        ByteOf(v, 0) == NextByte(ByteOf(w, 0)) && ByteOf(v, 1) == ByteOf(w, 1) && ByteOf(v, 2) == ByteOf(w, 2)
        && ByteOf(v, 3) == ByteOf(w, 3)
      else if ByteOf(w, 1) != 255 then
        ByteOf(v, 0) == 0 && ByteOf(v, 1) == NextByte(ByteOf(w, 1)) && ByteOf(v, 2) == ByteOf(w, 2)
        && ByteOf(v, 3) == ByteOf(w, 3)
      else if ByteOf(w, 2) != 255 then
        ByteOf(v, 0) == 0 && ByteOf(v, 1) == 0 && ByteOf(v, 2) == NextByte(ByteOf(w, 2)) && ByteOf(v, 3) == ByteOf(w, 3)
      else
        ByteOf(v, 0) == 0 && ByteOf(v, 1) == 0 && ByteOf(v, 2) == 0 && ByteOf(v, 3) == NextByte(ByteOf(w, 3))
  {
    hide ByteOf;
    if ByteOf(w, 0) != 255 {
      NoCarry(w);
    } else if ByteOf(w, 1) != 255 {
      CarryInto1(w);
    } else if ByteOf(w, 2) != 255 {
      CarryInto2(w);
    } else {
      CarryInto3(w);
    }
  }

  /** The next word stands for the next number. */
  lemma ValueOfSuccessor(w: Word)
    requires !Full(w)
    ensures Value(Successor(w)) == Value(w) + 1
  {
    hide ByteOf, Successor, NextByte;
    SuccessorBytes(w);
    forall i: bv2 ensures Digit(w, i) == 255 <==> ByteOf(w, i) == 255 {
      FullByte(ByteOf(w, i));
    }
    if ByteOf(w, 0) != 255 {
      ByteSuccessor(ByteOf(w, 0));
    } else if ByteOf(w, 1) != 255 {
      ByteSuccessor(ByteOf(w, 1));
    } else if ByteOf(w, 2) != 255 {
      ByteSuccessor(ByteOf(w, 2));
    } else {
      ByteSuccessor(ByteOf(w, 3));
    }
  }

  // ---------------------------------------------------------------- equality

  lemma ByteInjective(a: Byte, b: Byte)
    requires a as int == b as int
    ensures a == b
  {
  }

  lemma BytesDetermine(x: Word, y: Word)
    requires ByteOf(x, 0) == ByteOf(y, 0) && ByteOf(x, 1) == ByteOf(y, 1)
    requires ByteOf(x, 2) == ByteOf(y, 2) && ByteOf(x, 3) == ByteOf(y, 3)
    ensures x == y
  {
  }

  lemma DigitsDetermine(a3: nat, a2: nat, a1: nat, a0: nat, b3: nat, b2: nat, b1: nat, b0: nat)
    requires a2 < 0x100 && a1 < 0x100 && a0 < 0x100 && b2 < 0x100 && b1 < 0x100 && b0 < 0x100
    requires 0x100_0000 * a3 + 0x1_0000 * a2 + 0x100 * a1 + a0 == 0x100_0000 * b3 + 0x1_0000 * b2 + 0x100 * b1 + b0
    ensures a3 == b3 && a2 == b2 && a1 == b1 && a0 == b0
  {
  }

  lemma DigitInjective(x: Word, y: Word, i: bv2)
    requires Digit(x, i) == Digit(y, i)
    ensures ByteOf(x, i) == ByteOf(y, i)
  {
    hide ByteOf;
    ByteInjective(ByteOf(x, i), ByteOf(y, i));
  }

  lemma ValueInjective(x: Word, y: Word)
    requires Value(x) == Value(y)
    ensures x == y
  {
    hide ByteOf, Digit;
    DigitsDetermine(Digit(x, 3), Digit(x, 2), Digit(x, 1), Digit(x, 0), Digit(y, 3), Digit(y, 2), Digit(y, 1),
        Digit(y, 0));
    DigitInjective(x, y, 0);
    DigitInjective(x, y, 1);
    DigitInjective(x, y, 2);
    DigitInjective(x, y, 3);
    BytesDetermine(x, y);
  }
}
