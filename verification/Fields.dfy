/** Instruction fields and immediates as numbers: the bits of a word at given positions. */
module Fields {
  import opened Arithmetic
  import opened Words
  import opened Numbers
  import opened WordArithmetic
  import opened Decode

  /** The number in the `n` bits of a word from bit `lo` up. */
  function Bits(w: Word, lo: nat, n: nat): (b: nat)
    ensures b < Pow2(n)
  {
    (Value(w) / Pow2(lo)) % Pow2(n)
  }

  // ---------------------------------------------------------------- slices

  /** The lowest `n` bits. */
  function Low(w: Word, n: Word): Word
    requires 0 < n < 32
  {
    w & ((1 << n) - 1)
  }

  lemma LowIsShifted(w: Word, n: Word)
    requires 0 < n < 32
    ensures Low(w, n) == Shifted(ShiftedLeft(w, 32 - n), 32 - n)
  {
  }

  lemma SliceIsLow(w: Word, from: Word, to: Word)
    requires from <= to < 32 && to - from < 31
    ensures TakeBits(w, from, to) == Low(Shifted(w, from), to - from + 1)
  {
  }

  lemma UpAndDown(y: nat, p: nat, q: nat)
    requires p > 0 && q > 0
    ensures ((y * q) % (p * q)) / q == y % p
  {
    var k, r := y / p, y % p;
    assert y * q == k * (p * q) + r * q by {
      assert y == k * p + r;
      Distributes(k, p, r, q);
    }
    ProductBelow(r, p, q);
    QuotientAndRemainder(k, p * q, r * q);
    QuotientAndRemainder(r, q, 0);
  }

  lemma Distributes(k: nat, p: nat, r: nat, q: nat)
    ensures (k * p + r) * q == k * (p * q) + r * q
  {
  }

  lemma ProductBelow(r: nat, p: nat, q: nat)
    requires r < p && q > 0
    ensures r * q < p * q
  {
    ProductGrows(r + 1, p, q);
    OneMoreTime(r, q);
  }

  lemma DigitsComplete(n: Word)
    requires 0 < n < 32
    ensures Digit(n, 0) + Digit(32 - n, 0) == 32 && 32 - n < 32
  {
  }

  lemma LowValue(w: Word, n: Word)
    requires 0 < n < 32
    ensures Value(Low(w, n)) == Value(w) % Pow2(Digit(n, 0))
  {
    hide Value, Digit, Low, Shifted, ShiftedLeft, Pow2;
    LowIsShifted(w, n);
    DigitsComplete(n);
    ShiftedLeftValue(w, 32 - n);
    ShiftedRightValue(ShiftedLeft(w, 32 - n), 32 - n);
    Pow2Sum(Digit(n, 0), Digit(32 - n, 0));
    Pow2Of32();
    UpAndDown(Value(w), Pow2(Digit(n, 0)), Pow2(Digit(32 - n, 0)));
  }

  lemma Pow2Of32()
    ensures Pow2(32) == WORDS
  {
    hide Pow2;
    Pow2Of4();
    Pow2Sum(4, 4);
    Pow2Sum(8, 8);
    Pow2Sum(16, 16);
  }

  lemma Pow2Of4()
    ensures Pow2(4) == 16
  {
  }

  /** A slice stands for the number in its bits. */
  lemma SliceValue(w: Word, from: Word, to: Word)
    requires from <= to < 32 && to - from < 31
    ensures Value(TakeBits(w, from, to)) == Bits(w, Digit(from, 0), Digit(to - from + 1, 0))
  {
    hide Value, Digit, Low, Shifted, TakeBits, Pow2;
    SliceIsLow(w, from, to);
    LowValue(Shifted(w, from), to - from + 1);
    ShiftedRightValue(w, from);
  }

  lemma BitIsSlice(w: Word, pos: Word)
    requires pos < 32
    ensures TakeBit(w, pos) == TakeBits(w, pos, pos)
  {
  }

  lemma SmallDigits()
    ensures Digit(0, 0) == 0
    ensures Digit(1, 0) == 1
    ensures Digit(3, 0) == 3
    ensures Digit(4, 0) == 4
    ensures Digit(5, 0) == 5
    ensures Digit(6, 0) == 6
    ensures Digit(7, 0) == 7
    ensures Digit(8, 0) == 8
    ensures Digit(10, 0) == 10
    ensures Digit(11, 0) == 11
    ensures Digit(12, 0) == 12
    ensures Digit(15, 0) == 15
    ensures Digit(20, 0) == 20
    ensures Digit(21, 0) == 21
    ensures Digit(25, 0) == 25
    ensures Digit(30, 0) == 30
    ensures Digit(31, 0) == 31
  {
  }

  lemma SmallPowers()
    ensures Pow2(0) == 1 && Pow2(1) == 2 && Pow2(3) == 8 && Pow2(4) == 16 && Pow2(5) == 32 && Pow2(6) == 64
    ensures Pow2(7) == 128 && Pow2(8) == 256
  {
  }

  lemma LargePowers()
    ensures Pow2(10) == 1024 && Pow2(11) == 2048 && Pow2(12) == 4096 && Pow2(20) == 0x10_0000
  {
    hide Pow2;
    SmallPowers();
    Pow2Sum(7, 3);
    Pow2Sum(7, 4);
    Pow2Sum(7, 5);
    Pow2Sum(12, 8);
  }

  // The slices of the instruction formats.
  lemma Slice0To6(w: Word)
    ensures Value(TakeBits(w, 0, 6)) == Bits(w, 0, 7)
  {
    hide Value, Digit, TakeBits, Bits;
    SliceValue(w, 0, 6);
    SmallDigits();
  }

  lemma Slice7To11(w: Word)
    ensures Value(TakeBits(w, 7, 11)) == Bits(w, 7, 5)
  {
    hide Value, Digit, TakeBits, Bits;
    SliceValue(w, 7, 11);
    SmallDigits();
  }

  lemma Slice12To14(w: Word)
    ensures Value(TakeBits(w, 12, 14)) == Bits(w, 12, 3)
  {
    hide Value, Digit, TakeBits, Bits;
    SliceValue(w, 12, 14);
    SmallDigits();
  }

  lemma Slice15To19(w: Word)
    ensures Value(TakeBits(w, 15, 19)) == Bits(w, 15, 5)
  {
    hide Value, Digit, TakeBits, Bits;
    SliceValue(w, 15, 19);
    SmallDigits();
  }

  lemma Slice20To24(w: Word)
    ensures Value(TakeBits(w, 20, 24)) == Bits(w, 20, 5)
  {
    hide Value, Digit, TakeBits, Bits;
    SliceValue(w, 20, 24);
    SmallDigits();
  }

  lemma Slice25To31(w: Word)
    ensures Value(TakeBits(w, 25, 31)) == Bits(w, 25, 7)
  {
    hide Value, Digit, TakeBits, Bits;
    SliceValue(w, 25, 31);
    SmallDigits();
  }

  lemma Slice20To31(w: Word)
    ensures Value(TakeBits(w, 20, 31)) == Bits(w, 20, 12)
  {
    hide Value, Digit, TakeBits, Bits;
    SliceValue(w, 20, 31);
    SmallDigits();
  }

  lemma Slice12To31(w: Word)
    ensures Value(TakeBits(w, 12, 31)) == Bits(w, 12, 20)
  {
    hide Value, Digit, TakeBits, Bits;
    SliceValue(w, 12, 31);
    SmallDigits();
  }

  lemma Slice12To19(w: Word)
    ensures Value(TakeBits(w, 12, 19)) == Bits(w, 12, 8)
  {
    hide Value, Digit, TakeBits, Bits;
    SliceValue(w, 12, 19);
    SmallDigits();
  }

  lemma Slice21To30(w: Word)
    ensures Value(TakeBits(w, 21, 30)) == Bits(w, 21, 10)
  {
    hide Value, Digit, TakeBits, Bits;
    SliceValue(w, 21, 30);
    SmallDigits();
  }

  lemma Slice25To30(w: Word)
    ensures Value(TakeBits(w, 25, 30)) == Bits(w, 25, 6)
  {
    hide Value, Digit, TakeBits, Bits;
    SliceValue(w, 25, 30);
    SmallDigits();
  }

  lemma Slice8To11(w: Word)
    ensures Value(TakeBits(w, 8, 11)) == Bits(w, 8, 4)
  {
    hide Value, Digit, TakeBits, Bits;
    SliceValue(w, 8, 11);
    SmallDigits();
  }

  lemma Bit7(w: Word)
    ensures Value(TakeBit(w, 7)) == Bits(w, 7, 1)
  {
    hide Value, Digit, TakeBits, TakeBit, Bits;
    BitIsSlice(w, 7);
    SliceValue(w, 7, 7);
    SmallDigits();
  }

  lemma Bit20(w: Word)
    ensures Value(TakeBit(w, 20)) == Bits(w, 20, 1)
  {
    hide Value, Digit, TakeBits, TakeBit, Bits;
    BitIsSlice(w, 20);
    SliceValue(w, 20, 20);
    SmallDigits();
  }

  lemma Bit30(w: Word)
    ensures Value(TakeBit(w, 30)) == Bits(w, 30, 1)
  {
    hide Value, Digit, TakeBits, TakeBit, Bits;
    BitIsSlice(w, 30);
    SliceValue(w, 30, 30);
    SmallDigits();
  }

  lemma Bit31(w: Word)
    ensures Value(TakeBit(w, 31)) == Bits(w, 31, 1)
  {
    hide Value, Digit, TakeBits, TakeBit, Bits;
    BitIsSlice(w, 31);
    SliceValue(w, 31, 31);
    SmallDigits();
  }

  lemma BitIsOne(w: Word, pos: Word)
    requires pos < 32
    ensures TakeBit(w, pos) == 1 <==> Value(TakeBit(w, pos)) == 1
    ensures TakeBit(w, pos) < 2
  {
    OneIsOne(TakeBit(w, pos));
    BitIsSmall(w, pos);
  }

  lemma OneIsOne(w: Word)
    ensures w == 1 <==> Value(w) == 1
  {
    hide Value;
    ValueOfOne();
    if Value(w) == 1 {
      ValueInjective(w, 1);
    }
  }

  lemma ValueOfOne()
    ensures Value(1) == 1
  {
  }

  lemma BitIsSmall(w: Word, pos: Word)
    requires pos < 32
    ensures TakeBit(w, pos) < 2
  {
  }

  // ---------------------------------------------------------------- immediates

  // Each part moved to its place, and the sum of disjoint parts.

  lemma Place1(w: Word)
    requires 2 * Value(w) < WORDS
    ensures Value(ShiftedLeft(w, 1)) == 2 * Value(w)
  {
    hide Value, Digit, ShiftedLeft, Pow2;
    SmallDigits();
    SmallPowers();
    LargePowers();
    ShiftedLeftValue(w, 1);
  }

  lemma Place5(w: Word)
    requires 32 * Value(w) < WORDS
    ensures Value(ShiftedLeft(w, 5)) == 32 * Value(w)
  {
    hide Value, Digit, ShiftedLeft, Pow2;
    SmallDigits();
    SmallPowers();
    LargePowers();
    ShiftedLeftValue(w, 5);
  }

  lemma Place11(w: Word)
    requires 2048 * Value(w) < WORDS
    ensures Value(ShiftedLeft(w, 11)) == 2048 * Value(w)
  {
    hide Value, Digit, ShiftedLeft, Pow2;
    SmallDigits();
    SmallPowers();
    LargePowers();
    ShiftedLeftValue(w, 11);
  }

  lemma Place12(w: Word)
    requires 4096 * Value(w) < WORDS
    ensures Value(ShiftedLeft(w, 12)) == 4096 * Value(w)
  {
    hide Value, Digit, ShiftedLeft, Pow2;
    SmallDigits();
    SmallPowers();
    LargePowers();
    ShiftedLeftValue(w, 12);
  }

  lemma SmallSum(a: Word, b: Word)
    requires Value(a) + Value(b) < WORDS
    ensures Value(Sum(a, b)) == Value(a) + Value(b)
  {
    hide Value, Sum;
    SumValue(a, b);
  }

  /** A part with fewer than `n` bits. */
  predicate Fits(w: Word, n: Word)
    requires n < 32
  {
    w >> n == 0
  }

  lemma FitsByValue(w: Word, n: Word)
    requires n < 32 && Value(w) < Pow2(Digit(n, 0))
    ensures Fits(w, n)
  {
    hide Value, Digit, Pow2, Shifted;
    ShiftedRightValue(w, n);
    SmallQuotient(Value(w), Pow2(Digit(n, 0)));
    ZeroByValue(Shifted(w, n));
    ShiftedIs(w, n);
  }

  lemma SmallQuotient(x: nat, p: nat)
    requires x < p
    ensures x / p == 0
  {
  }

  lemma ZeroByValue(w: Word)
    requires Value(w) == 0
    ensures w == 0
  {
    hide Value;
    ZeroValue();
    ValueInjective(w, 0);
  }

  lemma ShiftedIs(w: Word, n: Word)
    requires n < 32
    ensures Shifted(w, n) == w >> n
  {
  }

  // The concatenations of the immediates are sums.
  function JoinS(high: Word, low: Word): Word { (high << 5) | low }
  function JoinB(b: Word, mid: Word, low: Word): Word { (b << 11) | (mid << 5) | (low << 1) }
  function JoinJ(high: Word, b: Word, low: Word): Word { (high << 12) | (b << 11) | (low << 1) }

  lemma TwoPartsS(high: Word, low: Word)
    requires Fits(high, 7) && Fits(low, 5)
    ensures JoinS(high, low) == Sum(ShiftedLeft(high, 5), low)
  {
  }

  lemma ThreePartsB(b: Word, mid: Word, low: Word)
    requires Fits(b, 1) && Fits(mid, 6) && Fits(low, 4)
    ensures JoinB(b, mid, low)
         == Sum(Sum(ShiftedLeft(b, 11), ShiftedLeft(mid, 5)), ShiftedLeft(low, 1))
  {
  }

  lemma ThreePartsJ(high: Word, b: Word, low: Word)
    requires Fits(high, 8) && Fits(b, 1) && Fits(low, 10)
    ensures JoinJ(high, b, low)
         == Sum(Sum(ShiftedLeft(high, 12), ShiftedLeft(b, 11)), ShiftedLeft(low, 1))
  {
  }

  // Ones above a field of twelve or twenty bits.
  lemma OnesAbove12(field: Word)
    requires Fits(field, 12)
    ensures 0xFFFF_F000 | field == Sum(0xFFFF_F000, field) && Negative(0xFFFF_F000 | field) && !Negative(field)
  {
  }

  lemma OnesAbove20(field: Word)
    requires Fits(field, 20)
    ensures 0xFFF0_0000 | field == Sum(0xFFF0_0000, field) && Negative(0xFFF0_0000 | field) && !Negative(field)
  {
  }

  lemma ValuesOfOnes()
    ensures Value(0xFFFF_F000) == WORDS - 4096 && Value(0xFFF0_0000) == WORDS - 0x10_0000
  {
  }

  lemma Widen12(field: Word, negative: bool)
    requires Fits(field, 12) && Value(field) < 4096
    ensures Signed(Widen(field, negative, 0xFFFF_F000)) == Value(field) - if negative then 4096 else 0
  {
    hide Value, Negative, Sum, Fits;
    OnesAbove12(field);
    ValuesOfOnes();
    SumValue(0xFFFF_F000, field);
  }

  lemma Widen20(field: Word, negative: bool)
    requires Fits(field, 20) && Value(field) < 0x10_0000
    ensures Signed(Widen(field, negative, 0xFFF0_0000)) == Value(field) - if negative then 0x10_0000 else 0
  {
    hide Value, Negative, Sum, Fits;
    OnesAbove20(field);
    ValuesOfOnes();
    SumValue(0xFFF0_0000, field);
  }

  /** The sign of an instruction. */
  lemma SignBitIs(w: Word)
    ensures TakeBit(w, 31) == 1 <==> Bits(w, 31, 1) == 1
  {
    hide Value, TakeBit, Bits;
    Bit31(w);
    BitIsOne(w, 31);
  }

  /** What a part of an instruction fits into. */
  lemma FieldFits(w: Word, field: Word, lo: nat, n: Word)
    requires n < 32 && Value(field) == Bits(w, lo, Digit(n, 0))
    ensures Fits(field, n)
  {
    hide Value, Digit, Pow2;
    FitsByValue(field, n);
  }

  // The immediates of the five formats, as numbers.

  function NumberI(inst: Word): int { Bits(inst, 20, 12) - 4096 * Bits(inst, 31, 1) }

  function NumberU(inst: Word): nat { 4096 * Bits(inst, 12, 20) }

  function NumberS(inst: Word): int { 32 * Bits(inst, 25, 7) + Bits(inst, 7, 5) - 4096 * Bits(inst, 31, 1) }

  function NumberB(inst: Word): int {
    2048 * Bits(inst, 7, 1) + 32 * Bits(inst, 25, 6) + 2 * Bits(inst, 8, 4) - 4096 * Bits(inst, 31, 1)
  }

  function NumberJ(inst: Word): int {
    4096 * Bits(inst, 12, 8) + 2048 * Bits(inst, 20, 1) + 2 * Bits(inst, 21, 10) - 0x10_0000 * Bits(inst, 31, 1)
  }

  lemma BitBound(w: Word, lo: nat)
    ensures Bits(w, lo, 1) < 2
  {
    SmallPowers();
  }

  lemma ImmediateI(inst: Word)
    ensures Signed(IImm(inst)) == NumberI(inst)
  {
    hide Value, Signed, TakeBits, TakeBit, Bits, Widen, Fits, Digit, Pow2;
    SmallDigits();
    LargePowers();
    Slice20To31(inst);
    FieldFits(inst, TakeBits(inst, 20, 31), 20, 12);
    SignBitIs(inst);
    BitBound(inst, 31);
    Widen12(TakeBits(inst, 20, 31), TakeBit(inst, 31) == 1);
  }

  lemma ImmediateU(inst: Word)
    ensures Value(UImm(inst)) == NumberU(inst)
  {
    hide Value, TakeBits, Bits, Digit, Pow2, ShiftedLeft, UImm;
    LargePowers();
    Slice12To31(inst);
    Place12(TakeBits(inst, 12, 31));
    UImmIs(inst);
  }

  lemma UImmIs(inst: Word)
    ensures UImm(inst) == ShiftedLeft(TakeBits(inst, 12, 31), 12)
  {
    hide TakeBits;
  }

  lemma FieldS(inst: Word)
    ensures
      var field := JoinS(TakeBits(inst, 25, 31), TakeBits(inst, 7, 11));
      Value(field) == 32 * Bits(inst, 25, 7) + Bits(inst, 7, 5)
  {
    hide Value, TakeBits, Bits, Fits, Digit, Pow2, ShiftedLeft, Sum, JoinS;
    SmallDigits();
    SmallPowers();
    Slice25To31(inst);
    Slice7To11(inst);
    FieldFits(inst, TakeBits(inst, 25, 31), 25, 7);
    FieldFits(inst, TakeBits(inst, 7, 11), 7, 5);
    TwoPartsS(TakeBits(inst, 25, 31), TakeBits(inst, 7, 11));
    Place5(TakeBits(inst, 25, 31));
    SmallSum(ShiftedLeft(TakeBits(inst, 25, 31), 5), TakeBits(inst, 7, 11));
  }

  lemma FieldB(inst: Word)
    ensures
      var field := JoinB(TakeBit(inst, 7), TakeBits(inst, 25, 30), TakeBits(inst, 8, 11));
      Value(field) == 2048 * Bits(inst, 7, 1) + 32 * Bits(inst, 25, 6) + 2 * Bits(inst, 8, 4)
  {
    hide Value, TakeBits, TakeBit, Bits, Fits, Digit, Pow2, ShiftedLeft, Sum, JoinB;
    SmallDigits();
    SmallPowers();
    var b, mid, low := TakeBit(inst, 7), TakeBits(inst, 25, 30), TakeBits(inst, 8, 11);
    Bit7(inst);
    Slice25To30(inst);
    Slice8To11(inst);
    FieldFits(inst, b, 7, 1);
    FieldFits(inst, mid, 25, 6);
    FieldFits(inst, low, 8, 4);
    ThreePartsB(b, mid, low);
    Place11(b);
    Place5(mid);
    Place1(low);
    SmallSum(ShiftedLeft(b, 11), ShiftedLeft(mid, 5));
    SmallSum(Sum(ShiftedLeft(b, 11), ShiftedLeft(mid, 5)), ShiftedLeft(low, 1));
  }

  lemma FieldJ(inst: Word)
    ensures
      var field := JoinJ(TakeBits(inst, 12, 19), TakeBit(inst, 20), TakeBits(inst, 21, 30));
      Value(field) == 4096 * Bits(inst, 12, 8) + 2048 * Bits(inst, 20, 1) + 2 * Bits(inst, 21, 10)
  {
    hide Value, TakeBits, TakeBit, Bits, Fits, Digit, Pow2, ShiftedLeft, Sum, JoinJ;
    SmallDigits();
    SmallPowers();
    LargePowers();
    var high, b, low := TakeBits(inst, 12, 19), TakeBit(inst, 20), TakeBits(inst, 21, 30);
    Slice12To19(inst);
    Bit20(inst);
    Slice21To30(inst);
    FieldFits(inst, high, 12, 8);
    FieldFits(inst, b, 20, 1);
    FieldFits(inst, low, 21, 10);
    ThreePartsJ(high, b, low);
    Place12(high);
    Place11(b);
    Place1(low);
    SmallSum(ShiftedLeft(high, 12), ShiftedLeft(b, 11));
    SmallSum(Sum(ShiftedLeft(high, 12), ShiftedLeft(b, 11)), ShiftedLeft(low, 1));
  }

  lemma FitsIn12(field: Word)
    requires Value(field) < 4096
    ensures Fits(field, 12)
  {
    hide Value, Digit, Pow2, Fits;
    SmallDigits();
    LargePowers();
    FitsByValue(field, 12);
  }

  lemma FitsIn20(field: Word)
    requires Value(field) < 0x10_0000
    ensures Fits(field, 20)
  {
    hide Value, Digit, Pow2, Fits;
    SmallDigits();
    LargePowers();
    FitsByValue(field, 20);
  }

  lemma SImmIs(inst: Word)
    ensures
      var field := JoinS(TakeBits(inst, 25, 31), TakeBits(inst, 7, 11));
      SImm(inst) == Widen(field, TakeBit(inst, 31) == 1, 0xFFFF_F000)
  {
    hide TakeBits, TakeBit, Widen;
  }

  lemma ImmediateS(inst: Word)
    ensures Signed(SImm(inst)) == NumberS(inst)
  {
    hide Value, Signed, TakeBits, TakeBit, Bits, Widen, Fits, Pow2, JoinS, SImm;
    SImmIs(inst);
    SmallPowers();
    FieldS(inst);
    SignBitIs(inst);
    BitBound(inst, 31);
    FitsIn12(JoinS(TakeBits(inst, 25, 31), TakeBits(inst, 7, 11)));
    Widen12(JoinS(TakeBits(inst, 25, 31), TakeBits(inst, 7, 11)), TakeBit(inst, 31) == 1);
  }

  lemma BImmIs(inst: Word)
    ensures
      var field := JoinB(TakeBit(inst, 7), TakeBits(inst, 25, 30), TakeBits(inst, 8, 11));
      BImm(inst) == Widen(field, TakeBit(inst, 31) == 1, 0xFFFF_F000)
  {
    hide TakeBits, TakeBit, Widen;
  }

  lemma ImmediateB(inst: Word)
    ensures Signed(BImm(inst)) == NumberB(inst)
  {
    hide Value, Signed, TakeBits, TakeBit, Bits, Widen, Fits, Pow2, JoinB, BImm;
    BImmIs(inst);
    SmallPowers();
    FieldB(inst);
    SignBitIs(inst);
    BitBound(inst, 31);
    var field := JoinB(TakeBit(inst, 7), TakeBits(inst, 25, 30), TakeBits(inst, 8, 11));
    FitsIn12(field);
    Widen12(field, TakeBit(inst, 31) == 1);
  }

  lemma JImmIs(inst: Word)
    ensures
      var field := JoinJ(TakeBits(inst, 12, 19), TakeBit(inst, 20), TakeBits(inst, 21, 30));
      JImm(inst) == Widen(field, TakeBit(inst, 31) == 1, 0xFFF0_0000)
  {
    hide TakeBits, TakeBit, Widen;
  }

  lemma ImmediateJ(inst: Word)
    ensures Signed(JImm(inst)) == NumberJ(inst)
  {
    hide Value, Signed, TakeBits, TakeBit, Bits, Widen, Fits, Pow2, JoinJ, JImm;
    JImmIs(inst);
    SmallPowers();
    LargePowers();
    FieldJ(inst);
    SignBitIs(inst);
    BitBound(inst, 31);
    var field := JoinJ(TakeBits(inst, 12, 19), TakeBit(inst, 20), TakeBits(inst, 21, 30));
    FitsIn20(field);
    Widen20(field, TakeBit(inst, 31) == 1);
  }
}
