/**
 * What the instructions mean, independently of both implementations: instruction fields are cut out
 * at literal positions, operations are named by their literal codes, and results are numbers.
 */
module Isa {
  import opened Arithmetic
  import opened Words
  import opened Numbers
  import opened WordArithmetic
  import opened Alu

  // ---------------------------------------------------------------- calculations

  /** Bit `i` of a word is set. */
  predicate IsSet(w: Word, i: Word)
    requires i < 32
  {
    w & (1 << i) != 0
  }

  /** The amount of a shift: the operand modulo 32. */
  function Amount(b: Word): nat { Value(b) % 32 }

  /**
   * `r` is what the calculation with this function code and operands yields. `alternate` turns
   * addition into subtraction and the logical right shift into the arithmetic one.
   */
  ghost predicate Yields(funct3: nat, alternate: bool, a: Word, b: Word, r: Word) {
    if funct3 == 0 then
      Value(r) == if alternate then (Value(a) - Value(b)) % 0x1_0000_0000 else (Value(a) + Value(b)) % 0x1_0000_0000
    else if funct3 == 1 then Value(r) == (Value(a) * Pow2(Amount(b))) % 0x1_0000_0000
    else if funct3 == 2 then Value(r) == if Signed(a) < Signed(b) then 1 else 0
    else if funct3 == 3 then Value(r) == if Value(a) < Value(b) then 1 else 0
    else if funct3 == 4 then forall i: Word | i < 32 :: IsSet(r, i) <==> IsSet(a, i) != IsSet(b, i)
    else if funct3 == 5 then
      if alternate then Signed(r) == Signed(a) / Pow2(Amount(b)) else Value(r) == Value(a) / Pow2(Amount(b))
    else if funct3 == 6 then forall i: Word | i < 32 :: IsSet(r, i) <==> IsSet(a, i) || IsSet(b, i)
    else forall i: Word | i < 32 :: IsSet(r, i) <==> IsSet(a, i) && IsSet(b, i)
  }

  // One code at a time, on both units.

  lemma ZeroAndOne()
    ensures Value(0) == 0 && Value(1) == 1
  {
  }

  lemma AddUnfolds(a: Word, b: Word)
    ensures GoldenAlu(0, a, b) == a + b
  {
    hide TakeBits, Sra32, SignedLess;
  }

  lemma SubUnfolds(a: Word, b: Word)
    ensures GoldenAlu(8, a, b) == a - b
  {
    hide TakeBits, Sra32, SignedLess;
  }

  lemma SumIs(a: Word, b: Word)
    ensures Sum(a, b) == a + b
  {
  }

  lemma AddYields(a: Word, b: Word)
    ensures Yields(0, false, a, b, GoldenAlu(0, a, b)) && Yields(0, true, a, b, GoldenAlu(8, a, b))
  {
    hide GoldenAlu, Value, Sum, Difference;
    AddUnfolds(a, b);
    SubUnfolds(a, b);
    SumIs(a, b);
    DifferenceIs(a, b);
    SumValue(a, b);
    DifferenceValue(a, b);
  }

  lemma AmountDigit(b: Word)
    ensures TakeBits(b, 0, 4) < 32 && ByteOf(TakeBits(b, 0, 4), 0) == ByteOf(b, 0) & 31
  {
  }

  lemma Modulo32(b: Byte)
    ensures (b & 31) as int == b as int % 32
  {
  }

  lemma ValueModulo32(b: Word)
    ensures Value(b) % 32 == Digit(b, 0) % 32
  {
    hide Digit;
  }

  lemma DigitModulo32(b: Word)
    ensures TakeBits(b, 0, 4) < 32 && Digit(TakeBits(b, 0, 4), 0) == Digit(b, 0) % 32
  {
    hide ByteOf, TakeBits;
    AmountDigit(b);
    Modulo32(ByteOf(b, 0));
  }

  lemma ShiftAmount(b: Word)
    ensures TakeBits(b, 0, 4) < 32 && Digit(TakeBits(b, 0, 4), 0) == Amount(b)
  {
    hide Value, Digit, TakeBits;
    DigitModulo32(b);
    ValueModulo32(b);
  }

  lemma SllUnfolds(a: Word, b: Word)
    requires TakeBits(b, 0, 4) < 32
    ensures GoldenAlu(1, a, b) == ShiftedLeft(a, TakeBits(b, 0, 4))
  {
    hide TakeBits, Sra32, SignedLess;
  }

  lemma SrlUnfolds(a: Word, b: Word)
    requires TakeBits(b, 0, 4) < 32
    ensures GoldenAlu(5, a, b) == Shifted(a, TakeBits(b, 0, 4))
  {
    hide TakeBits, Sra32, SignedLess;
  }

  lemma SraUnfolds(a: Word, b: Word)
    requires TakeBits(b, 0, 4) < 32
    ensures GoldenAlu(13, a, b) == Sra32(a, TakeBits(b, 0, 4))
  {
    hide TakeBits, Sra32, SignedLess;
  }

  lemma ShiftYields(a: Word, b: Word)
    ensures Yields(1, false, a, b, GoldenAlu(1, a, b)) && Yields(5, false, a, b, GoldenAlu(5, a, b))
    ensures Yields(5, true, a, b, GoldenAlu(13, a, b))
  {
    hide GoldenAlu, Value, Signed, TakeBits, Sra32, Shifted, ShiftedLeft, Digit, Amount;
    ShiftAmount(b);
    SllUnfolds(a, b);
    SrlUnfolds(a, b);
    SraUnfolds(a, b);
    ShiftedLeftValue(a, TakeBits(b, 0, 4));
    ShiftedRightValue(a, TakeBits(b, 0, 4));
    SraIsFloorDivision(a, TakeBits(b, 0, 4));
  }

  lemma LessUnfolds(a: Word, b: Word)
    ensures GoldenAlu(2, a, b) == if SignedLess(a, b) then 1 else 0
    ensures GoldenAlu(3, a, b) == if a < b then 1 else 0
  {
    hide SignedLess;
  }

  lemma LessYields(a: Word, b: Word)
    ensures Yields(2, false, a, b, GoldenAlu(2, a, b)) && Yields(3, false, a, b, GoldenAlu(3, a, b))
  {
    hide GoldenAlu, Value, Signed, SignedLess;
    LessUnfolds(a, b);
    SignedOrder(a, b);
    UnsignedOrder(a, b);
    ZeroAndOne();
  }

  /** The word with only bit `i` set. */
  function OneBit(i: Word): Word
    requires i < 32
  {
    1 << i
  }

  // The bitwise operations, seen through a mask.
  function Xor(a: Word, b: Word): Word { a ^ b }
  function Or(a: Word, b: Word): Word { a | b }
  function And(a: Word, b: Word): Word { a & b }

  /** Through this mask a word is zero or the mask itself. */
  predicate Single(m: Word) { m & (m - 1) == 0 && m != 0 }

  lemma OneBitIsSingle(i: Word)
    requires i < 32
    ensures Single(OneBit(i))
  {
  }

  lemma SingleMask(w: Word, m: Word)
    requires Single(m)
    ensures w & m == 0 || w & m == m
  {
  }

  lemma XorMasked(a: Word, b: Word, m: Word)
    ensures Xor(a, b) & m == Xor(a & m, b & m)
  {
  }

  lemma OrMasked(a: Word, b: Word, m: Word)
    ensures Or(a, b) & m == Or(a & m, b & m)
  {
  }

  lemma AndMasked(a: Word, b: Word, m: Word)
    ensures And(a, b) & m == And(a & m, b & m)
  {
  }

  // On the two values a masked word can have.
  lemma XorOnMask(m: Word)
    ensures Xor(0, 0) == 0 && Xor(0, m) == m && Xor(m, 0) == m && Xor(m, m) == 0
  {
  }

  lemma OrOnMask(m: Word)
    ensures Or(0, 0) == 0 && Or(0, m) == m && Or(m, 0) == m && Or(m, m) == m
  {
  }

  lemma AndOnMask(m: Word)
    ensures And(0, 0) == 0 && And(0, m) == 0 && And(m, 0) == 0 && And(m, m) == m
  {
  }

  lemma MaskValues(x: Word, y: Word, m: Word)
    requires m != 0 && (x == 0 || x == m) && (y == 0 || y == m)
    ensures Xor(x, y) != 0 <==> (x != 0) != (y != 0)
    ensures Or(x, y) != 0 <==> x != 0 || y != 0
    ensures And(x, y) != 0 <==> x != 0 && y != 0
  {
    hide Xor, Or, And;
    XorOnMask(m);
    OrOnMask(m);
    AndOnMask(m);
  }

  lemma SetIs(w: Word, i: Word)
    requires i < 32
    ensures IsSet(w, i) <==> w & OneBit(i) != 0
  {
  }

  lemma BitsOfLogic(a: Word, b: Word, i: Word)
    requires i < 32
    ensures IsSet(Xor(a, b), i) <==> IsSet(a, i) != IsSet(b, i)
    ensures IsSet(Or(a, b), i) <==> IsSet(a, i) || IsSet(b, i)
    ensures IsSet(And(a, b), i) <==> IsSet(a, i) && IsSet(b, i)
  {
    hide IsSet, OneBit, Xor, Or, And;
    var m := OneBit(i);
    OneBitIsSingle(i);
    SingleMask(a, m);
    SingleMask(b, m);
    XorMasked(a, b, m);
    OrMasked(a, b, m);
    AndMasked(a, b, m);
    MaskValues(a & m, b & m, m);
    SetIs(a, i);
    SetIs(b, i);
    SetIs(Xor(a, b), i);
    SetIs(Or(a, b), i);
    SetIs(And(a, b), i);
  }

  lemma XorUnfolds(a: Word, b: Word)
    ensures GoldenAlu(4, a, b) == Xor(a, b)
  {
    hide TakeBits, Sra32, SignedLess;
  }

  lemma OrUnfolds(a: Word, b: Word)
    ensures GoldenAlu(6, a, b) == Or(a, b)
  {
    hide TakeBits, Sra32, SignedLess;
  }

  lemma AndUnfolds(a: Word, b: Word)
    ensures GoldenAlu(7, a, b) == And(a, b)
  {
    hide TakeBits, Sra32, SignedLess;
  }

  lemma LogicYields(a: Word, b: Word)
    ensures Yields(4, false, a, b, GoldenAlu(4, a, b)) && Yields(6, false, a, b, GoldenAlu(6, a, b))
    ensures Yields(7, false, a, b, GoldenAlu(7, a, b))
  {
    hide GoldenAlu, IsSet, Xor, Or, And, Value, Signed;
    XorUnfolds(a, b);
    OrUnfolds(a, b);
    AndUnfolds(a, b);
    forall i: Word | i < 32
      ensures IsSet(GoldenAlu(4, a, b), i) <==> IsSet(a, i) != IsSet(b, i)
    {
      BitsOfLogic(a, b, i);
    }
    forall i: Word | i < 32
      ensures IsSet(GoldenAlu(6, a, b), i) <==> IsSet(a, i) || IsSet(b, i)
    {
      BitsOfLogic(a, b, i);
    }
    forall i: Word | i < 32
      ensures IsSet(GoldenAlu(7, a, b), i) <==> IsSet(a, i) && IsSet(b, i)
    {
      BitsOfLogic(a, b, i);
    }
  }

  /** Every calculation, on the golden model's unit and on the hardware's. */
  lemma AluYields(funct3: bv3, alternate: bool, a: Word, b: Word)
    requires alternate ==> funct3 == 0 || funct3 == 5
    ensures
      var code: bv4 := if alternate then (if funct3 == 0 then 8 else 13) else funct3 as bv4;
      Yields(funct3 as int, alternate, a, b, GoldenAlu(code, a, b)) && RtlAlu(code, a, b) == GoldenAlu(code, a, b)
  {
    hide Yields, GoldenAlu, RtlAlu;
    AddYields(a, b);
    ShiftYields(a, b);
    LessYields(a, b);
    LogicYields(a, b);
    AlusAgree(if alternate then (if funct3 == 0 then 8 else 13) else funct3 as bv4, a, b);
  }

  function Not(b: Word): Word { !b }

  lemma PassUnfolds(a: Word, b: Word)
    ensures RtlAlu(10, a, b) == a && RtlAlu(11, a, b) == b
  {
    hide TakeBits, SignedLess, ShiftRightArithmetic;
  }

  lemma AndNotUnfolds(a: Word, b: Word)
    ensures RtlAlu(15, a, b) == a & !b
  {
    hide TakeBits, SignedLess, ShiftRightArithmetic;
  }

  lemma AndNotIs(a: Word, b: Word)
    ensures And(a, Not(b)) == a & !b
  {
  }

  lemma NotMasked(b: Word, m: Word)
    ensures Not(b) & m == Xor(m, b & m)
  {
  }

  lemma BitsOfNot(b: Word, i: Word)
    requires i < 32
    ensures IsSet(Not(b), i) <==> !IsSet(b, i)
  {
    hide IsSet, OneBit, Xor, Not;
    var m := OneBit(i);
    OneBitIsSingle(i);
    SingleMask(b, m);
    NotMasked(b, m);
    XorOnMask(m);
    SetIs(b, i);
    SetIs(Not(b), i);
  }

  /** The three codes only the hardware has: either operand, and the first without the bits of the second. */
  lemma OwnCodes(a: Word, b: Word)
    ensures RtlAlu(10, a, b) == a && RtlAlu(11, a, b) == b
    ensures forall i: Word | i < 32 :: IsSet(RtlAlu(15, a, b), i) <==> IsSet(a, i) && !IsSet(b, i)
  {
    hide RtlAlu, IsSet, And, Not;
    PassUnfolds(a, b);
    AndNotUnfolds(a, b);
    AndNotIs(a, b);
    forall i: Word | i < 32
      ensures IsSet(RtlAlu(15, a, b), i) <==> IsSet(a, i) && !IsSet(b, i)
    {
      BitsOfLogic(a, Not(b), i);
      BitsOfNot(b, i);
    }
  }

  // ---------------------------------------------------------------- comparisons

  /** The condition a branch code stands for; the two codes without one never hold. */
  predicate Holds(funct3: nat, a: Word, b: Word) {
    if funct3 == 0 then Value(a) == Value(b)
    else if funct3 == 1 then Value(a) != Value(b)
    else if funct3 == 4 then Signed(a) < Signed(b)
    else if funct3 == 5 then Signed(a) >= Signed(b)
    else if funct3 == 6 then Value(a) < Value(b)
    else if funct3 == 7 then Value(a) >= Value(b)
    else false
  }

  lemma EqualValues(a: Word, b: Word)
    ensures a == b <==> Value(a) == Value(b)
  {
    hide Value;
    if Value(a) == Value(b) {
      ValueInjective(a, b);
    }
  }

  lemma CompareUnfolds(a: Word, b: Word)
    ensures GoldenCompare(0, a, b) == (a == b) && GoldenCompare(1, a, b) == (a != b)
    ensures GoldenCompare(4, a, b) == SignedLess(a, b) && GoldenCompare(5, a, b) == !SignedLess(a, b)
    ensures GoldenCompare(6, a, b) == (a < b) && GoldenCompare(7, a, b) == (a >= b)
    ensures !GoldenCompare(2, a, b) && !GoldenCompare(3, a, b)
  {
    hide SignedLess;
  }

  lemma RtlCompareUnfolds(funct3: bv3, a: Word, b: Word)
    ensures RtlCompare(funct3, a, b) == (GoldenCompare(funct3, a, b) || funct3 == 2)
  {
    hide SignedLess;
  }

  /** Every comparison, on both units; the hardware has one more code, which always holds. */
  lemma CompareHolds(funct3: bv3, a: Word, b: Word)
    ensures GoldenCompare(funct3, a, b) <==> Holds(funct3 as int, a, b)
    ensures RtlCompare(funct3, a, b) <==> Holds(funct3 as int, a, b) || funct3 == 2
  {
    hide GoldenCompare, RtlCompare, Value, Signed, SignedLess;
    CompareUnfolds(a, b);
    RtlCompareUnfolds(funct3, a, b);
    EqualValues(a, b);
    SignedOrder(a, b);
    UnsignedOrder(a, b);
  }
}
