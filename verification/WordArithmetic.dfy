/** Addition, subtraction and shifts of words as operations on the numbers the words stand for, modulo 2^32. */
module WordArithmetic {
  import opened Arithmetic
  import opened Words
  import opened Numbers

  const WORDS: nat := 0x1_0000_0000

  // ---------------------------------------------------------------- addition, one at a time

  lemma ZeroValue()
    ensures Value(0) == 0
  {
  }

  lemma FullBytes(w: Word)
    requires Full(w)
    ensures Successor(w) == 0
  {
  }

  lemma FullValue(w: Word)
    requires Full(w)
    ensures Value(w) == WORDS - 1
  {
    hide ByteOf;
    FullByte(ByteOf(w, 0));
    FullByte(ByteOf(w, 1));
    FullByte(ByteOf(w, 2));
    FullByte(ByteOf(w, 3));
  }

  /** The next word stands for the next number, and the word after the last one for zero. */
  lemma SuccessorWraps(w: Word)
    ensures Value(Successor(w)) == (Value(w) + 1) % WORDS
  {
    hide Full, Successor, Value;
    if Full(w) {
      FullBytes(w);
      FullValue(w);
      ZeroValue();
    } else {
      ValueOfSuccessor(w);
    }
  }

  function Predecessor(w: Word): Word { w - 1 }

  function Sum(a: Word, b: Word): Word { a + b }

  function Difference(a: Word, b: Word): Word { a - b }

  lemma SuccessorOfPredecessor(w: Word)
    ensures Successor(Predecessor(w)) == w
  {
  }

  lemma SumByOneLess(a: Word, b: Word)
    ensures Sum(a, b) == Successor(Sum(a, b - 1))
  {
  }

  lemma PredecessorIs(w: Word)
    ensures Predecessor(w) == w - 1
  {
  }

  lemma SumStep(a: Word, b: Word)
    ensures Sum(a, b) == Successor(Sum(a, Predecessor(b)))
  {
    hide Sum, Successor, Predecessor;
    SumByOneLess(a, b);
    PredecessorIs(b);
  }

  lemma SumOfZero(a: Word)
    ensures Sum(a, 0) == a
  {
  }

  lemma PredecessorValue(w: Word)
    requires w != 0
    ensures Value(w) == Value(Predecessor(w)) + 1
  {
    hide Value, Successor, Predecessor;
    SuccessorOfPredecessor(w);
    SuccessorWraps(Predecessor(w));
    if Value(Predecessor(w)) + 1 == WORDS {
      NotZeroValue(w);
    }
  }

  lemma NotZeroValue(w: Word)
    requires w != 0
    ensures Value(w) != 0
  {
    hide Value;
    ZeroValue();
    UnsignedOrder(0, w);
  }

  lemma AddOne(a: nat, b: nat)
    ensures ((a + b) % WORDS + 1) % WORDS == (a + (b + 1)) % WORDS
  {
  }

  /** Addition of words is addition modulo 2^32. */
  lemma {:induction false} SumValue(a: Word, b: Word)
    ensures Value(Sum(a, b)) == (Value(a) + Value(b)) % WORDS
    decreases Value(b)
  {
    hide Value, Sum, Successor, Predecessor;
    if b == 0 {
      SumOfZero(a);
      ZeroValue();
    } else {
      var c := Predecessor(b);
      PredecessorValue(b);
      SumValue(a, c);
      SumStep(a, b);
      SuccessorWraps(Sum(a, c));
      AddOne(Value(a), Value(c));
    }
  }

  lemma DifferenceIs(a: Word, b: Word)
    ensures Difference(a, b) == a - b
  {
  }

  lemma SumUndoesDifference(a: Word, b: Word)
    ensures Sum(a - b, b) == a
  {
  }

  lemma SumOfDifference(a: Word, b: Word)
    ensures Sum(Difference(a, b), b) == a
  {
    hide Sum, Difference;
    DifferenceIs(a, b);
    SumUndoesDifference(a, b);
  }

  /** Subtraction of words is subtraction modulo 2^32. */
  lemma DifferenceValue(a: Word, b: Word)
    ensures Value(Difference(a, b)) == (Value(a) - Value(b)) % WORDS
  {
    hide Value, Sum, Difference;
    SumOfDifference(a, b);
    SumValue(Difference(a, b), b);
  }

  // ---------------------------------------------------------------- shifts

  function Twice(w: Word): Word { w << 1 }

  lemma TwiceIsSum(w: Word)
    ensures Twice(w) == Sum(w, w)
  {
  }

  lemma TwiceValue(w: Word)
    ensures Value(Twice(w)) == (2 * Value(w)) % WORDS
  {
    hide Value, Twice, Sum;
    TwiceIsSum(w);
    SumValue(w, w);
  }

  function ShiftedLeft(w: Word, s: Word): Word
    requires s < 32
  {
    w << s
  }

  lemma NoShift(w: Word)
    ensures ShiftedLeft(w, 0) == w && Shifted(w, 0) == w
  {
  }

  lemma LeftOnce(w: Word, s: Word)
    requires 0 < s < 32
    ensures ShiftedLeft(w, s) == Twice(ShiftedLeft(w, s - 1))
  {
  }

  lemma TwiceModulo(y: nat)
    ensures (2 * (y % WORDS)) % WORDS == (2 * y) % WORDS
  {
    var q, r := y / WORDS, y % WORDS;
    if 2 * r < WORDS {
      QuotientAndRemainder(2 * q, WORDS, 2 * r);
    } else {
      QuotientAndRemainder(2 * q + 1, WORDS, 2 * r - WORDS);
    }
  }

  /** A number times a power, kept apart from the remainder. */
  function Times(x: nat, p: nat): nat { x * p }

  lemma TwiceTimes(x: nat, p: nat)
    ensures Times(x, 2 * p) == 2 * Times(x, p)
  {
  }

  lemma DoubleModulo(x: nat, p: nat)
    ensures (2 * (Times(x, p) % WORDS)) % WORDS == Times(x, 2 * p) % WORDS
  {
    hide Times;
    TwiceTimes(x, p);
    TwiceModulo(Times(x, p));
  }

  /** A left shift is multiplication by a power of two modulo 2^32. */
  lemma {:induction false} ShiftedLeftValue(w: Word, s: Word)
    requires s < 32
    ensures Value(ShiftedLeft(w, s)) == (Value(w) * Pow2(Digit(s, 0))) % WORDS
    decreases Digit(s, 0)
  {
    hide Value, Digit, ShiftedLeft, Twice;
    if s == 0 {
      NoShift(w);
      ZeroDigit();
    } else {
      DigitStep(s);
      ShiftedLeftValue(w, s - 1);
      LeftOnce(w, s);
      TwiceValue(ShiftedLeft(w, s - 1));
      DoubleModulo(Value(w), Pow2(Digit(s - 1, 0)));
    }
  }

  // The bytes of a word shifted right by one position, with a zero moving in.
  lemma OnceByte0(w: Word)
    ensures ByteOf(Once(w), 0) == ShiftedByte(ByteOf(w, 0), ByteOf(w, 1))
  {
  }

  lemma OnceByte1(w: Word)
    ensures ByteOf(Once(w), 1) == ShiftedByte(ByteOf(w, 1), ByteOf(w, 2))
  {
  }

  lemma OnceByte2(w: Word)
    ensures ByteOf(Once(w), 2) == ShiftedByte(ByteOf(w, 2), ByteOf(w, 3))
  {
  }

  function HalfByte(b: Byte): Byte { b >> 1 }

  lemma OnceByte3(w: Word)
    ensures ByteOf(Once(w), 3) == HalfByte(ByteOf(w, 3))
  {
  }

  lemma HalfByteValue(b: Byte)
    ensures HalfByte(b) as int == b as int / 2
  {
    HalfOfByte(b);
  }

  lemma OnceDigit0(w: Word)
    ensures Digit(Once(w), 0) == Digit(w, 0) / 2 + 128 * (Digit(w, 1) % 2)
  {
    hide ByteOf, Once, ShiftedByte;
    OnceByte0(w);
    ShiftIn(ByteOf(w, 0), ByteOf(w, 1));
  }

  lemma OnceDigit1(w: Word)
    ensures Digit(Once(w), 1) == Digit(w, 1) / 2 + 128 * (Digit(w, 2) % 2)
  {
    hide ByteOf, Once, ShiftedByte;
    OnceByte1(w);
    ShiftIn(ByteOf(w, 1), ByteOf(w, 2));
  }

  lemma OnceDigit2(w: Word)
    ensures Digit(Once(w), 2) == Digit(w, 2) / 2 + 128 * (Digit(w, 3) % 2)
  {
    hide ByteOf, Once, ShiftedByte;
    OnceByte2(w);
    ShiftIn(ByteOf(w, 2), ByteOf(w, 3));
  }

  lemma OnceDigit3(w: Word)
    ensures Digit(Once(w), 3) == Digit(w, 3) / 2
  {
    hide ByteOf, Once, HalfByte;
    OnceByte3(w);
    HalfByteValue(ByteOf(w, 3));
  }

  lemma OnceValue(w: Word)
    ensures Value(Once(w)) == Value(w) / 2
  {
    hide Digit, Once;
    OnceDigit0(w);
    OnceDigit1(w);
    OnceDigit2(w);
    OnceDigit3(w);
  }

  lemma RightOnce(w: Word, s: Word)
    requires 0 < s < 32
    ensures Shifted(w, s) == Once(Shifted(w, s - 1))
  {
  }

  /** A right shift is division by a power of two. */
  lemma {:induction false} ShiftedRightValue(w: Word, s: Word)
    requires s < 32
    ensures Value(Shifted(w, s)) == Value(w) / Pow2(Digit(s, 0))
    decreases Digit(s, 0)
  {
    hide Value, Digit, Shifted, Once;
    if s == 0 {
      NoShift(w);
      ZeroDigit();
    } else {
      DigitStep(s);
      ShiftedRightValue(w, s - 1);
      RightOnce(w, s);
      OnceValue(Shifted(w, s - 1));
      FloorTwice(Value(w), Pow2(Digit(s - 1, 0)));
    }
  }
}
