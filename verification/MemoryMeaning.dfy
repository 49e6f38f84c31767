/** What the golden model's memory accesses do, in terms of numbers: addresses, bytes and extensions. */
module MemoryMeaning {
  import opened Words
  import opened Numbers
  import opened WordArithmetic
  import opened Memory
  import opened Golden

  // ---------------------------------------------------------------- the memory map

  lemma Borders()
    ensures Value(0x3000_0000) == 0x3000_0000 && Value(0x30FF_FFFD) == 0x30FF_FFFD
    ensures Value(0x8000_0000) == 0x8000_0000 && Value(0x81FF_FFFD) == 0x81FF_FFFD
    ensures Value(0x1000_0000) == 0x1000_0000 && Value(0x1000_0FFF) == 0x1000_0FFF
  {
  }

  lemma RegionsByWord(a: Word)
    ensures InFlash(a) <==> 0x3000_0000 <= a < 0x30FF_FFFD
    ensures InRam(a) <==> 0x8000_0000 <= a < 0x81FF_FFFD
    ensures InUart(a) <==> 0x1000_0000 <= a < 0x1000_0FFF
  {
  }

  /** The three regions, by number; the last three bytes of flash and RAM are left out. */
  lemma Regions(a: Word)
    ensures InFlash(a) <==> 0x3000_0000 <= Value(a) < 0x3100_0000 - 3
    ensures InRam(a) <==> 0x8000_0000 <= Value(a) < 0x8200_0000 - 3
    ensures InUart(a) <==> 0x1000_0000 <= Value(a) < 0x1000_0FFF
  {
    hide Value, InFlash, InRam, InUart;
    Borders();
    RegionsByWord(a);
    UnsignedOrder(a, 0x3000_0000);
    UnsignedOrder(a, 0x30FF_FFFD);
    UnsignedOrder(a, 0x8000_0000);
    UnsignedOrder(a, 0x81FF_FFFD);
    UnsignedOrder(a, 0x1000_0000);
    UnsignedOrder(a, 0x1000_0FFF);
  }

  lemma OffsetsAre(a: Word)
    ensures FlashOffset(a) == Difference(a, 0x3000_0000) && RamOffset(a) == Difference(a, 0x8000_0000)
  {
  }

  /** The offset of a mapped address into its array. */
  lemma Offsets(a: Word)
    ensures InFlash(a) ==> Value(FlashOffset(a)) == Value(a) - 0x3000_0000
    ensures InRam(a) ==> Value(RamOffset(a)) == Value(a) - 0x8000_0000
  {
    hide Value, InFlash, InRam, FlashOffset, RamOffset, Difference;
    Borders();
    Regions(a);
    OffsetsAre(a);
    DifferenceValue(a, 0x3000_0000);
    DifferenceValue(a, 0x8000_0000);
  }

  // ---------------------------------------------------------------- reads

  lemma BytesOfJoin(b3: Byte, b2: Byte, b1: Byte, b0: Byte)
    ensures ByteOf(Join(b3, b2, b1, b0), 0) == b0 && ByteOf(Join(b3, b2, b1, b0), 1) == b1
    ensures ByteOf(Join(b3, b2, b1, b0), 2) == b2 && ByteOf(Join(b3, b2, b1, b0), 3) == b3
  {
  }

  /** The byte at a number in an array of bytes. */
  ghost predicate ByteIs(m: Bytes, n: nat, b: Byte) {
    exists i: Word :: Value(i) == n && ByteAt(m, i) == b
  }

  /** A word has at each place the byte that lies so many places further in the array. */
  ghost predicate WordIs(m: Bytes, n: nat, w: Word) {
    ByteIs(m, n, ByteOf(w, 0)) && ByteIs(m, n + 1, ByteOf(w, 1)) && ByteIs(m, n + 2, ByteOf(w, 2))
    && ByteIs(m, n + 3, ByteOf(w, 3))
  }

  lemma ByteThere(m: Bytes, i: Word)
    ensures ByteIs(m, Value(i), ByteAt(m, i))
  {
    hide Value, ByteAt;
  }

  lemma NotFull(w: Word)
    requires Value(w) < 0xFFFF_FFFF
    ensures !Full(w)
  {
    hide ByteOf;
    FullByte(ByteOf(w, 0));
    FullByte(ByteOf(w, 1));
    FullByte(ByteOf(w, 2));
    FullByte(ByteOf(w, 3));
  }

  lemma NextIs(w: Word)
    requires Value(w) < 0xFFFF_FFFF
    ensures Value(Successor(w)) == Value(w) + 1
  {
    hide Value, Successor, Full;
    NotFull(w);
    ValueOfSuccessor(w);
  }

  // The offsets of the bytes of a word.
  lemma OneFurther(i: Word)
    requires Value(i) < 0xFFFF_FFF0
    ensures Value(i + 1) == Value(i) + 1
  {
    hide Value;
    NextIs(i);
    assert Successor(i) == i + 1;
  }

  lemma TwoFurther(i: Word)
    requires Value(i) < 0xFFFF_FFF0
    ensures Value(i + 2) == Value(i) + 2
  {
    hide Value, Successor;
    NextIs(i);
    NextIs(Successor(i));
    SuccessorTwice(i);
  }

  lemma SuccessorTwice(i: Word)
    ensures Successor(Successor(i)) == i + 2
  {
  }

  lemma ThreeFurther(i: Word)
    requires Value(i) < 0xFFFF_FFF0
    ensures Value(i + 3) == Value(i) + 3
  {
    hide Value, Successor;
    NextIs(i);
    NextIs(Successor(i));
    NextIs(Successor(Successor(i)));
    SuccessorThrice(i);
  }

  lemma SuccessorThrice(i: Word)
    ensures Successor(Successor(Successor(i))) == i + 3
  {
  }

  lemma WordThere(m: Bytes, i: Word)
    requires Value(i) < 0xFFFF_FFF0
    ensures WordIs(m, Value(i), WordAt(m, i))
  {
    hide Value, ByteAt, Join, ByteOf, ByteIs;
    BytesOfJoin(ByteAt(m, i + 3), ByteAt(m, i + 2), ByteAt(m, i + 1), ByteAt(m, i));
    ByteThere(m, i);
    ByteThere(m, i + 1);
    ByteThere(m, i + 2);
    ByteThere(m, i + 3);
    OneFurther(i);
    TwoFurther(i);
    ThreeFurther(i);
  }

  /** A read returns the four bytes from its address on, in flash or in RAM. */
  lemma ReadMeans(m: Mem, a: Word)
    ensures 0x3000_0000 <= Value(a) < 0x30FF_FFFD ==> WordIs(m.flash, Value(a) - 0x3000_0000, GoldenRead(m, a))
    ensures 0x8000_0000 <= Value(a) < 0x81FF_FFFD ==> WordIs(m.ram, Value(a) - 0x8000_0000, GoldenRead(m, a))
  {
    hide Value, InFlash, InRam, FlashOffset, RamOffset, WordAt, WordIs;
    Regions(a);
    Offsets(a);
    if InFlash(a) {
      WordThere(m.flash, FlashOffset(a));
    } else if InRam(a) {
      WordThere(m.ram, RamOffset(a));
    }
  }

  // ---------------------------------------------------------------- extensions

  function LowHalf(w: Word): nat { Digit(w, 0) + 256 * Digit(w, 1) }

  /** What a load with this function code makes of the word it reads. */
  predicate Loads(funct3: nat, w: Word, r: Word) {
    if funct3 == 0 then Signed(r) == if Digit(w, 0) < 128 then Digit(w, 0) else Digit(w, 0) - 256
    else if funct3 == 1 then Signed(r) == if LowHalf(w) < 0x8000 then LowHalf(w) else LowHalf(w) - 0x1_0000
    else if funct3 == 2 then r == w
    else if funct3 == 4 then Value(r) == Digit(w, 0)
    else if funct3 == 5 then Value(r) == LowHalf(w)
    else false
  }

  // The bytes of an extended byte or half word.
  lemma BytesOfByte(w: Word, signed: bool)
    ensures
      var r, fill := ExtendByte(w, signed), if signed && ByteOf(w, 0) >= 128 then 255 else 0;
      ByteOf(r, 0) == ByteOf(w, 0) && ByteOf(r, 1) == fill && ByteOf(r, 2) == fill && ByteOf(r, 3) == fill
  {
  }

  lemma BytesOfHalf(w: Word, signed: bool)
    ensures
      var r, fill := ExtendHalf(w, signed), if signed && ByteOf(w, 1) >= 128 then 255 else 0;
      ByteOf(r, 0) == ByteOf(w, 0) && ByteOf(r, 1) == ByteOf(w, 1) && ByteOf(r, 2) == fill && ByteOf(r, 3) == fill
  {
  }

  lemma Fill(b: Byte)
    ensures (255 as bv8) as int == 255 && (b >= 128 <==> b as int >= 128)
  {
    ByteAtLeast128(b);
  }

  lemma ByteExtends(w: Word)
    ensures Loads(0, w, ExtendByte(w, true)) && Loads(4, w, ExtendByte(w, false))
  {
    hide ByteOf, ExtendByte, Negative;
    BytesOfByte(w, true);
    BytesOfByte(w, false);
    Fill(ByteOf(w, 0));
    SignDigit(ExtendByte(w, true));
  }

  lemma HalfExtends(w: Word)
    ensures Loads(1, w, ExtendHalf(w, true)) && Loads(5, w, ExtendHalf(w, false))
  {
    hide ByteOf, ExtendHalf, Negative;
    BytesOfHalf(w, true);
    BytesOfHalf(w, false);
    Fill(ByteOf(w, 1));
    SignDigit(ExtendHalf(w, true));
  }

  // ---------------------------------------------------------------- writes

  /** The number of bytes a store with this function code writes. */
  function StoreWidth(funct3: nat): nat {
    if funct3 == 0 then 1 else if funct3 == 1 then 2 else if funct3 == 2 then 4 else 0
  }

  /** After a store of `width` bytes of `data` at offset `n`, byte `j` of the array. */
  function StoredByte(m: Bytes, n: nat, width: nat, data: Word, j: Word): Byte {
    if Value(j) == n && width > 0 then ByteOf(data, 0)
    else if Value(j) == n + 1 && width > 1 then ByteOf(data, 1)
    else if Value(j) == n + 2 && width > 2 then ByteOf(data, 2)
    else if Value(j) == n + 3 && width > 2 then ByteOf(data, 3)
    else ByteAt(m, j)
  }

  lemma MaskBits()
    ensures (1 as bv4) & 1 != 0 && (1 as bv4) & 2 == 0 && (1 as bv4) & 4 == 0 && (1 as bv4) & 8 == 0
    ensures (3 as bv4) & 1 != 0 && (3 as bv4) & 2 != 0 && (3 as bv4) & 4 == 0 && (3 as bv4) & 8 == 0
    ensures (15 as bv4) & 1 != 0 && (15 as bv4) & 2 != 0 && (15 as bv4) & 4 != 0 && (15 as bv4) & 8 != 0
    ensures (0 as bv4) & 1 == 0 && (0 as bv4) & 2 == 0 && (0 as bv4) & 4 == 0 && (0 as bv4) & 8 == 0
  {
  }

  /** The mask of a store of so many bytes. */
  predicate MaskFor(mask: bv4, width: nat) {
    && (mask & 1 != 0 <==> width > 0) && (mask & 2 != 0 <==> width > 1)
    && (mask & 4 != 0 <==> width > 2) && (mask & 8 != 0 <==> width > 2)
  }

  lemma SameOffset(i: Word, k: Word)
    ensures k == i <==> Value(k) == Value(i)
  {
    hide Value;
    if Value(k) == Value(i) {
      ValueInjective(k, i);
    }
  }

  lemma PutMeans(m: Bytes, mask: bv4, width: nat, i: Word, data: Word, j: Word)
    requires MaskFor(mask, width) && Value(i) < 0xFFFF_FFF0
    ensures ByteAt(PutMasked(m, mask, i, data), j) == StoredByte(m, Value(i), width, data, j)
  {
    hide Value, ByteAt, PutMasked, ByteOf;
    PutMaskedByte(m, mask, i, data, j);
    OneFurther(i);
    TwoFurther(i);
    ThreeFurther(i);
    SameOffset(i, j);
    SameOffset(i + 1, j);
    SameOffset(i + 2, j);
    SameOffset(i + 3, j);
  }

  /** A store changes the bytes from its address on, in RAM and nowhere else. */
  lemma WriteMeans(m: Mem, mask: bv4, width: nat, a: Word, data: Word)
    requires MaskFor(mask, width)
    ensures GoldenWrite(m, mask, a, data).flash == m.flash
    ensures
      if 0x8000_0000 <= Value(a) < 0x81FF_FFFD
      then forall j: Word ::
             ByteAt(GoldenWrite(m, mask, a, data).ram, j) == StoredByte(m.ram, Value(a) - 0x8000_0000, width, data, j)
      else GoldenWrite(m, mask, a, data) == m
  {
    hide Value, InRam, RamOffset, PutMasked, ByteAt, StoredByte, MaskFor;
    Regions(a);
    Offsets(a);
    if InRam(a) {
      forall j: Word
        ensures ByteAt(PutMasked(m.ram, mask, RamOffset(a), data), j)
             == StoredByte(m.ram, Value(a) - 0x8000_0000, width, data, j)
      {
        PutMeans(m.ram, mask, width, RamOffset(a), data, j);
      }
    }
  }
}
