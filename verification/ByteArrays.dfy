/** Flash and RAM as byte arrays that are updated in place. */
module ByteArrays {
  import opened Words
  import opened Memory
  import opened Numbers

  const MEM_SIZE := 32 * 1024 * 1024
  const FLASH_SIZE := 16 * 1024 * 1024

  // ---------------------------------------------------------------- array indices

  lemma RamTop(i: Word)
    requires i < 0x200_0000
    ensures Digit(i, 3) < 2
  {
  }

  lemma FlashTop(i: Word)
    requires i < 0x100_0000
    ensures Digit(i, 3) < 1
  {
  }

  lemma RamIndex(i: Word)
    requires i < 0x200_0000
    ensures Value(i) < MEM_SIZE
  {
    hide Digit;
    RamTop(i);
  }

  lemma FlashIndex(i: Word)
    requires i < 0x100_0000
    ensures Value(i) < FLASH_SIZE
  {
    hide Digit;
    FlashTop(i);
  }

  /** The four bytes from offset `i` are inside an array of length `n`. */
  ghost predicate WordInside(i: Word, n: nat) {
    Value(i) < n && Value(i + 1) < n && Value(i + 2) < n && Value(i + 3) < n
  }

  // The four bytes of a mapped word are inside the arrays.
  lemma RamByte0(addr: Word)
    requires InRam(addr)
    ensures Value(RamOffset(addr)) < MEM_SIZE
  {
    hide Value;
    assert RamOffset(addr) < 0x200_0000;
    RamIndex(RamOffset(addr));
  }

  lemma RamByte1(addr: Word)
    requires InRam(addr)
    ensures Value(RamOffset(addr) + 1) < MEM_SIZE
  {
    hide Value;
    assert RamOffset(addr) + 1 < 0x200_0000;
    RamIndex(RamOffset(addr) + 1);
  }

  lemma RamByte2(addr: Word)
    requires InRam(addr)
    ensures Value(RamOffset(addr) + 2) < MEM_SIZE
  {
    hide Value;
    assert RamOffset(addr) + 2 < 0x200_0000;
    RamIndex(RamOffset(addr) + 2);
  }

  lemma RamByte3(addr: Word)
    requires InRam(addr)
    ensures Value(RamOffset(addr) + 3) < MEM_SIZE
  {
    hide Value;
    assert RamOffset(addr) + 3 < 0x200_0000;
    RamIndex(RamOffset(addr) + 3);
  }

  lemma RamBytes(addr: Word)
    requires InRam(addr)
    ensures WordInside(RamOffset(addr), MEM_SIZE + 4)
  {
    hide Value, InRam;
    RamByte0(addr);
    RamByte1(addr);
    RamByte2(addr);
    RamByte3(addr);
  }

  lemma FlashByte0(addr: Word)
    requires InFlash(addr)
    ensures Value(FlashOffset(addr)) < FLASH_SIZE
  {
    hide Value;
    assert FlashOffset(addr) < 0x100_0000;
    FlashIndex(FlashOffset(addr));
  }

  lemma FlashByte1(addr: Word)
    requires InFlash(addr)
    ensures Value(FlashOffset(addr) + 1) < FLASH_SIZE
  {
    hide Value;
    assert FlashOffset(addr) + 1 < 0x100_0000;
    FlashIndex(FlashOffset(addr) + 1);
  }

  lemma FlashByte2(addr: Word)
    requires InFlash(addr)
    ensures Value(FlashOffset(addr) + 2) < FLASH_SIZE
  {
    hide Value;
    assert FlashOffset(addr) + 2 < 0x100_0000;
    FlashIndex(FlashOffset(addr) + 2);
  }

  lemma FlashByte3(addr: Word)
    requires InFlash(addr)
    ensures Value(FlashOffset(addr) + 3) < FLASH_SIZE
  {
    hide Value;
    assert FlashOffset(addr) + 3 < 0x100_0000;
    FlashIndex(FlashOffset(addr) + 3);
  }

  lemma FlashBytes(addr: Word)
    requires InFlash(addr)
    ensures WordInside(FlashOffset(addr), FLASH_SIZE + 4)
  {
    hide Value, InFlash;
    FlashByte0(addr);
    FlashByte1(addr);
    FlashByte2(addr);
    FlashByte3(addr);
  }

  // ---------------------------------------------------------------- contents

  /** The array contents `s` are the bytes `m`. */
  ghost predicate Holds(s: seq<Byte>, m: Bytes) {
    forall i: Word :: Value(i) < |s| ==> s[Value(i)] == ByteAt(m, i)
  }

  /** Updating one cell of the array is updating one byte of the contents. */
  lemma HoldsUpdate(s: seq<Byte>, m: Bytes, i: Word, b: Byte)
    requires Holds(s, m) && Value(i) < |s|
    ensures Holds(s[Value(i) := b], m[Slot(i) := b])
  {
    hide Value;
    forall j: Word | Value(j) < |s| ensures s[Value(i) := b][Value(j)] == ByteAt(m[Slot(i) := b], j) {
      if Value(j) == Value(i) {
        ValueInjective(i, j);
      }
    }
  }

  lemma AllZeroHolds(s: seq<Byte>)
    requires forall k :: 0 <= k < |s| ==> s[k] == 0
    ensures Holds(s, map[])
  {
    hide Value;
  }

  lemma ByteHeld(s: seq<Byte>, m: Bytes, i: Word)
    requires Holds(s, m) && Value(i) < |s|
    ensures s[Value(i)] == ByteAt(m, i)
  {
    hide Value, ByteAt;
  }

  /** Four cells of the array make the word of the contents at that offset. */
  lemma WordHeld(s: seq<Byte>, m: Bytes, i: Word)
    requires Holds(s, m)
    requires WordInside(i, |s|)
    ensures Join(s[Value(i + 3)], s[Value(i + 2)], s[Value(i + 1)], s[Value(i)]) == WordAt(m, i)
  {
    hide Value, ByteAt, Join, Holds;
    ByteHeld(s, m, i);
    ByteHeld(s, m, i + 1);
    ByteHeld(s, m, i + 2);
    ByteHeld(s, m, i + 3);
  }

  // ---------------------------------------------------------------- copying a file into flash

  /** The first `n` bytes are those of `data`, the others as before. */
  ghost predicate Flashed(before: Bytes, after: Bytes, data: seq<Byte>, n: nat)
    requires n <= |data|
  {
    forall j: Word :: ByteAt(after, j) == if Value(j) < n then data[Value(j)] else ByteAt(before, j)
  }

  lemma NothingFlashed(m: Bytes, data: seq<Byte>)
    ensures Value(0) == 0 && Flashed(m, m, data, 0)
  {
    hide ByteAt;
  }

  lemma FlashedStep(before: Bytes, after: Bytes, data: seq<Byte>, i: Word)
    requires Value(i) < |data| && Flashed(before, after, data, Value(i))
    ensures Flashed(before, after[Slot(i) := data[Value(i)]], data, Value(i) + 1)
  {
    hide Value;
    var after' := after[Slot(i) := data[Value(i)]];
    forall j: Word
      ensures ByteAt(after', j) == if Value(j) < Value(i) + 1 then data[Value(j)] else ByteAt(before, j)
    {
      if Value(j) == Value(i) {
        ValueInjective(i, j);
      }
      assert j != i ==> ByteAt(after', j) == ByteAt(after, j);
    }
  }

  lemma TopByteNotFull(i: Word)
    requires Value(i) < 0xFF00_0000
    ensures ByteOf(i, 3) != 255
  {
    FullByte(ByteOf(i, 3));
  }

  class ByteArrays {
    const mem: array<Byte>
    const flash: array<Byte>
    ghost var contents: Mem

    ghost predicate Valid()
      reads this, mem, flash
    {
      && mem.Length == MEM_SIZE + 4
      && flash.Length == FLASH_SIZE + 4
      && mem != flash
      && Holds(mem[..], contents.ram)
      && Holds(flash[..], contents.flash)
    }

    constructor ()
      ensures Valid() && fresh(mem) && fresh(flash)
      ensures contents == Mem(map[], map[])
    {
      hide Value, ByteAt;
      mem := new Byte[MEM_SIZE + 4](_ => 0);
      flash := new Byte[FLASH_SIZE + 4](_ => 0);
      contents := Mem(map[], map[]);
      new;
      AllZeroHolds(mem[..]);
      AllZeroHolds(flash[..]);
    }

    method PutByte(i: Word, b: Byte)
      requires Valid() && Value(i) < mem.Length
      modifies this`contents, mem
      ensures Valid()
      ensures contents == old(contents).(ram := old(contents).ram[Slot(i) := b])
    {
      hide Value, Holds;
      HoldsUpdate(mem[..], contents.ram, i, b);
      mem[Value(i)] := b;
      contents := contents.(ram := contents.ram[Slot(i) := b]);
    }

    method PutFlashByte(i: Word, b: Byte)
      requires Valid() && Value(i) < flash.Length
      modifies this`contents, flash
      ensures Valid()
      ensures contents == old(contents).(flash := old(contents).flash[Slot(i) := b])
    {
      hide Value, Holds;
      HoldsUpdate(flash[..], contents.flash, i, b);
      flash[Value(i)] := b;
      contents := contents.(flash := contents.flash[Slot(i) := b]);
    }

    /** Copy the first `size` bytes of a program into flash. */
    method FlashInit(data: seq<Byte>, size: Word)
      requires Valid() && Value(size) <= |data| && Value(size) <= flash.Length
      modifies this`contents, flash
      ensures Valid() && contents.ram == old(contents.ram)
      ensures Flashed(old(contents.flash), contents.flash, data, Value(size))
    {
      hide Value, Holds, Flashed, Successor;
      NothingFlashed(contents.flash, data);
      var i: Word := 0;
      UnsignedOrder(i, size);
      while i < size
        invariant Valid() && contents.ram == old(contents.ram)
        invariant i < size <==> Value(i) < Value(size)
        invariant Value(i) <= Value(size) && Flashed(old(contents.flash), contents.flash, data, Value(i))
        decreases Value(size) - Value(i)
      {
        FlashedStep(old(contents.flash), contents.flash, data, i);
        PutFlashByte(i, data[Value(i)]);
        TopByteNotFull(i);
        ValueOfSuccessor(i);
        i := Successor(i);
        UnsignedOrder(i, size);
      }
    }

    /** The masked bytes of a store, from offset `i` of the RAM array. */
    method PutBytes(mask: bv4, i: Word, wdata: Word)
      requires Valid()
      requires WordInside(i, mem.Length)
      modifies this`contents, mem
      ensures Valid()
      ensures contents == old(contents).(ram := PutMasked(old(contents).ram, mask, i, wdata))
    {
      hide Value, ByteOf, Holds;
      if mask & 1 != 0 {
        PutByte(i, ByteOf(wdata, 0));
      }
      if mask & 2 != 0 {
        PutByte(i + 1, ByteOf(wdata, 1));
      }
      if mask & 4 != 0 {
        PutByte(i + 2, ByteOf(wdata, 2));
      }
      if mask & 8 != 0 {
        PutByte(i + 3, ByteOf(wdata, 3));
      }
    }

    method RamWord(i: Word) returns (w: Word)
      requires Valid() && WordInside(i, mem.Length)
      ensures w == WordAt(contents.ram, i)
    {
      hide Value, Join, ByteAt, Holds, WordAt;
      WordHeld(mem[..], contents.ram, i);
      w := Join(mem[Value(i + 3)], mem[Value(i + 2)], mem[Value(i + 1)], mem[Value(i)]);
    }

    method FlashWord(i: Word) returns (w: Word)
      requires Valid() && WordInside(i, flash.Length)
      ensures w == WordAt(contents.flash, i)
    {
      hide Value, Join, ByteAt, Holds, WordAt;
      WordHeld(flash[..], contents.flash, i);
      w := Join(flash[Value(i + 3)], flash[Value(i + 2)], flash[Value(i + 1)], flash[Value(i)]);
    }
  }

  lemma UartApart(addr: Word)
    ensures !(InUart(addr) && InFlash(addr)) && !(InUart(addr) && InRam(addr))
  {
  }
}
