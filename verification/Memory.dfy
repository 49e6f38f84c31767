/** Flash and RAM, and the two ways the repository reads and writes them. */
module Memory {
  import opened Words

  const MEM_START: Word := 0x8000_0000
  const MEM_END: Word := 0x8200_0000
  const FLASH_START: Word := 0x3000_0000
  const FLASH_END: Word := 0x3100_0000
  const UART_START: Word := 0x1000_0000
  const UART_END: Word := 0x1000_0FFF

  /** The contents of the two byte arrays, by offset. An offset that was never written reads as zero. */
  datatype Place = Slot(offset: Word)
  type Bytes = map<Place, Byte>
  datatype Mem = Mem(ram: Bytes, flash: Bytes)

  // Offsets into the two arrays, and the start of the word around an address or offset.
  function RamOffset(addr: Word): Word { addr - MEM_START }
  function FlashOffset(addr: Word): Word { addr - FLASH_START }
  function WordBase(addr: Word): Word { addr & 0xFFFF_FFFC }

  predicate InFlash(addr: Word) { FLASH_START <= addr < FLASH_END - 3 }
  predicate InRam(addr: Word) { MEM_START <= addr < MEM_END - 3 }
  predicate InUart(addr: Word) { UART_START <= addr < UART_END }
  predicate Mapped(addr: Word) { InFlash(addr) || InRam(addr) }

  function ByteAt(m: Bytes, i: Word): Byte {
    if Slot(i) in m then m[Slot(i)] else 0
  }

  function WordAt(m: Bytes, i: Word): Word {
    Join(ByteAt(m, i + 3), ByteAt(m, i + 2), ByteAt(m, i + 1), ByteAt(m, i))
  }

  function PutIf(m: Bytes, enable: bool, i: Word, b: Byte): Bytes {
    if enable then m[Slot(i) := b] else m
  }

  /** Store the bytes of `data` whose mask bit is set at offsets `i`, `i + 1`, `i + 2`, `i + 3`. */
  function PutMasked(m: Bytes, mask: bv4, i: Word, data: Word): Bytes {
    var m0 := PutIf(m, mask & 1 != 0, i, ByteOf(data, 0));
    var m1 := PutIf(m0, mask & 2 != 0, i + 1, ByteOf(data, 1));
    var m2 := PutIf(m1, mask & 4 != 0, i + 2, ByteOf(data, 2));
    PutIf(m2, mask & 8 != 0, i + 3, ByteOf(data, 3))
  }

  /** `g_mem_read`: four bytes at any alignment. Device registers are not part of this model. */
  function GoldenRead(m: Mem, addr: Word): Word {
    if InFlash(addr) then WordAt(m.flash, FlashOffset(addr))
    else if InRam(addr) then WordAt(m.ram, RamOffset(addr))
    else 0
  }

  /** `g_mem_write`: masked bytes at any alignment; flash is read only. */
  function GoldenWrite(m: Mem, mask: bv4, addr: Word, data: Word): Mem {
    if InRam(addr) then m.(ram := PutMasked(m.ram, mask, RamOffset(addr), data)) else m
  }

  /** `v_mem_read`: the aligned word around an address. */
  function BusRead(m: Mem, addr: Word): Word {
    if InFlash(addr) then WordAt(m.flash, WordBase(FlashOffset(addr)))
    else if InRam(addr) then WordAt(m.ram, WordBase(RamOffset(addr)))
    else 0
  }

  /** `v_mem_write`: masked bytes of the aligned word around an address. */
  function BusWrite(m: Mem, mask: bv4, addr: Word, data: Word): Mem {
    if InRam(addr) then m.(ram := PutMasked(m.ram, mask, WordBase(RamOffset(addr)), data)) else m
  }

  lemma RegionsDisjoint(addr: Word)
    ensures !(InFlash(addr) && InRam(addr))
  {
  }

  // Rounding down commutes with the move to an offset, because both regions start at a word.
  lemma RoundedFlashOffset(addr: Word)
    ensures WordBase(FlashOffset(addr)) == (addr - 0x3000_0000) & 0xFFFF_FFFC
  {
  }

  lemma FlashOffsetRounded(addr: Word)
    ensures FlashOffset(WordBase(addr)) == (addr & 0xFFFF_FFFC) - 0x3000_0000
  {
  }

  lemma FlashOffsetOfWordBase(addr: Word)
    ensures WordBase(FlashOffset(addr)) == FlashOffset(WordBase(addr))
  {
    hide WordBase, FlashOffset;
    RoundedFlashOffset(addr);
    FlashOffsetRounded(addr);
  }

  lemma RoundedRamOffset(addr: Word)
    ensures WordBase(RamOffset(addr)) == (addr - 0x8000_0000) & 0xFFFF_FFFC
  {
  }

  lemma RamOffsetRounded(addr: Word)
    ensures RamOffset(WordBase(addr)) == (addr & 0xFFFF_FFFC) - 0x8000_0000
  {
  }

  lemma RamOffsetOfWordBase(addr: Word)
    ensures WordBase(RamOffset(addr)) == RamOffset(WordBase(addr))
  {
    hide WordBase, RamOffset;
    RoundedRamOffset(addr);
    RamOffsetRounded(addr);
  }

  lemma OffsetsOfWordBase(addr: Word)
    ensures WordBase(FlashOffset(addr)) == FlashOffset(WordBase(addr))
    ensures WordBase(RamOffset(addr)) == RamOffset(WordBase(addr))
  {
    hide WordBase, FlashOffset, RamOffset;
    FlashOffsetOfWordBase(addr);
    RamOffsetOfWordBase(addr);
  }

  lemma WordBaseTwice(addr: Word)
    ensures WordBase(WordBase(addr)) == WordBase(addr)
  {
  }

  lemma WordBaseInFlash(addr: Word)
    requires InFlash(addr)
    ensures InFlash(WordBase(addr))
  {
  }

  lemma WordBaseInRam(addr: Word)
    requires InRam(addr)
    ensures InRam(WordBase(addr))
  {
  }

  // ---------------------------------------------------------------- what reads and writes mean

  /** What a masked store leaves in each byte. */
  lemma PutMaskedByte(m: Bytes, mask: bv4, i: Word, data: Word, k: Word)
    ensures ByteAt(PutMasked(m, mask, i, data), k) ==
            if k == i && mask & 1 != 0 then ByteOf(data, 0)
            else if k == i + 1 && mask & 2 != 0 then ByteOf(data, 1)
            else if k == i + 2 && mask & 4 != 0 then ByteOf(data, 2)
            else if k == i + 3 && mask & 8 != 0 then ByteOf(data, 3)
            else ByteAt(m, k)
  {
    hide ByteOf;
    OffsetsDiffer(i);
  }

  lemma OffsetsDiffer(i: Word)
    ensures i != i + 1 && i != i + 2 && i != i + 3 && i + 1 != i + 2 && i + 1 != i + 3 && i + 2 != i + 3
  {
  }

  lemma JoinOfBytes(w: Word)
    ensures Join(ByteOf(w, 3), ByteOf(w, 2), ByteOf(w, 1), ByteOf(w, 0)) == w
  {
  }

  // The four bytes of a stored word.
  lemma StoredByte0(m: Bytes, i: Word, data: Word)
    ensures ByteAt(PutMasked(m, 15, i, data), i) == ByteOf(data, 0)
  {
    hide ByteOf;
  }

  lemma StoredByte1(m: Bytes, i: Word, data: Word)
    ensures ByteAt(PutMasked(m, 15, i, data), i + 1) == ByteOf(data, 1)
  {
    hide ByteOf;
    OffsetsDiffer(i);
  }

  lemma StoredByte2(m: Bytes, i: Word, data: Word)
    ensures ByteAt(PutMasked(m, 15, i, data), i + 2) == ByteOf(data, 2)
  {
    hide ByteOf;
    OffsetsDiffer(i);
  }

  lemma StoredByte3(m: Bytes, i: Word, data: Word)
    ensures ByteAt(PutMasked(m, 15, i, data), i + 3) == ByteOf(data, 3)
  {
    hide ByteOf;
  }

  lemma StoredWord(m: Bytes, i: Word, data: Word)
    ensures WordAt(PutMasked(m, 15, i, data), i) == data
  {
    hide PutMasked, Join, ByteOf, ByteAt;
    StoredByte0(m, i, data);
    StoredByte1(m, i, data);
    StoredByte2(m, i, data);
    StoredByte3(m, i, data);
    JoinOfBytes(data);
  }

  /** A word stored at any mapped alignment is read back. */
  lemma StoredWordReadBack(m: Mem, addr: Word, data: Word)
    requires InRam(addr)
    ensures GoldenRead(GoldenWrite(m, 15, addr, data), addr) == data
  {
    hide PutMasked, WordAt, RamOffset, InRam, InFlash;
    RegionsDisjoint(addr);
    StoredWord(m.ram, RamOffset(addr), data);
  }
}
