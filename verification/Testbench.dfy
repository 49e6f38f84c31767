/** The test bench's side of the bus: word accesses to its own copies of flash and RAM. */
module Testbench {
  import opened Words
  import opened Memory
  import opened ByteArrays

  /** An aligned word around a mapped address is inside the arrays. */
  lemma RamWordInside(addr: Word)
    requires InRam(addr)
    ensures WordInside(WordBase(RamOffset(addr)), MEM_SIZE + 4)
  {
    hide WordBase, InRam, RamOffset, WordInside;
    WordBaseInRam(addr);
    OffsetsOfWordBase(addr);
    RamBytes(WordBase(addr));
  }

  lemma FlashWordInside(addr: Word)
    requires InFlash(addr)
    ensures WordInside(WordBase(FlashOffset(addr)), FLASH_SIZE + 4)
  {
    hide WordBase, InFlash, FlashOffset, WordInside;
    WordBaseInFlash(addr);
    OffsetsOfWordBase(addr);
    FlashBytes(WordBase(addr));
  }

  class BusMemory {
    const store: ByteArrays
    var isMemWrite: bool
    var writtenAddress: Word

    ghost predicate Valid()
      reads this, store, store.mem, store.flash
    {
      store.Valid()
    }

    constructor ()
      ensures Valid() && fresh(store) && fresh(store.mem) && fresh(store.flash)
      ensures store.contents == Mem(map[], map[])
    {
      store := new ByteArrays();
      isMemWrite, writtenAddress := false, 0;
    }

    /** `vcpu_flash_init` */
    method FlashInit(data: seq<Byte>, size: Word)
      requires Valid() && Value(size) <= |data| && Value(size) <= store.flash.Length
      modifies store`contents, store.flash
      ensures Valid() && store.contents.ram == old(store.contents.ram)
      ensures Flashed(old(store.contents.flash), store.contents.flash, data, Value(size))
    {
      hide Value, Holds, Flashed;
      store.FlashInit(data, size);
    }

    /** `v_mem_read` */
    method Read(addr: Word) returns (result: Word)
      requires Valid()
      ensures result == BusRead(store.contents, addr)
    {
      hide Value, Holds, WordInside, WordAt, WordBase, InRam, InFlash, RamOffset, FlashOffset;
      RegionsDisjoint(addr);
      result := 0;
      if InFlash(addr) {
        FlashWordInside(addr);
        result := store.FlashWord(WordBase(FlashOffset(addr)));
      } else if InRam(addr) {
        RamWordInside(addr);
        result := store.RamWord(WordBase(RamOffset(addr)));
      }
    }

    /** `v_mem_write`: flash and unmapped addresses keep their contents. */
    method Write(wen: bool, mask: bv4, addr: Word, wdata: Word)
      requires Valid()
      modifies this, store, store.mem
      ensures Valid()
      ensures store.contents == if wen then BusWrite(old(store.contents), mask, addr, wdata) else old(store.contents)
      ensures isMemWrite == wen && writtenAddress == if wen then addr else old(writtenAddress)
    {
      hide Value, Holds, WordInside, PutMasked, WordBase, InRam, InFlash, RamOffset;
      RegionsDisjoint(addr);
      isMemWrite := wen;
      if wen {
        writtenAddress := addr;
        if InRam(addr) {
          RamWordInside(addr);
          store.PutBytes(mask, WordBase(RamOffset(addr)), wdata);
        }
      }
    }
  }
}
