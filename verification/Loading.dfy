/** From the instruction buffer to memory: a program copied into flash byte by byte is fetched word by word. */
module Loading {
  import opened Words
  import opened Memory
  import opened Numbers
  import opened ByteArrays
  import opened Golden
  import opened Generator
  import opened Gcpu

  // ---------------------------------------------------------------- the buffer as bytes

  /** Byte `k` of a word in a little-endian buffer. */
  function BufferByte(w: Word, k: nat): Byte
    requires k < 4
  {
    if k == 0 then ByteOf(w, 0) else if k == 1 then ByteOf(w, 1) else if k == 2 then ByteOf(w, 2) else ByteOf(w, 3)
  }

  /** The instruction buffer seen as bytes. */
  function ProgramBytes(insts: seq<Word>): (data: seq<Byte>)
    ensures |data| == 4 * |insts|
  {
    seq(4 * |insts|, k requires 0 <= k < 4 * |insts| => BufferByte(insts[k / 4], k % 4))
  }

  lemma ProgramByte(insts: seq<Word>, k: nat)
    requires k < |insts|
    ensures ProgramBytes(insts)[4 * k] == ByteOf(insts[k], 0)
    ensures ProgramBytes(insts)[4 * k + 1] == ByteOf(insts[k], 1)
    ensures ProgramBytes(insts)[4 * k + 2] == ByteOf(insts[k], 2)
    ensures ProgramBytes(insts)[4 * k + 3] == ByteOf(insts[k], 3)
  {
    hide ByteOf;
  }

  // ---------------------------------------------------------------- offsets of the instructions

  lemma SmallSuccessor(w: Word)
    requires Value(w) < 0xFF00_0000
    ensures Value(Successor(w)) == Value(w) + 1
  {
    hide Value, Successor;
    TopByteNotFull(w);
    ValueOfSuccessor(w);
  }

  lemma ByteOneOn(m: Bytes, o: Word)
    ensures ByteAt(m, o + 1) == ByteAt(m, Successor(o))
  {
  }

  lemma ByteTwoOn(m: Bytes, o: Word)
    ensures ByteAt(m, o + 2) == ByteAt(m, Successor(Successor(o)))
  {
    assert Successor(Successor(o)) == o + 2;
  }

  lemma ByteThreeOn(m: Bytes, o: Word)
    ensures ByteAt(m, o + 3) == ByteAt(m, Successor(Successor(Successor(o))))
  {
    assert Successor(Successor(Successor(o))) == o + 3;
  }

  lemma FourSuccessors(pc: Word)
    ensures FlashOffset(Following(pc)) == Successor(Successor(Successor(Successor(FlashOffset(pc)))))
  {
  }

  lemma FirstOffset()
    ensures Value(FlashOffset(INITIAL_PC)) == 0
  {
  }

  /** Instruction `i` is at offset `4 i` in flash. */
  lemma {:induction false} InstructionOffset(i: nat)
    requires 4 * i <= 0x100_0000
    ensures Value(FlashOffset(PcAt(i))) == 4 * i
  {
    hide Value, FlashOffset, Following, Successor;
    if i == 0 {
      FirstOffset();
    } else {
      InstructionOffset(i - 1);
      var o := FlashOffset(PcAt(i - 1));
      FourSuccessors(PcAt(i - 1));
      SmallSuccessor(o);
      SmallSuccessor(Successor(o));
      SmallSuccessor(Successor(Successor(o)));
      SmallSuccessor(Successor(Successor(Successor(o))));
    }
  }

  const FLASH_LIMIT: Word := 0xFF_FFFD

  lemma LimitValue()
    ensures Value(FLASH_LIMIT) == 0xFF_FFFD
  {
  }

  lemma InFlashByOffset(pc: Word)
    requires FlashOffset(pc) < FLASH_LIMIT
    ensures InFlash(pc)
  {
  }

  lemma InstructionInFlash(i: nat)
    requires 4 * i + 4 <= 0x100_0000
    ensures InFlash(PcAt(i))
  {
    hide Value, FlashOffset, InFlash;
    InstructionOffset(i);
    LimitValue();
    UnsignedOrder(FlashOffset(PcAt(i)), FLASH_LIMIT);
    InFlashByOffset(PcAt(i));
  }

  // ---------------------------------------------------------------- the program in memory

  lemma WordAtSuccessors(m: Bytes, o: Word)
    ensures WordAt(m, o) == Join(ByteAt(m, Successor(Successor(Successor(o)))), ByteAt(m, Successor(Successor(o))),
                                 ByteAt(m, Successor(o)), ByteAt(m, o))
  {
    hide Join, ByteAt, Successor;
    ByteOneOn(m, o);
    ByteTwoOn(m, o);
    ByteThreeOn(m, o);
  }

  lemma FlashedByte(before: Bytes, after: Bytes, data: seq<Byte>, n: nat, o: Word)
    requires n <= |data| && Flashed(before, after, data, n) && Value(o) < n
    ensures ByteAt(after, o) == data[Value(o)]
  {
    hide Value, ByteAt;
  }

  lemma FlashedWord(before: Bytes, after: Bytes, insts: seq<Word>, n: nat, o: Word, k: nat)
    requires 4 * k + 4 <= n <= 4 * |insts| && n <= 0x100_0000
    requires Flashed(before, after, ProgramBytes(insts), n) && Value(o) == 4 * k
    ensures WordAt(after, o) == insts[k]
  {
    hide Value, Successor, Join, ByteAt, ByteOf, ProgramBytes, Flashed, WordAt;
    var data, o1, o2, o3 := ProgramBytes(insts), Successor(o), Successor(Successor(o)),
        Successor(Successor(Successor(o)));
    SmallSuccessor(o);
    SmallSuccessor(o1);
    SmallSuccessor(o2);
    FlashedByte(before, after, data, n, o);
    FlashedByte(before, after, data, n, o1);
    FlashedByte(before, after, data, n, o2);
    FlashedByte(before, after, data, n, o3);
    WordAtSuccessors(after, o);
    ProgramByte(insts, k);
    JoinOfBytes(insts[k]);
  }

  /** Every instruction of a program that was copied into flash is fetched at its address. */
  lemma ProgramLoaded(m: Mem, before: Bytes, insts: seq<Word>, n: nat, k: nat)
    requires 4 * k + 4 <= n <= 4 * |insts| && n <= 0x100_0000
    requires Flashed(before, m.flash, ProgramBytes(insts), n)
    ensures GoldenRead(m, PcAt(k)) == insts[k]
  {
    hide Flashed, WordAt, FlashOffset, InFlash, Value, ProgramBytes;
    InstructionOffset(k);
    InstructionInFlash(k);
    FlashedWord(before, m.flash, insts, n, FlashOffset(PcAt(k)), k);
  }

  /** The generator's program in memory starts with the preamble. */
  lemma PreambleLoadedFrom(m: Mem, before: Bytes, insts: seq<Word>, bases: seq<Base>)
    requires 2 * (N_REGS - 1) <= |insts| && 4 * |insts| <= 0x100_0000
    requires Flashed(before, m.flash, ProgramBytes(insts), 4 * |insts|) && PreambleWritten(insts, bases)
    ensures PreambleLoaded(m, bases)
  {
    hide Flashed, LoadUpper, AddOffset, GoldenRead, ProgramBytes;
    forall k | 0 <= k < |bases|
      ensures GoldenRead(m, PcAt(2 * k)) == LoadUpper(bases[k], k + 1)
      ensures GoldenRead(m, PcAt(2 * k + 1)) == AddOffset(bases[k], k + 1)
    {
      ProgramLoaded(m, before, insts, 4 * |insts|, 2 * k);
      ProgramLoaded(m, before, insts, 4 * |insts|, 2 * k + 1);
    }
  }

  /** What the test bench does before a run: write the preamble into the buffer and copy the buffer into flash. */
  method LoadTest(g: Gcpu, insts: array<Word>, size: Word, bases: seq<Base>)
    requires g.Valid() && |bases| == N_REGS - 1
    requires 2 * (N_REGS - 1) <= insts.Length && 4 * insts.Length == Value(size) <= 0x100_0000
    modifies insts, g.store`contents, g.store.flash
    ensures g.Valid() && PreambleLoaded(g.store.contents, bases)
  {
    hide Holds, Flashed, LoadUpper, AddOffset, GoldenRead, ProgramBytes, PreambleLoaded, Value;
    WritePreamble(insts, bases);
    ghost var before := g.store.contents.flash;
    g.FlashInit(ProgramBytes(insts[..]), size);
    PreambleLoadedFrom(g.store.contents, before, insts[..], bases);
  }
}
