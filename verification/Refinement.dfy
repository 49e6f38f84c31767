/** The processor refines the golden model, for every run and every choice of bus latencies. */
module Refinement {
  import opened Words
  import opened Alu
  import opened Decode
  import opened Memory
  import opened Icache
  import opened Lsu
  import opened Rf
  import opened Csr
  import opened Exu
  import opened Cpu
  import opened Datapath
  import opened Golden

  // ---------------------------------------------------------------- the domain

  /** The words fetched by instructions 0 to `k`. */
  function FetchedBy(g: Machine, k: nat): set<Word> {
    (if k == 0 then {} else FetchedBy(g, k - 1)) + {WordBase(GoldenRun(g, k).pc)}
  }

  /** The last byte a store with this mask writes. */
  function LastByte(addr: Word, mask: bv4): Word {
    if mask == 1 then addr else if mask == 3 then addr + 1 else addr + 3
  }

  /** A store leaves alone the words in `fetched`, which the cache may hold. */
  predicate StoreSafe(addr: Word, mask: bv4, fetched: set<Word>) {
    InRam(addr) ==> WordBase(addr) !in fetched && WordBase(LastByte(addr, mask)) !in fetched
  }

  /** The instructions the refinement covers. */
  predicate InDomain(g: Machine, fetched: set<Word>) {
    && Mapped(g.pc)
    && Supported(InstOf(g))
    && (IsMemOp(DecodedOf(g).kind) ==> Mapped(AddressOf(g)))
    && (DecodedOf(g).kind == StoreAny ==> StoreSafe(AddressOf(g), DecodedOf(g).writeMask, fetched))
  }

  // ---------------------------------------------------------------- fetching

  /** The bus and the golden model read the same instruction word, at any alignment of the pc. */
  lemma FetchReads(m: Mem, pc: Word)
    requires Mapped(pc)
    ensures BusRead(m, pc) == GoldenRead(m, WordBase(pc))
    ensures BusRead(m, WordBase(pc)) == GoldenRead(m, WordBase(pc))
  {
    hide WordAt, WordBase, InFlash, InRam, FlashOffset, RamOffset;
    OffsetsOfWordBase(pc);
    WordBaseTwice(pc);
    RegionsDisjoint(pc);
    RegionsDisjoint(WordBase(pc));
    if InFlash(pc) {
      WordBaseInFlash(pc);
    } else {
      WordBaseInRam(pc);
    }
    OffsetsOfWordBase(WordBase(pc));
  }

  // ---------------------------------------------------------------- retiring

  lemma PortsRead(regs: Golden.Regs, r: bv5)
    requires regs[0] == 0
    ensures ReadPort(regs, r) == RegRead(regs, r)
  {
    if r == 0 {
      assert RegIndex(r) == 0;
    }
  }

  lemma SameWrite(regs: Golden.Regs, e1: bool, r1: bv5, v1: Word, e2: bool, r2: bv5, v2: Word)
    requires Effective(e1, r1, v1) == Effective(e2, r2, v2)
    ensures RegWrite(regs, e1, r1, v1) == RegWrite(regs, e2, r2, v2)
  {
  }

  lemma WriteKeepsZero(regs: Golden.Regs, e: bool, r: bv5, v: Word)
    requires regs[0] == 0
    ensures RegWrite(regs, e, r, v)[0] == 0
  {
    if r != 0 && r < 16 {
      IndexZero(r);
    }
  }

  lemma IndexZero(r: bv5)
    requires 0 < r < 16
    ensures RegIndex(r) != 0
  {
  }

  /** The processor holds the pc, the registers and the current instruction of the golden model. */
  predicate Holds(r: CpuState, g: Machine) {
    r.pc == g.pc && r.regs == g.regs && g.regs[0] == 0 && r.inst == InstOf(g)
  }

  lemma OperandsAgree(r: CpuState, g: Machine)
    requires Holds(r, g)
    ensures Read1(r) == Operand1(g) && Read2(r) == Operand2(g)
    ensures DecNow(r) == RtlDecode(InstOf(g)) && DecNow(r).rd == DecodedOf(g).rd
  {
    hide GoldenDecode, RtlDecode, GoldenRead, ReadPort, RegRead, WordBase;
    SourcesAgree(r.inst);
    PortsRead(r.regs, DecNow(r).rs1);
    PortsRead(r.regs, DecNow(r).rs2);
  }

  lemma SourcesAgree(inst: Word)
    ensures RtlDecode(inst).rs1 == GoldenDecode(inst).rs1 && RtlDecode(inst).rs2 == GoldenDecode(inst).rs2
    ensures RtlDecode(inst).rd == GoldenDecode(inst).rd
  {
    hide TakeBits, TakeBit, Opcode, Funct3, Rd, Rs1, Rs2, IImm, UImm, SImm, JImm, BImm, AluCode, RtlIImm, RtlUImm,
      RtlSImm, RtlJImm, RtlBImm;
  }

  lemma WritebackIgnoresLoad(d: RtlDecoded, pc: Word, aluRes: Word, x: Word, y: Word, csr: Word)
    requires !d.IsLoad()
    ensures Writeback(d, pc, aluRes, x, csr) == Writeback(d, pc, aluRes, y, csr)
  {
  }

  lemma LoadsAreMemory(d: RtlDecoded)
    ensures d.IsLoad() || d.IsStore() ==> d.IsMemory()
  {
  }

  // What the golden model does with the instruction, in terms of the hardware.

  lemma SameEffectNow(r: CpuState, g: Machine, csr: Word)
    requires Holds(r, g) && Supported(r.inst)
    ensures SameEffect(InstOf(g), g.pc, Read1(r), Read2(r), csr, ReadOf(g))
    ensures AluNow(r) == AluResult(RtlDecode(InstOf(g)), g.pc, Read1(r), Read2(r))
    ensures AddressOf(g)
        == GoldenAlu(DecodedOf(g).aluOp, GoldenLhs(DecodedOf(g), g.pc, Read1(r)), GoldenRhs(DecodedOf(g), Read2(r)))
    ensures OutcomeOf(g)
        == Execute(DecodedOf(g), g.pc, AddressOf(g), GoldenCompare(DecodedOf(g).comOp, Read1(r), Read2(r)), ReadOf(g))
  {
    hide GoldenDecode, RtlDecode, GoldenRead, GoldenAlu, GoldenLhs, GoldenRhs, AluResult, WordBase, Execute,
      GoldenCompare, SameEffect, Supported;
    OperandsAgree(r, g);
    SupportedAgrees(r.inst, r.pc, Read1(r), Read2(r), csr, ReadOf(g));
  }

  lemma RetireControl(r: CpuState, g: Machine)
    requires Holds(r, g) && Supported(r.inst)
    ensures CpuEval(g).pc == PcAfter(r)
    ensures CpuEval(g).halt == (DecNow(r).instType == INST_EBREAK)
  {
    hide GoldenDecode, RtlDecode, GoldenRead, GoldenAlu, GoldenLhs, GoldenRhs, AluResult, AluNow, Read1, Read2,
      WordBase, Execute, ExtendData, Writeback, PcNext, GoldenCompare, RegWrite, Effective, CpuEval, GoldenWrite,
      SizeMask, AddressOf, ReadOf, OutcomeOf, RtlDecoded.IsMemory, RtlDecoded.IsStore, RtlDecoded.Size,
      RtlDecoded.Signed, RtlDecoded.WritesRegister, Supported;
    OperandsAgree(r, g);
    EvalUnfolds(g);
    SameEffectNow(r, g, 0);
  }

  lemma RetireMemory(r: CpuState, g: Machine)
    requires Holds(r, g) && Supported(r.inst)
    ensures DecNow(r).IsMemory() == IsMemOp(DecodedOf(g).kind)
    ensures DecNow(r).IsMemory() ==> AluNow(r) == AddressOf(g) && DecNow(r).Size() != LSU_EXTA
    ensures DecNow(r).IsStore() == (DecodedOf(g).kind == StoreAny)
    ensures DecNow(r).IsStore() ==> SizeMask(DecNow(r).Size()) == DecodedOf(g).writeMask
    ensures CpuEval(g).mem ==
            if DecNow(r).IsStore() then GoldenWrite(g.mem, SizeMask(DecNow(r).Size()), AluNow(r), Read2(r)) else g.mem
  {
    hide GoldenDecode, RtlDecode, GoldenRead, GoldenAlu, GoldenLhs, GoldenRhs, AluResult, AluNow, Read1, Read2,
      WordBase, Execute, ExtendData, Writeback, PcNext, GoldenCompare, RegWrite, Effective, CpuEval, GoldenWrite,
      SizeMask, AddressOf, ReadOf, OutcomeOf, RtlDecoded.IsMemory, RtlDecoded.IsStore, RtlDecoded.Size,
      RtlDecoded.Signed, RtlDecoded.WritesRegister, Supported;
    OperandsAgree(r, g);
    EvalUnfolds(g);
    LoadsAreMemory(DecNow(r));
    SameEffectNow(r, g, 0);
    OnlyStoresWrite(DecodedOf(g), g.pc, AddressOf(g), GoldenCompare(DecodedOf(g).comOp, Read1(r), Read2(r)), ReadOf(g));
  }

  /** The load data of the current instruction, given the golden model's read. */
  function LoadedBy(r: CpuState, g: Machine): Word {
    ExtendData(ReadOf(g), DecNow(r).Size(), DecNow(r).Signed())
  }

  lemma RetireWrite(r: CpuState, g: Machine, csr: Word)
    requires Holds(r, g) && Supported(r.inst)
    ensures Effective(DecNow(r).WritesRegister(), DecNow(r).rd,
        Writeback(DecNow(r), r.pc, AluNow(r), LoadedBy(r, g), csr))
            == Effective(OutcomeOf(g).regWrite, DecodedOf(g).rd, OutcomeOf(g).regData)
  {
    hide GoldenDecode, RtlDecode, GoldenRead, GoldenAlu, GoldenLhs, GoldenRhs, AluResult, AluNow, Read1, Read2,
      WordBase, Execute, ExtendData, Writeback, PcNext, GoldenCompare, Effective, SizeMask, AddressOf, ReadOf,
      OutcomeOf, RtlDecoded.IsMemory, RtlDecoded.IsStore, RtlDecoded.Size, RtlDecoded.Signed,
      RtlDecoded.WritesRegister, Supported;
    SameEffectNow(r, g, csr);
  }

  lemma WritebackOf(r: CpuState, g: Machine, loaded: Word, csr: Word)
    requires DecNow(r).IsLoad() ==> loaded == LoadedBy(r, g)
    ensures Writeback(DecNow(r), r.pc, AluNow(r), loaded, csr)
        == Writeback(DecNow(r), r.pc, AluNow(r), LoadedBy(r, g), csr)
  {
    hide DecNow, AluNow, LoadedBy, Writeback, RtlDecoded.IsLoad;
    if !DecNow(r).IsLoad() {
      WritebackIgnoresLoad(DecNow(r), r.pc, AluNow(r), LoadedBy(r, g), loaded, csr);
    }
  }

  lemma RetireFile(r: CpuState, g: Machine, loaded: Word, csr: Word)
    requires Holds(r, g) && Supported(r.inst)
    requires DecNow(r).IsLoad() ==> loaded == LoadedBy(r, g)
    ensures RegWrite(g.regs, DecNow(r).WritesRegister(), DecNow(r).rd,
        Writeback(DecNow(r), r.pc, AluNow(r), loaded, csr))
            == RegWrite(g.regs, OutcomeOf(g).regWrite, DecodedOf(g).rd, OutcomeOf(g).regData)
  {
    hide DecNow, DecodedOf, AluNow, Supported, LoadedBy, Writeback, RegWrite, Effective, OutcomeOf, RtlDecoded.IsLoad,
      RtlDecoded.WritesRegister;
    RetireWrite(r, g, csr);
    WritebackOf(r, g, loaded, csr);
    SameWrite(g.regs, DecNow(r).WritesRegister(), DecNow(r).rd, Writeback(DecNow(r), r.pc, AluNow(r), loaded, csr),
              OutcomeOf(g).regWrite, DecodedOf(g).rd, OutcomeOf(g).regData);
  }

  lemma RetireRegs(r: CpuState, g: Machine, loaded: Word)
    requires Holds(r, g) && Supported(r.inst)
    requires DecNow(r).IsLoad() ==> loaded == LoadedBy(r, g)
    ensures CpuEval(g).regs == RegsAfter(r, loaded) && CpuEval(g).regs[0] == 0
  {
    hide DecNow, DecodedOf, AluNow, Supported, LoadedBy, Writeback, CsrRead, RegWrite, Effective, CpuEval, OutcomeOf,
      RtlDecoded.IsLoad, RtlDecoded.WritesRegister;
    EvalUnfolds(g);
    RetireFile(r, g, loaded, CsrRead(r.mcycle, DecNow(r).imm & 0xFFF));
    WriteKeepsZero(g.regs, OutcomeOf(g).regWrite, DecodedOf(g).rd, OutcomeOf(g).regData);
  }

  // ---------------------------------------------------------------- stores and the cache

  // The bytes of the word at `x`.
  lemma Byte0(x: Word)
    requires x & 3 == 0
    ensures WordBase(x) == x
  {
  }

  lemma Byte1(x: Word)
    requires x & 3 == 0
    ensures WordBase(x + 1) == x
  {
  }

  lemma Byte2(x: Word)
    requires x & 3 == 0
    ensures WordBase(x + 2) == x
  {
  }

  lemma Byte3(x: Word)
    requires x & 3 == 0
    ensures WordBase(x + 3) == x
  {
  }

  lemma BytesOfWord(x: Word)
    requires x & 3 == 0
    ensures WordBase(x) == x && WordBase(x + 1) == x && WordBase(x + 2) == x && WordBase(x + 3) == x
  {
    hide WordBase;
    Byte0(x);
    Byte1(x);
    Byte2(x);
    Byte3(x);
  }

  lemma PutIfElsewhere(m: Bytes, enable: bool, i: Word, b: Byte, k: Word)
    requires k != i
    ensures ByteAt(PutIf(m, enable, i, b), k) == ByteAt(m, k)
  {
  }

  /** A masked put at the word `w` leaves the bytes of other words alone. */
  lemma PutElsewhereByte(m: Bytes, mask: bv4, w: Word, data: Word, k: Word)
    requires w & 3 == 0 && WordBase(k) != w
    ensures ByteAt(PutMasked(m, mask, w, data), k) == ByteAt(m, k)
  {
    hide ByteOf, PutIf, ByteAt, WordBase;
    BytesOfWord(w);
    var m0 := PutIf(m, mask & 1 != 0, w, ByteOf(data, 0));
    var m1 := PutIf(m0, mask & 2 != 0, w + 1, ByteOf(data, 1));
    var m2 := PutIf(m1, mask & 4 != 0, w + 2, ByteOf(data, 2));
    PutIfElsewhere(m, mask & 1 != 0, w, ByteOf(data, 0), k);
    PutIfElsewhere(m0, mask & 2 != 0, w + 1, ByteOf(data, 1), k);
    PutIfElsewhere(m1, mask & 4 != 0, w + 2, ByteOf(data, 2), k);
    PutIfElsewhere(m2, mask & 8 != 0, w + 3, ByteOf(data, 3), k);
  }

  lemma PutElsewhere(m: Bytes, mask: bv4, w: Word, data: Word, x: Word)
    requires x & 3 == 0 && w & 3 == 0 && x != w
    ensures WordAt(PutMasked(m, mask, w, data), x) == WordAt(m, x)
  {
    hide Join, PutMasked, ByteAt, WordBase;
    BytesOfWord(x);
    PutElsewhereByte(m, mask, w, data, x);
    PutElsewhereByte(m, mask, w, data, x + 1);
    PutElsewhereByte(m, mask, w, data, x + 2);
    PutElsewhereByte(m, mask, w, data, x + 3);
  }

  lemma WordBaseAligned(addr: Word)
    ensures WordBase(addr) & 3 == 0
  {
  }

  lemma RamOffsetInjective(x: Word, y: Word)
    requires RamOffset(x) == RamOffset(y)
    ensures x == y
  {
  }

  /** A beat leaves the words it does not address alone. */
  lemma BeatElsewhere(m: Mem, b: Beat, x: Word)
    requires WordBase(x) != WordBase(b.addr)
    ensures BusRead(WriteBeat(m, b), x) == BusRead(m, x)
  {
    hide PutMasked, WordAt, WordBase, RamOffset, InRam, InFlash;
    var i, j := WordBase(RamOffset(x)), WordBase(RamOffset(b.addr));
    assert i != j by {
      OffsetsOfWordBase(x);
      OffsetsOfWordBase(b.addr);
      if i == j {
        RamOffsetInjective(WordBase(x), WordBase(b.addr));
      }
    }
    WordBaseAligned(RamOffset(x));
    WordBaseAligned(RamOffset(b.addr));
    PutElsewhere(m.ram, b.mask, j, b.data, i);
  }

  lemma LineAddrIsBase(tag: bv22, ix: bv8)
    ensures WordBase(LineAddr(tag, ix)) == LineAddr(tag, ix)
  {
  }

  /** A beat outside the fetched words keeps the cache coherent. */
  lemma BeatKeepsCoherent(lines: Lines, fetched: set<Word>, m: Mem, b: Beat)
    requires Coherent(lines, fetched, m) && WordBase(b.addr) !in fetched
    ensures Coherent(lines, fetched, WriteBeat(m, b))
  {
    hide LineAddr, WriteBeat, BusRead, WordBase;
    forall ix: bv8 ensures LineCoherent(lines, ix, fetched, WriteBeat(m, b)) {
      assert LineCoherent(lines, ix, fetched, m);
      var x := LineAddr(lines[ix as int].tag, ix);
      LineAddrIsBase(lines[ix as int].tag, ix);
      if lines[ix as int].valid {
        BeatElsewhere(m, b, x);
      }
    }
  }

  // The last byte of a split access lies in the word of the second beat.
  lemma LastByteHalf(addr: Word)
    requires Split(Offset(addr), LSU_HALF)
    ensures WordBase(BeatAddr(addr, true)) == WordBase(addr + 1)
  {
  }

  lemma LastByteWord(addr: Word)
    requires Split(Offset(addr), LSU_WORD)
    ensures WordBase(BeatAddr(addr, true)) == WordBase(addr + 3)
  {
  }

  lemma LastByteInSecondBeat(a: Access)
    requires a.Misaligned()
    ensures WordBase(BeatAddr(a.addr, true)) == WordBase(LastByte(a.addr, SizeMask(a.size)))
  {
    hide WordBase, BeatAddr, Offset;
    if a.size == LSU_HALF {
      LastByteHalf(a.addr);
    } else {
      LastByteWord(a.addr);
    }
  }

  /** A safe store keeps the cache coherent. */
  lemma StoreKeepsCoherent(lines: Lines, fetched: set<Word>, m: Mem, a: Access)
    requires a.isWrite && a.size != LSU_EXTA && Mapped(a.addr)
    requires Coherent(lines, fetched, m) && StoreSafe(a.addr, SizeMask(a.size), fetched)
    ensures Coherent(lines, fetched, GoldenWrite(m, SizeMask(a.size), a.addr, a.data))
  {
    hide Coherent, WriteBeat, GoldenWrite, WordBase, InRam, InFlash, SizeMask, LastByte;
    StoreRefines(m, a);
    if InRam(a.addr) {
      BeatKeepsCoherent(lines, fetched, m, BeatOf(a, false));
      if a.Misaligned() {
        LastByteInSecondBeat(a);
        BeatKeepsCoherent(lines, fetched, WriteBeat(m, BeatOf(a, false)), BeatOf(a, true));
      }
    } else {
      StoreToFlashIgnored(m, a);
    }
  }

  lemma CoherentGrows(lines: Lines, fetched: set<Word>, more: set<Word>, m: Mem)
    requires Coherent(lines, fetched, m)
    ensures Coherent(lines, fetched + more, m)
  {
    hide LineAddr, BusRead;
    forall ix: bv8 ensures LineCoherent(lines, ix, fetched + more, m) {
      assert LineCoherent(lines, ix, fetched, m);
    }
  }
}
