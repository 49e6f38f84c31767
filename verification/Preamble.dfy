/**
 * The register preamble on the processor itself: it is covered by the refinement, so it does there what it
 * does on the golden model.
 */
module Preamble {
  import opened Words
  import opened Decode
  import opened Memory
  import opened Lsu
  import opened Cpu
  import opened Soc
  import opened Token
  import opened Golden
  import opened Datapath
  import opened Refinement
  import opened Simulation
  import opened Encoders
  import opened Generator

  // ---------------------------------------------------------------- program counters

  function SmallPc(i: bv8): Word { INITIAL_PC + (i as Word << 2) }

  lemma SmallPcMapped(i: bv8)
    ensures Mapped(SmallPc(i))
  {
  }

  lemma NextSmallPc(i: bv8)
    requires i < 255
    ensures SmallPc(i + 1) == Following(SmallPc(i))
  {
  }

  lemma NextByte(b: bv8)
    requires b as int < 255
    ensures b < 255 && (b + 1) as int == b as int + 1
  {
  }

  function ToByte(i: nat): (b: bv8)
    requires i < 256
    ensures b as int == i
  {
    if i == 0 then 0 else
    var b := ToByte(i - 1);
    NextByte(b);
    b + 1
  }

  lemma {:induction false} PcIsSmall(i: nat)
    requires i < 255
    ensures PcAt(i) == SmallPc(ToByte(i))
  {
    hide SmallPc, Following;
    if i == 0 {
      assert SmallPc(0) == INITIAL_PC by { FirstPc(); }
    } else {
      PcIsSmall(i - 1);
      NextByte(ToByte(i - 1));
      NextSmallPc(ToByte(i - 1));
    }
  }

  lemma FirstPc()
    ensures SmallPc(0) == INITIAL_PC
  {
  }

  // ---------------------------------------------------------------- the thirty instructions are covered

  /** A machine about to execute instruction `j` of the preamble. */
  predicate Before(g: Machine, m: Mem, j: nat) {
    g.pc == PcAt(j) && g.mem == m
  }

  lemma Halfway(m: Mem, bases: seq<Base>, j: nat)
    requires |bases| == N_REGS - 1 && PreambleLoaded(m, bases) && j < 30
    ensures Before(GoldenRun(Golden.Reset(m), j), m, j)
  {
    hide CpuEval, LoadUpper, AddOffset, GoldenRead, BaseValue, WordBase, Following;
    var k := j / 2;
    PreambleRuns(m, bases, k);
    if j == 2 * k + 1 {
      var g := GoldenRun(Golden.Reset(m), 2 * k);
      PcIsAligned(2 * k);
      FirstOfPair(g, bases[k], k + 1);
    }
  }

  lemma FirstOfPair(g: Machine, b: Base, rd: nat)
    requires 0 < rd < N_REGS && InstOf(g) == LoadUpper(b, rd)
    ensures CpuEval(g).pc == Following(g.pc) && CpuEval(g).mem == g.mem
  {
    hide CpuEval, EncodeU, InstOf, Following, RegNumber, UpperBase;
    UpperStep(g, rd, UpperBase(b));
  }

  lemma UpperCovered(g: Machine, fetched: set<Word>, imm: bv20, rd: bv5)
    requires Mapped(g.pc) && InstOf(g) == EncodeU(imm, rd, OPCODE_LUI)
    ensures InDomain(g, fetched)
  {
    hide Mapped, InstOf, EncodeU, GoldenDecode, Supported, StoreSafe, AddressOf;
    SupportedU(imm, rd, OPCODE_LUI);
    DecodeUpper(imm, rd);
  }

  lemma AddCovered(g: Machine, fetched: set<Word>, imm: bv12, rd: bv5)
    requires Mapped(g.pc) && InstOf(g) == EncodeI(imm, rd, FUNCT3_ADD, rd, OPCODE_CALC_IMM)
    ensures InDomain(g, fetched)
  {
    hide Mapped, InstOf, EncodeI, GoldenDecode, Supported, StoreSafe, AddressOf, SignExtend;
    SupportedI(imm, rd, FUNCT3_ADD, rd, OPCODE_CALC_IMM);
    DecodeImmediate(imm, rd, FUNCT3_ADD, rd);
  }

  lemma PreambleCovered(m: Mem, bases: seq<Base>, j: nat)
    requires |bases| == N_REGS - 1 && PreambleLoaded(m, bases) && j < 30
    ensures InDomain(GoldenRun(Golden.Reset(m), j), FetchedBy(Golden.Reset(m), j))
  {
    hide GoldenRun, FetchedBy, InDomain, EncodeU, EncodeI, UpperBase, RegNumber, Mapped, SmallPc, PcAt, WordBase,
      GoldenRead;
    var g, k := GoldenRun(Golden.Reset(m), j), j / 2;
    Halfway(m, bases, j);
    PcIsAligned(j);
    PcIsSmall(j);
    SmallPcMapped(ToByte(j));
    if j == 2 * k {
      UpperCovered(g, FetchedBy(Golden.Reset(m), j), UpperBase(bases[k]), RegNumber(k + 1));
    } else {
      assert j == 2 * k + 1;
      AddCovered(g, FetchedBy(Golden.Reset(m), j), bases[k].offset, RegNumber(k + 1));
    }
  }

  /**
   * For every draw of the generator and every choice of latencies, the processor that has retired
   * the thirty instructions holds in each of x1 to x15 the middle of flash or RAM plus the drawn
   * offset, has left memory alone, and stands at the instruction after them, whatever that is.
   */
  lemma PreambleOnProcessor(s: State, cs: seq<Choice>, bases: seq<Base>, n: nat)
    requires Initial(s) && |bases| == N_REGS - 1 && PreambleLoaded(s.mem, bases)
    requires Retired(s, cs) == 30 && 0 < n < N_REGS
    ensures Run(s, cs).cpu.regs[n] == BaseValue(bases[n - 1])
    ensures Run(s, cs).cpu.pc == PcAt(30)
    ensures Run(s, cs).cpu.lsu.state != WaitMisTwo ==> Run(s, cs).mem == s.mem
  {
    hide GoldenRun, FetchedBy, InDomain, BaseValue, PcAt, Mapped, SignExtend, PreambleLoaded, Initial, Run, Retired,
      AccessNow, BeatOf, WriteBeat, InstOf, DecNow;
    forall j: nat | j < 30 ensures InDomain(GoldenRun(GoldenOf(s), j), FetchedBy(GoldenOf(s), j)) {
      PreambleCovered(s.mem, bases, j);
    }
    ArchitecturalState(s, cs);
    PreambleRuns(s.mem, bases, 15);
  }
}
