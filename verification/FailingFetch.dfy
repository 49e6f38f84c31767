/**
 * A program whose fetch goes wrong: it jumps to an unaligned pc in the last word of RAM, which
 * neither side rounds down, and the processor executes zero instead of that word.
 */
module FailingFetch {
  import opened Words
  import opened WordArithmetic
  import opened Alu
  import opened Decode
  import opened Memory
  import opened Icache
  import opened Lsu
  import opened Csr
  import opened Exu
  import opened Cpu
  import opened Soc
  import opened Token
  import opened Golden
  import opened Datapath
  import opened Refinement
  import opened Simulation
  import opened CacheAgreement
  import opened RegionEnd
  import opened Encoders
  import opened Generator

  // ---------------------------------------------------------------- the program

  /** `lui x1, 0x82000` and `jalr x0, -2(x1)`. */
  predicate JumpsToTheEnd(m: Mem) {
    && GoldenRead(m, PcAt(0)) == EncodeU(0x82000, 1, OPCODE_LUI)
    && GoldenRead(m, PcAt(1)) == EncodeI(0xFFE, 1, 0, 0, OPCODE_JALR)
  }

  const TARGET: Word := MEM_END - 2

  lemma FirstAddresses()
    ensures WordBase(PcAt(0)) == PcAt(0) && WordBase(PcAt(1)) == PcAt(1) && Mapped(PcAt(0)) && Mapped(PcAt(1))
    ensures Index(PcAt(0)) == 0 && Index(PcAt(1)) == 1
  {
    assert PcAt(1) == Following(PcAt(0));
  }

  lemma LastAddress()
    ensures Index(TARGET) == 255 && WordBase(TARGET) == MEM_END - 4
  {
  }

  // ---------------------------------------------------------------- the two instructions

  lemma UpperSteps(g: Machine, fetched: set<Word>)
    requires Mapped(g.pc) && InstOf(g) == EncodeU(0x82000, 1, OPCODE_LUI)
    ensures InDomain(g, fetched) && !IsMemOp(DecodedOf(g).kind)
    ensures CpuEval(g).pc == Following(g.pc) && CpuEval(g).mem == g.mem && CpuEval(g).regs[1] == MEM_END
  {
    hide Mapped, InstOf, EncodeU, GoldenDecode, CpuEval, Supported, StoreSafe, AddressOf, GoldenWrite, ExtendByte,
      ExtendHalf, GoldenCompare, RegIndex;
    SupportedU(0x82000, 1, OPCODE_LUI);
    DecodeUpper(0x82000, 1);
    EvalUnfolds(g);
    RegisterOne();
    assert UpperWord(0x82000) == MEM_END;
  }

  lemma RegisterOne()
    ensures RegIndex(1) == 1
  {
  }

  lemma JumpsBackTwo()
    ensures Sum(MEM_END, SignExtend(0xFFE)) == TARGET
  {
  }

  lemma JumpSteps(g: Machine, fetched: set<Word>)
    requires Mapped(g.pc) && InstOf(g) == EncodeI(0xFFE, 1, 0, 0, OPCODE_JALR) && g.regs[1] == MEM_END
    ensures InDomain(g, fetched) && !IsMemOp(DecodedOf(g).kind)
    ensures CpuEval(g).pc == TARGET && CpuEval(g).mem == g.mem && CpuEval(g).regs == g.regs
  {
    hide Mapped, InstOf, EncodeI, GoldenDecode, CpuEval, Supported, StoreSafe, SignExtend, Sum, GoldenAlu,
      GoldenWrite, ExtendByte, ExtendHalf, GoldenCompare, RegIndex;
    SupportedI(0xFFE, 1, 0, 0, OPCODE_JALR);
    DecodeJumpReg(0xFFE, 1, 0);
    EvalUnfolds(g);
    RegisterOne();
    AluAdds(MEM_END, SignExtend(0xFFE));
    JumpsBackTwo();
  }

  // ---------------------------------------------------------------- executing after a miss

  /**
   * Three cycles with immediate replies: a miss, its answer, and the retirement of an instruction that is no
   * memory access.
   */
  lemma MissExecutes(s: State, c: Choice, g: Machine, fetched: set<Word>)
    requires Simulates(s, g, fetched, FetchPulse) && InDomain(g, fetched) && !IsMemOp(DecodedOf(g).kind)
    requires !Hit(s.cpu.lines, s.cpu.pc) && c.fetchReply
    ensures
      var s' := Step(Step(Step(s, c), c), c);
      && Simulates(s', CpuEval(g), fetched + {WordBase(CpuEval(g).pc)}, FetchPulse)
      && s'.cpu.lines == Fill(s.cpu.lines, s.cpu.pc, BusRead(s.mem, s.cpu.pc))
      && !Signals(s, c).retire && !Signals(Step(s, c), c).retire && Signals(Step(Step(s, c), c), c).retire
  {
    hide Step, Signals, At, CpuEval, WordBase, BusRead, Hit, Fill, Supported, InstOf, DecodedOf, IsMemOp, StoreSafe,
      Mapped, Coherent, AccessNow, WriteBeat, BeatOf, AddressOf;
    CoveredIsMapped(g, fetched);
    var s1, s2 := Step(s, c), Step(Step(s, c), c);
    MissStep(s, c, g, fetched);
    AnswerStep(s1, c, g, fetched);
    LinesStep(s, c, FetchPulse);
    LinesStep(s1, c, FetchWait);
    LinesStep(s2, c, Decoded);
    RetireMemory(s2.cpu, g);
    SimulationToken(s, c, g, fetched, FetchPulse);
    SimulationToken(s1, c, g, fetched, FetchWait);
    SimulationToken(s2, c, g, fetched, Decoded);
    RetireStep(s2, c, g, fetched, Decoded);
  }

  lemma MissStep(s: State, c: Choice, g: Machine, fetched: set<Word>)
    requires Simulates(s, g, fetched, FetchPulse) && Mapped(g.pc) && !Hit(s.cpu.lines, s.cpu.pc)
    ensures Simulates(Step(s, c), g, fetched, FetchWait) && !Signals(s, c).fetch.fill
    ensures Step(s, c).cpu.pc == s.cpu.pc && Step(s, c).mem == s.mem
  {
    hide Step, Signals, At, CpuEval, WordBase, BusRead, Hit, Fill, InstOf, Mapped, Coherent, AccessNow, WriteBeat,
      BeatOf, DecNow;
    FetchStep(s, c, g, fetched, FetchPulse);
    LinesStep(s, c, FetchPulse);
  }

  lemma AnswerStep(s: State, c: Choice, g: Machine, fetched: set<Word>)
    requires Simulates(s, g, fetched, FetchWait) && Mapped(g.pc) && c.fetchReply
    ensures Simulates(Step(s, c), g, fetched, Decoded) && Signals(s, c).fetch.fill
    ensures Step(s, c).cpu.pc == s.cpu.pc && Step(s, c).mem == s.mem
  {
    hide Step, Signals, CpuEval, WordBase, BusRead, Hit, Fill, InstOf, Mapped, Coherent, AccessNow, WriteBeat, BeatOf,
      DecNow;
    FetchStep(s, c, g, fetched, FetchWait);
    LinesStep(s, c, FetchWait);
  }

  // ---------------------------------------------------------------- the run

  /** `n` cycles with the same choice. */
  function Cycles(c: Choice, n: nat): (cs: seq<Choice>)
    ensures |cs| == n
  {
    seq(n, _ => c)
  }

  lemma RunOneMore(s: State, c: Choice, n: nat)
    ensures Run(s, Cycles(c, n + 1)) == Step(Run(s, Cycles(c, n)), c)
  {
    hide Step;
    assert Cycles(c, n + 1)[..n] == Cycles(c, n);
  }

  lemma NoLineYet(s: State, pc: Word)
    requires Initial(s)
    ensures !Hit(s.cpu.lines, pc)
  {
  }

  lemma FillsOne(lines: Lines, pc: Word, data: Word, other: Word)
    requires Index(pc) != Index(other) && !Hit(lines, other)
    ensures !Hit(Fill(lines, pc, data), other)
  {
    hide Index, Tag;
    if Index(pc) as int == Index(other) as int {
      IndexInjective(Index(pc), Index(other));
    }
  }

  /** The state after the two instructions: at the target, with the last line still empty. */
  lemma TwoInstructions(s: State, c: Choice)
    requires Initial(s) && JumpsToTheEnd(s.mem) && c.fetchReply
    ensures
      var r := Run(s, Cycles(c, 7));
      && At(r, FetchPulse) && r.cpu.pc == TARGET && r.mem == s.mem && !Hit(r.cpu.lines, TARGET)
      && Retired(s, Cycles(c, 7)) == 2
      && var g := GoldenRun(GoldenOf(s), 2);
      && g.pc == TARGET && g.mem == s.mem && g.regs == r.cpu.regs && g.regs[1] == MEM_END
  {
    hide Step, Signals, At, CpuEval, WordBase, BusRead, Hit, Fill, Index, Run, InDomain, EncodeU, EncodeI, GoldenRead,
      Mapped, Following, Initial, PcAt, DecodedOf, Retired;
    var g := GoldenOf(s);
    var s1 := Step(s, c);
    var s4 := Step(Step(Step(s1, c), c), c);
    var s7 := Step(Step(Step(s4, c), c), c);
    SevenCycles(s, c);
    RetiredInSeven(s, c);
    FirstAddresses();
    LastAddress();
    Starts(s, c);
    NoLineYet(s, PcAt(0));
    NoLineYet(s, PcAt(1));
    NoLineYet(s, TARGET);
    UpperSteps(g, FetchedBy(g, 0));
    MissExecutes(s1, c, g, FetchedBy(g, 0));
    FillsOne(s1.cpu.lines, PcAt(0), BusRead(s1.mem, PcAt(0)), PcAt(1));
    FillsOne(s1.cpu.lines, PcAt(0), BusRead(s1.mem, PcAt(0)), TARGET);
    var g1, fetched1 := CpuEval(g), FetchedBy(g, 0) + {WordBase(CpuEval(g).pc)};
    assert g1.pc == PcAt(1) by { SecondPc(); }
    JumpSteps(g1, fetched1);
    MissExecutes(s4, c, g1, fetched1);
    FillsOne(s4.cpu.lines, PcAt(1), BusRead(s4.mem, PcAt(1)), TARGET);
    assert GoldenRun(g, 2) == CpuEval(CpuEval(g)) by { TwoGoldenSteps(g); }
  }

  lemma SecondPc()
    ensures PcAt(0) == INITIAL_PC && PcAt(1) == Following(PcAt(0))
  {
  }

  lemma OneMoreGoldenStep(g: Machine, k: nat)
    ensures GoldenRun(g, k + 1) == CpuEval(GoldenRun(g, k))
  {
    hide CpuEval;
  }

  lemma TwoGoldenSteps(g: Machine)
    ensures GoldenRun(g, 2) == CpuEval(CpuEval(g))
  {
    hide CpuEval;
    OneMoreGoldenStep(g, 0);
    OneMoreGoldenStep(g, 1);
  }

  lemma Starts(s: State, c: Choice)
    requires Initial(s)
    ensures Simulates(Step(s, c), GoldenOf(s), FetchedBy(GoldenOf(s), 0), FetchPulse)
    ensures Step(s, c).cpu.lines == s.cpu.lines && GoldenOf(s).pc == PcAt(0) && GoldenOf(s).mem == s.mem
    ensures !Signals(s, c).retire
  {
    hide Step, Signals, Simulates, CpuEval, WordBase, FetchedBy;
    InitialAt(s);
    TokenStep(s, c, Startup);
    InitialSimulates(s);
    StartStep(s, c, GoldenOf(s), FetchedBy(GoldenOf(s), 0));
    LinesStep(s, c, Startup);
  }

  lemma SevenCycles(s: State, c: Choice)
    ensures
      var s1 := Step(s, c);
      var s4 := Step(Step(Step(s1, c), c), c);
      Run(s, Cycles(c, 7)) == Step(Step(Step(s4, c), c), c)
  {
    hide Step, Cycles;
    RunNothing(s, c);
    RunOneMore(s, c, 0);
    RunOneMore(s, c, 1);
    RunOneMore(s, c, 2);
    RunOneMore(s, c, 3);
    RunOneMore(s, c, 4);
    RunOneMore(s, c, 5);
    RunOneMore(s, c, 6);
  }

  lemma RetiredOneMoreCycle(s: State, c: Choice, n: nat)
    ensures
      Retired(s, Cycles(c, n + 1))
      == Retired(s, Cycles(c, n)) + if Signals(Run(s, Cycles(c, n)), c).retire then 1 else 0
  {
    hide Signals, Run;
    assert Cycles(c, n + 1)[..n] == Cycles(c, n);
  }

  lemma RetiredInSeven(s: State, c: Choice)
    ensures
      var s1 := Step(s, c);
      var s2, s3, s4 := Step(s1, c), Step(Step(s1, c), c), Step(Step(Step(s1, c), c), c);
      var s5, s6 := Step(s4, c), Step(Step(s4, c), c);
      !Signals(s, c).retire && !Signals(s1, c).retire && !Signals(s2, c).retire && Signals(s3, c).retire
      && !Signals(s4, c).retire && !Signals(s5, c).retire && Signals(s6, c).retire
      ==> Retired(s, Cycles(c, 7)) == 2
  {
    hide Step, Cycles, Signals, Retired, Run;
    RunNothing(s, c);
    RunOneMore(s, c, 0);
    RunOneMore(s, c, 1);
    RunOneMore(s, c, 2);
    RunOneMore(s, c, 3);
    RunOneMore(s, c, 4);
    RunOneMore(s, c, 5);
    RetiredOneMoreCycle(s, c, 0);
    RetiredOneMoreCycle(s, c, 1);
    RetiredOneMoreCycle(s, c, 2);
    RetiredOneMoreCycle(s, c, 3);
    RetiredOneMoreCycle(s, c, 4);
    RetiredOneMoreCycle(s, c, 5);
    RetiredOneMoreCycle(s, c, 6);
  }

  lemma RunNothing(s: State, c: Choice)
    ensures Run(s, Cycles(c, 0)) == s && Retired(s, Cycles(c, 0)) == 0
  {
  }

  /**
   * For every memory with this program and immediate replies, the ninth cycle after reset delivers
   * zero for the unaligned pc at the end of RAM, whatever word is there; the golden model, with the
   * same pc and memory, executes that word.
   */
  lemma FetchGoesWrong(s: State, c: Choice)
    requires Initial(s) && JumpsToTheEnd(s.mem) && c.fetchReply
    ensures
      var r, g := Run(s, Cycles(c, 8)), GoldenRun(GoldenOf(s), 2);
      && r.cpu.pc == g.pc == TARGET && r.mem == g.mem == s.mem
      && Signals(r, c).fetch.respValid && Signals(r, c).fetched == 0
      && InstOf(g) == BusRead(r.mem, WordBase(r.cpu.pc)) == WordAt(s.mem.ram, 0x1FF_FFFC)
  {
    hide Step, Signals, At, CpuEval, BusRead, Hit, Fill, Index, Run, Initial, GoldenRun, WordAt, JumpsToTheEnd,
      GoldenOf, Cycles;
    TwoInstructions(s, c);
    RunOneMore(s, c, 7);
    var r := Run(s, Cycles(c, 7));
    Misses(r, c);
    LastAddress();
    ReadsAtTheEnd(s.mem);
    var r' := Step(r, c);
    Answers(r', c);
  }

  lemma Misses(s: State, c: Choice)
    requires At(s, FetchPulse) && !Hit(s.cpu.lines, s.cpu.pc)
    ensures At(Step(s, c), FetchWait) && Step(s, c).cpu.pc == s.cpu.pc && Step(s, c).mem == s.mem
    ensures Step(s, c).cpu.regs == s.cpu.regs && !Signals(s, c).retire
  {
    hide Step, Signals, Hit, BeatOf, AccessNow;
    TokenStep(s, c, FetchPulse);
    QuietCycle(s, c, FetchPulse);
  }

  lemma Answers(s: State, c: Choice)
    requires At(s, FetchWait) && c.fetchReply
    ensures Signals(s, c).fetch.respValid && Signals(s, c).fetched == BusRead(s.mem, s.cpu.pc)
  {
    hide Step, Signals, Hit, BeatOf, AccessNow, BusRead, Lookup, Fill;
    LinesStep(s, c, FetchWait);
  }

  lemma ReadsAtTheEnd(m: Mem)
    ensures BusRead(m, TARGET) == 0
    ensures BusRead(m, MEM_END - 4) == GoldenRead(m, MEM_END - 4) == WordAt(m.ram, 0x1FF_FFFC)
  {
    hide WordAt;
  }

  // ---------------------------------------------------------------- what the test bench then compares

  lemma ZeroWritesNothing(s: CpuState, loaded: Word)
    requires s.inst == 0
    ensures RegsAfter(s, loaded) == s.regs && DecNow(s).instType != INST_EBREAK
  {
    hide AluNow, CsrRead, Writeback, Opcode, Rd, Funct3;
    ZeroFields();
  }

  /** Two cycles later the zero has retired: nothing has changed but the pc. */
  lemma ZeroExecutes(s: State, c: Choice)
    requires At(s, FetchWait) && c.fetchReply && BusRead(s.mem, s.cpu.pc) == 0
    ensures
      var s1, s2 := Step(s, c), Step(Step(s, c), c);
      && !Signals(s, c).retire && Signals(s1, c).retire
      && s2.cpu.pc == Following(s.cpu.pc) && s2.cpu.regs == s.cpu.regs && s2.mem == s.mem
      && s2.cpu.exu == ExuExecute && DecNow(s2.cpu).instType != INST_EBREAK
  {
    hide Step, Signals, Hit, BeatOf, AccessNow, BusRead, Lookup, Fill, DecNow, RegsAfter, PcAfter;
    var s1 := Step(s, c);
    TokenStep(s, c, FetchWait);
    LinesStep(s, c, FetchWait);
    QuietCycle(s, c, FetchWait);
    NoAccessWaiting(s, c);
    ZeroAdvances(s1.cpu);
    TokenStep(s1, c, Decoded);
    RetiringCycle(s1, c, Decoded);
    NoAccessWaiting(s1, c);
    ZeroWritesNothing(s1.cpu, Signals(s1, c).lsu.rdata);
    SameDecode(Step(s1, c).cpu, s1.cpu);
    ExecuteMeansRetired(s1, c);
  }

  lemma NoAccessWaiting(s: State, c: Choice)
    requires s.data.Ready?
    ensures MemAfter(s, c) == s.mem
  {
  }

  /**
   * After the same three instructions the processor stands behind the last word with its registers
   * and memory unchanged. So the comparison succeeds exactly if the last word is an instruction
   * that does nothing else on the golden model.
   */
  lemma ComparedAfterwards(s: State, c: Choice)
    requires Initial(s) && JumpsToTheEnd(s.mem) && c.fetchReply
    ensures
      var r, g, g' := Run(s, Cycles(c, 10)), GoldenRun(GoldenOf(s), 2), GoldenRun(GoldenOf(s), 3);
      && Retired(s, Cycles(c, 10)) == 3 && g' == CpuEval(g) && g.regs[1] == MEM_END
      && InstOf(g) == WordAt(s.mem.ram, 0x1FF_FFFC)
      && r.cpu.pc == Following(g.pc) && r.cpu.regs == g.regs && r.mem == g.mem
      && r.cpu.exu == ExuExecute && DecNow(r.cpu).instType != INST_EBREAK
      && (r.cpu.pc == g'.pc && r.cpu.regs == g'.regs && r.mem == g'.mem
          <==> g'.pc == Following(g.pc) && g'.regs == g.regs && g'.mem == g.mem)
  {
    hide Step, Signals, At, CpuEval, BusRead, Hit, Fill, Index, Run, Initial, GoldenRun, WordAt, JumpsToTheEnd,
      GoldenOf, Cycles, Retired, DecNow, Following;
    TwoInstructions(s, c);
    FetchGoesWrong(s, c);
    RunOneMore(s, c, 7);
    RunOneMore(s, c, 8);
    RunOneMore(s, c, 9);
    RetiredOneMoreCycle(s, c, 7);
    RetiredOneMoreCycle(s, c, 8);
    RetiredOneMoreCycle(s, c, 9);
    Misses(Run(s, Cycles(c, 7)), c);
    ReadsAtTheEnd(s.mem);
    ZeroExecutes(Run(s, Cycles(c, 8)), c);
    OneMoreGoldenStep(GoldenOf(s), 2);
  }

  lemma OffsetCounts(imm: bv12)
    requires imm != 0
    ensures Sum(MEM_END, SignExtend(imm)) != MEM_END
  {
  }

  /** For instance, an `addi` of anything but zero to x1 in the last word makes the comparison fail. */
  lemma ComparisonFails(s: State, c: Choice, imm: bv12)
    requires Initial(s) && JumpsToTheEnd(s.mem) && c.fetchReply && imm != 0
    requires
      WordAt(s.mem.ram, 0x1FF_FFFC) == EncodeI(imm, RegNumber(1), FUNCT3_ADD, RegNumber(1), OPCODE_CALC_IMM)
    ensures
      var cs := Cycles(c, 10);
      Run(s, cs).cpu.regs[1] != GoldenRun(GoldenOf(s), Retired(s, cs)).regs[1]
  {
    hide Run, Initial, GoldenRun, WordAt, JumpsToTheEnd, GoldenOf, Cycles, Retired, CpuEval, EncodeI, SignExtend, Sum,
      RegNumber, InstOf, DecNow, Following;
    ComparedAfterwards(s, c);
    AddStep(GoldenRun(GoldenOf(s), 2), 1, imm);
    OffsetCounts(imm);
  }
}
