/** The simulation relation between the running processor and the golden model, and the main theorem. */
module Simulation {
  import opened Words
  import opened Decode
  import opened Memory
  import opened Icache
  import opened Lsu
  import opened Ifu
  import opened Rf
  import opened Exu
  import opened Cpu
  import opened Soc
  import opened Token
  import opened Golden
  import opened Datapath
  import opened Refinement

  /** What the processor holds while the golden model is about to execute its next instruction. */
  ghost predicate Simulates(s: State, g: Machine, fetched: set<Word>, p: Phase) {
    && At(s, p)
    && s.cpu.pc == g.pc && s.cpu.regs == g.regs && g.regs[0] == 0
    && WordBase(g.pc) in fetched
    && Coherent(s.cpu.lines, fetched, g.mem)
    && (!p.Startup? && !p.FetchPulse? && !p.FetchWait? ==> s.cpu.inst == InstOf(g))
    && (p.FetchPulse? && s.cpu.exu == ExuExecute ==> g.halt == (DecNow(s.cpu).instType == INST_EBREAK))
    && (if p.LsuTurn? || p.LsuSecond? then SecondPart(s, g) else s.mem == g.mem)
  }

  /** Between the beats of a split access: the first one is done, and its word is held. */
  predicate SecondPart(s: State, g: Machine) {
    var a := AccessNow(s.cpu);
    && s.mem == WriteBeat(g.mem, BeatOf(a, false))
    && (!a.isWrite ==> s.cpu.lsu.firstRead == UpperBits(BusRead(g.mem, a.addr)))
  }

  // ---------------------------------------------------------------- steps that do not retire

  /** What a cycle leaves alone unless it fetches or retires. */
  lemma QuietCycle(s: State, c: Choice, p: Phase)
    requires At(s, p) && !Retires(s, c, p)
    ensures var s' := Step(s, c);
            && At(s', NextPhase(s, c, p))
            && s'.cpu.pc == s.cpu.pc && s'.cpu.regs == s.cpu.regs
            && s'.mem == MemAfter(s, c)
            && (!p.FetchPulse? && !p.FetchWait? ==> s'.cpu.inst == s.cpu.inst && s'.cpu.lines == s.cpu.lines)
            && (p.FetchPulse? ==> s'.cpu.lines == s.cpu.lines)
            && (p.Startup? ==> s'.cpu.exu == ExuStart)
  {
    hide RtlDecode, AluResult, ReadPort, AccessNow, RegsAfter, PcAfter, Hit, Fill, Lookup, ExtendData, AlignData,
      UpperBits, BeatOf, WriteBeat, BusRead, Split, RtlDecoded.IsMemory;
    TokenStep(s, c, p);
  }

  lemma StartStep(s: State, c: Choice, g: Machine, fetched: set<Word>)
    requires Simulates(s, g, fetched, Startup)
    ensures Simulates(Step(s, c), g, fetched, FetchPulse)
  {
    hide Coherent, Step, InstOf, DecNow, WordBase, SecondPart;
    QuietCycle(s, c, Startup);
  }

  /** A fetch answered by the cache or by the bus delivers the golden model's instruction. */
  lemma FetchStep(s: State, c: Choice, g: Machine, fetched: set<Word>, p: Phase)
    requires p.FetchPulse? || p.FetchWait?
    requires Simulates(s, g, fetched, p) && Mapped(g.pc)
    ensures Simulates(Step(s, c), g, fetched, NextPhase(s, c, p))
  {
    hide Coherent, DecNow, WordBase, SecondPart, Fill, Hit, Lookup, RegsAfter, PcAfter, LsuOutput, LsuNext, AccessNow,
      GoldenRead, BusRead, WriteBeat, RtlDecoded.IsMemory, Mapped;
    QuietCycle(s, c, p);
    FetchReads(g.mem, g.pc);
    if p.FetchPulse? {
      if Hit(s.cpu.lines, s.cpu.pc) {
        HitReadsMemory(s.cpu.lines, fetched, g.mem, g.pc);
      }
    } else if FetchAnswers(s, c) {
      FillKeepsCoherent(s.cpu.lines, fetched, g.mem, g.pc);
    }
  }

  /** An access that goes on leaves the golden model where it is. */
  lemma AccessStep(s: State, c: Choice, g: Machine, fetched: set<Word>, p: Phase)
    requires p.Decoded? || p.LsuFirst? || p.LsuTurn? || p.LsuSecond?
    requires Simulates(s, g, fetched, p) && !Retires(s, c, p)
    ensures Simulates(Step(s, c), g, fetched, NextPhase(s, c, p))
  {
    hide Coherent, WordBase, RtlDecode, AluResult, ReadPort, AccessOf, RegsAfter, PcAfter, Fill, Hit, Lookup, InstOf,
      BusRead, BusWrite, BeatMask, RotateData, ExtendData, AlignData, UpperBits, Split, RtlDecoded.IsMemory;
    QuietCycle(s, c, p);
  }

  // ---------------------------------------------------------------- retiring

  /** The last beat of a load delivers the assembled word and leaves memory alone. */
  lemma LoadData(s: State, c: Choice, g: Machine, fetched: set<Word>, p: Phase)
    requires p.LsuFirst? || p.LsuSecond?
    requires Simulates(s, g, fetched, p) && Retires(s, c, p) && !AccessNow(s.cpu).isWrite
    ensures Signals(s, c).lsu.rdata == BusLoad(g.mem, AccessNow(s.cpu))
    ensures MemAfter(s, c) == g.mem
  {
    hide Coherent, WordBase, AccessNow, FetchControl, ExuNext, Fill, Hit, Lookup, InstOf, DecNow, BusRead, BusWrite,
      BeatMask, RotateData, ExtendData, AlignData, UpperBits, Split, RtlDecoded.IsMemory;
  }

  /** After the last beat of a store, memory is as after all its beats. */
  lemma StoreData(s: State, c: Choice, g: Machine, fetched: set<Word>, p: Phase)
    requires p.LsuFirst? || p.LsuSecond?
    requires Simulates(s, g, fetched, p) && Retires(s, c, p)
    ensures MemAfter(s, c) == AfterStore(g.mem, AccessNow(s.cpu))
  {
    hide Coherent, WordBase, AccessNow, Fill, Hit, Lookup, InstOf, DecNow, BusRead, WriteBeat, BeatOf, Split,
      RtlDecoded.IsMemory;
  }

  /** What a retiring cycle does to the processor. */
  lemma RetiringCycle(s: State, c: Choice, p: Phase)
    requires At(s, p) && Retires(s, c, p)
    ensures var s' := Step(s, c);
            && At(s', FetchPulse)
            && s'.cpu.pc == PcAfter(s.cpu)
            && s'.cpu.regs == RegsAfter(s.cpu, Signals(s, c).lsu.rdata)
            && s'.cpu.lines == s.cpu.lines && s'.cpu.inst == s.cpu.inst
            && s'.mem == MemAfter(s, c)
  {
    hide RtlDecode, AluResult, ReadPort, AccessNow, RegsAfter, PcAfter, Hit, Fill, Lookup, ExtendData, AlignData,
      UpperBits, BeatOf, WriteBeat, BusRead, Split, RtlDecoded.IsMemory;
    TokenStep(s, c, p);
  }

  /** The load data the processor writes back is the golden model's. */
  lemma LoadedAgrees(s: State, c: Choice, g: Machine, fetched: set<Word>, p: Phase)
    requires Simulates(s, g, fetched, p) && InDomain(g, fetched) && Retires(s, c, p)
    requires p.Decoded? || p.LsuFirst? || p.LsuSecond?
    requires DecNow(s.cpu).IsLoad()
    ensures Signals(s, c).lsu.rdata == LoadedBy(s.cpu, g)
  {
    hide Coherent, WordBase, Signals, Step, DecNow, Supported, AddressOf, AluNow, BusLoad, GoldenRead, ExtendData,
      Mapped, RtlDecoded.Size, RtlDecoded.Signed, InstOf, DecodedOf, IsMemOp, BeatOf, At, SecondPart, StoreSafe;
    LoadIsNoStore(DecNow(s.cpu));
    RetireMemory(s.cpu, g);
    if p.Decoded? {
      assert false;
    } else {
      LoadData(s, c, g, fetched, p);
      LoadRefines(g.mem, AccessNow(s.cpu));
    }
  }

  lemma LoadIsNoStore(d: RtlDecoded)
    requires d.IsLoad()
    ensures !d.IsStore() && d.IsMemory()
  {
  }

  /** Memory after the retiring cycle is the golden model's, and the cache stays coherent with it. */
  lemma MemoryAgrees(s: State, c: Choice, g: Machine, fetched: set<Word>, p: Phase)
    requires Simulates(s, g, fetched, p) && InDomain(g, fetched) && Retires(s, c, p)
    requires p.Decoded? || p.LsuFirst? || p.LsuSecond?
    ensures MemAfter(s, c) == CpuEval(g).mem
    ensures Coherent(s.cpu.lines, fetched, CpuEval(g).mem)
  {
    hide Coherent, WordBase, Signals, Step, DecNow, Supported, AddressOf, AluNow, BusLoad, GoldenRead, GoldenWrite,
      AfterStore, ExtendData, Mapped, RtlDecoded.Size, RtlDecoded.Signed, RtlDecoded.IsStore, RtlDecoded.IsMemory,
      InstOf, DecodedOf, BeatOf, StoreSafe, SizeMask, CpuEval, WriteBeat;
    RetireMemory(s.cpu, g);
    if p.Decoded? {
      LoadsAreMemory(DecNow(s.cpu));
    } else if DecNow(s.cpu).IsStore() {
      StoreData(s, c, g, fetched, p);
      StoreRefines(g.mem, AccessNow(s.cpu));
      StoreKeepsCoherent(s.cpu.lines, fetched, g.mem, AccessNow(s.cpu));
    } else {
      LoadData(s, c, g, fetched, p);
    }
  }

  /** A retiring cycle is one step of the golden model. */
  lemma RetireStep(s: State, c: Choice, g: Machine, fetched: set<Word>, p: Phase)
    requires Simulates(s, g, fetched, p) && InDomain(g, fetched) && Retires(s, c, p)
    ensures Simulates(Step(s, c), CpuEval(g), fetched + {WordBase(CpuEval(g).pc)}, FetchPulse)
  {
    hide Coherent, WordBase, Signals, Step, DecNow, Supported, AddressOf, LoadedBy, MemAfter, RegsAfter, PcAfter,
      Mapped, InstOf, DecodedOf, StoreSafe, SecondPart, CpuEval, RtlDecoded.IsLoad;
    RetiringCycle(s, c, p);
    RetireControl(s.cpu, g);
    if DecNow(s.cpu).IsLoad() {
      LoadedAgrees(s, c, g, fetched, p);
    }
    RetireRegs(s.cpu, g, Signals(s, c).lsu.rdata);
    MemoryAgrees(s, c, g, fetched, p);
    CoherentGrows(s.cpu.lines, fetched, {WordBase(CpuEval(g).pc)}, CpuEval(g).mem);
    SameDecode(s.cpu, Step(s, c).cpu);
  }

  lemma SameDecode(r: CpuState, r': CpuState)
    requires r.inst == r'.inst
    ensures DecNow(r) == DecNow(r')
  {
  }

  /** One cycle: the golden model takes a step exactly when the processor retires. */
  lemma SimulationStep(s: State, c: Choice, g: Machine, fetched: set<Word>, p: Phase)
    requires Simulates(s, g, fetched, p) && Mapped(g.pc)
    requires Signals(s, c).retire ==> InDomain(g, fetched)
    ensures
      if Signals(s, c).retire
      then Simulates(Step(s, c), CpuEval(g), fetched + {WordBase(CpuEval(g).pc)}, NextPhase(s, c, p))
      else Simulates(Step(s, c), g, fetched, NextPhase(s, c, p))
  {
    hide Signals, Step, Simulates, CpuEval, WordBase, Supported, InstOf, DecodedOf, StoreSafe, Mapped, DataAnswers,
      FetchAnswers, IsSplit, IsMem;
    assert At(s, p) && Signals(s, c).retire == Retires(s, c, p) by {
      SimulationToken(s, c, g, fetched, p);
    }
    if Retires(s, c, p) {
      RetireStep(s, c, g, fetched, p);
    } else if p.Startup? {
      StartStep(s, c, g, fetched);
    } else if p.FetchPulse? || p.FetchWait? {
      FetchStep(s, c, g, fetched, p);
    } else {
      AccessStep(s, c, g, fetched, p);
    }
  }

  lemma SimulationToken(s: State, c: Choice, g: Machine, fetched: set<Word>, p: Phase)
    requires Simulates(s, g, fetched, p)
    ensures At(s, p) && Signals(s, c).retire == Retires(s, c, p)
  {
    hide At, Signals, Retires;
    TokenStep(s, c, p);
  }

  lemma ExecuteMeansRetired(s: State, c: Choice)
    ensures Step(s, c).cpu.exu == ExuExecute <==> Signals(s, c).retire
  {
    hide RtlDecode, AccessNow, RegsAfter, PcAfter, LsuOutput, LsuNext, Icache.Hit, Icache.Fill,
      Icache.Lookup, MemAfter;
  }

  // ---------------------------------------------------------------- whole runs

  /** The golden machine that starts from the processor's reset state. */
  function GoldenOf(s: State): Machine { Reset(s.mem) }

  /** The first `k` golden instructions are covered. */
  predicate CoveredBelow(g: Machine, k: nat) {
    forall j: nat :: j < k ==> InDomain(GoldenRun(g, j), FetchedBy(g, j))
  }

  /**
   * In every run, whatever the bus latencies, the processor simulates the golden model advanced
   * by the number of retired instructions: these are covered, and the next one can be fetched.
   */
  lemma {:induction false} RunSimulates(s: State, cs: seq<Choice>)
    requires Initial(s) && CoveredBelow(GoldenOf(s), Retired(s, cs))
    requires Mapped(GoldenRun(GoldenOf(s), Retired(s, cs)).pc)
    ensures
      var k := Retired(s, cs);
      Simulates(Run(s, cs), GoldenRun(GoldenOf(s), k), FetchedBy(GoldenOf(s), k), PhaseAfter(s, Startup, cs))
    decreases |cs|
  {
    hide Signals, Step, Simulates, CpuEval, WordBase, InDomain, Mapped, NextPhase, Initial, GoldenOf;
    var g := GoldenOf(s);
    if cs == [] {
      InitialSimulates(s);
    } else {
      var before, c := cs[..|cs| - 1], cs[|cs| - 1];
      var k := Retired(s, before);
      if Signals(Run(s, before), c).retire {
        CoveredIsMapped(GoldenRun(g, k), FetchedBy(g, k));
      }
      RunSimulates(s, before);
      SimulationStep(Run(s, before), c, GoldenRun(g, k), FetchedBy(g, k), PhaseAfter(s, Startup, before));
    }
  }

  lemma CoveredIsMapped(g: Machine, fetched: set<Word>)
    requires InDomain(g, fetched)
    ensures Mapped(g.pc)
  {
  }

  lemma InitialSimulates(s: State)
    requires Initial(s)
    ensures Simulates(s, GoldenRun(GoldenOf(s), 0), FetchedBy(GoldenOf(s), 0), Startup)
  {
    hide LineAddr, BusRead, WordBase;
    forall ix: bv8 ensures LineCoherent(s.cpu.lines, ix, FetchedBy(GoldenOf(s), 0), s.mem) {
      assert !s.cpu.lines[ix as int].valid;
    }
  }

  // ---------------------------------------------------------------- what it says about the registers

  /** The part of the relation that needs nothing of the instruction in progress. */
  ghost predicate Tracks(s: State, g: Machine, p: Phase) {
    && At(s, p)
    && s.cpu.pc == g.pc && s.cpu.regs == g.regs
    && (p.FetchPulse? && s.cpu.exu == ExuExecute ==> g.halt == (DecNow(s.cpu).instType == INST_EBREAK))
    && s.mem == if p.LsuTurn? || p.LsuSecond? then WriteBeat(g.mem, BeatOf(AccessNow(s.cpu), false)) else g.mem
  }

  lemma SimulatesTracks(s: State, g: Machine, fetched: set<Word>, p: Phase)
    requires Simulates(s, g, fetched, p)
    ensures Tracks(s, g, p)
  {
    hide Coherent, WordBase, At, AccessNow, InstOf, DecNow, BeatOf, WriteBeat, UpperBits, BusRead;
  }

  /**
   * Whatever the instruction in progress is, it changes nothing before it retires but the first part of a
   * split access.
   */
  lemma TracksStep(s: State, c: Choice, g: Machine, p: Phase)
    requires Tracks(s, g, p) && !Retires(s, c, p)
    ensures Tracks(Step(s, c), g, NextPhase(s, c, p))
  {
    hide RtlDecode, AluResult, ReadPort, AccessOf, RegsAfter, PcAfter, Fill, Hit, Lookup, BusRead, BusWrite, BeatMask,
      RotateData, ExtendData, AlignData, UpperBits, Split, RtlDecoded.IsMemory;
    QuietCycle(s, c, p);
  }

  lemma {:induction false} RunTracks(s: State, cs: seq<Choice>)
    requires Initial(s) && CoveredBelow(GoldenOf(s), Retired(s, cs))
    ensures Tracks(Run(s, cs), GoldenRun(GoldenOf(s), Retired(s, cs)), PhaseAfter(s, Startup, cs))
    decreases |cs|
  {
    hide Signals, Step, Simulates, Tracks, Retires, CpuEval, WordBase, InDomain, Mapped, NextPhase, Initial, GoldenOf;
    var g := GoldenOf(s);
    if cs == [] {
      InitialSimulates(s);
      SimulatesTracks(s, GoldenRun(g, 0), FetchedBy(g, 0), Startup);
    } else {
      var before, c := cs[..|cs| - 1], cs[|cs| - 1];
      var r, k, q := Run(s, before), Retired(s, before), PhaseAfter(s, Startup, before);
      if Signals(r, c).retire {
        CoveredIsMapped(GoldenRun(g, k), FetchedBy(g, k));
        RunSimulates(s, before);
        SimulationStep(r, c, GoldenRun(g, k), FetchedBy(g, k), q);
        SimulatesTracks(Step(r, c), GoldenRun(g, k + 1), FetchedBy(g, k + 1), NextPhase(r, c, q));
      } else {
        RunTracks(s, before);
        TracksToken(r, c, GoldenRun(g, k), q);
        TracksStep(r, c, GoldenRun(g, k), q);
      }
    }
  }

  lemma TracksToken(s: State, c: Choice, g: Machine, p: Phase)
    requires Tracks(s, g, p)
    ensures Signals(s, c).retire == Retires(s, c, p)
  {
    hide At, Signals, Retires, WriteBeat, DecNow, BeatOf, AccessNow;
    TokenStep(s, c, p);
  }

  lemma TracksIsVisible(s: State, g: Machine, p: Phase)
    requires Tracks(s, g, p)
    ensures s.cpu.pc == g.pc && s.cpu.regs == g.regs
    ensures s.mem == if s.cpu.lsu.state == WaitMisTwo then WriteBeat(g.mem, BeatOf(AccessNow(s.cpu), false)) else g.mem
    ensures s.cpu.exu == ExuExecute ==> (g.halt <==> DecNow(s.cpu).instType == INST_EBREAK)
  {
    hide AccessNow, DecNow, BeatOf, WriteBeat, Split, RtlDecoded.IsMemory;
  }

  lemma InstructionIsVisible(s: State, g: Machine, fetched: set<Word>, p: Phase)
    requires Simulates(s, g, fetched, p)
    ensures s.cpu.decoded || s.cpu.lsu.state != Idle ==> s.cpu.inst == InstOf(g)
  {
    hide Coherent, WordBase, AccessNow, InstOf, DecNow, BeatOf, WriteBeat, Split, RtlDecoded.IsMemory, UpperBits,
      BusRead;
  }

  /**
   * In every run whose retired instructions are covered, whatever follows them: the pc and the
   * registers are the golden model's after as many instructions, and so is memory, except that a
   * split store that waits for its second part has already done its first beat. The cycle after
   * an instruction retired, the ebreak event tells whether the golden model stopped. If the next
   * instruction can be fetched, the one being executed is the golden model's.
   */
  lemma ArchitecturalState(s: State, cs: seq<Choice>)
    requires Initial(s) && CoveredBelow(GoldenOf(s), Retired(s, cs))
    ensures
      var r, g := Run(s, cs), GoldenRun(GoldenOf(s), Retired(s, cs));
      && r.cpu.pc == g.pc && r.cpu.regs == g.regs
      && r.mem == (if r.cpu.lsu.state == WaitMisTwo then WriteBeat(g.mem, BeatOf(AccessNow(r.cpu), false)) else g.mem)
      && (r.cpu.exu == ExuExecute ==> (g.halt <==> DecNow(r.cpu).instType == INST_EBREAK))
      && (Mapped(g.pc) && (r.cpu.decoded || r.cpu.lsu.state != Idle) ==> r.cpu.inst == InstOf(g))
  {
    hide Simulates, Tracks, InDomain, InstOf, DecNow, AccessNow, BeatOf, WriteBeat, Mapped, Initial, GoldenOf, Run,
      Retired, PhaseAfter, GoldenRun, FetchedBy;
    var r, g, q := Run(s, cs), GoldenRun(GoldenOf(s), Retired(s, cs)), PhaseAfter(s, Startup, cs);
    RunTracks(s, cs);
    TracksIsVisible(r, g, q);
    if Mapped(g.pc) {
      RunSimulates(s, cs);
      InstructionIsVisible(r, g, FetchedBy(GoldenOf(s), Retired(s, cs)), q);
    }
  }
}
