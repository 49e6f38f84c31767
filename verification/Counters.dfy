/** The performance counters, and three conservation laws that hold for every instruction word. */
module Counters {
  import opened Alu
  import opened Decode
  import opened Ifu
  import opened Rf
  import opened Csr
  import opened Exu
  import opened Cpu
  import opened Soc
  import opened Token
  import opened Lsu
  import opened Golden
  import opened Memory
  import opened Simulation
  import Icache

  /** The event wires of `exu` and the cache's hit wire in one cycle, and the two fetch request wires. */
  datatype Events = Events(
    instret: bool, ifuWait: bool, lsuWait: bool,
    loadSeen: bool, storeSeen: bool, systemSeen: bool, calcSeen: bool, jumpSeen: bool, branchSeen: bool,
    branchTaken: bool,
    icacheHit: bool, fetchRequest: bool, busFetch: bool,
    ebreak: bool)

  function EventsOf(s: State, c: Choice): Events {
    var w, d := Signals(s, c), DecNow(s.cpu);
    Events(
      w.retire, w.exuNext == ExuStallIdu, w.exuNext == ExuStallLsu,
      w.retire && d.IsLoad(), w.retire && d.IsStore(), w.retire && d.IsSystem(), w.retire && d.IsCalc(),
      w.retire && d.IsJump(), w.retire && d.IsBranch(),
      w.retire && BranchTaken(d, Read1(s.cpu), Read2(s.cpu)),
      w.fetch.hit, s.cpu.fetchReq, w.fetch.ioReq,
      d.instType == INST_EBREAK && s.cpu.exu == ExuExecute)
  }

  datatype Counts = Counts(
    instret: nat, ifuWait: nat, lsuWait: nat,
    loadSeen: nat, storeSeen: nat, systemSeen: nat, calcSeen: nat, jumpSeen: nat, branchSeen: nat,
    branchTaken: nat,
    icacheHits: nat, fetchRequests: nat, busFetches: nat,
    ebreak: bool)

  const NO_COUNTS := Counts(0, 0, 0, 0, 0, 0, 0, 0, 0, 0, 0, 0, 0, false)

  function One(b: bool): nat { if b then 1 else 0 }

  function Measure(n: Counts, e: Events): Counts {
    Counts(
      n.instret + One(e.instret), n.ifuWait + One(e.ifuWait), n.lsuWait + One(e.lsuWait),
      n.loadSeen + One(e.loadSeen), n.storeSeen + One(e.storeSeen), n.systemSeen + One(e.systemSeen),
      n.calcSeen + One(e.calcSeen), n.jumpSeen + One(e.jumpSeen), n.branchSeen + One(e.branchSeen),
      n.branchTaken + One(e.branchTaken),
      n.icacheHits + One(e.icacheHit), n.fetchRequests + One(e.fetchRequest), n.busFetches + One(e.busFetch),
      n.ebreak || e.ebreak)
  }

  /** The test bench's counters, incremented by the two measuring calls of each cycle. */
  class PerfCounters {
    var instret: nat
    var ifuWait: nat
    var lsuWait: nat
    var loadSeen: nat
    var storeSeen: nat
    var systemSeen: nat
    var calcSeen: nat
    var jumpSeen: nat
    var branchSeen: nat
    var branchTaken: nat
    var icacheHits: nat
    var ebreak: bool
    ghost var fetchRequests: nat
    ghost var busFetches: nat

    ghost function View(): Counts
      reads this
    {
      Counts(instret, ifuWait, lsuWait, loadSeen, storeSeen, systemSeen, calcSeen, jumpSeen, branchSeen, branchTaken,
             icacheHits, fetchRequests, busFetches, ebreak)
    }

    /** `exu_perf_reset` and `icache_perf_reset` */
    method Reset()
      modifies this
      ensures View() == NO_COUNTS
    {
      ResetCycles();
      ResetClasses();
      ResetFetches();
    }

    method ResetCycles()
      modifies this`ebreak, this`instret, this`ifuWait, this`lsuWait
      ensures !ebreak && instret == 0 && ifuWait == 0 && lsuWait == 0
    {
      ebreak, instret, ifuWait, lsuWait := false, 0, 0, 0;
    }

    method ResetClasses()
      modifies this`loadSeen, this`storeSeen, this`systemSeen, this`calcSeen, this`jumpSeen, this`branchSeen,
               this`branchTaken
      ensures loadSeen == 0 && storeSeen == 0 && systemSeen == 0 && calcSeen == 0
      ensures jumpSeen == 0 && branchSeen == 0 && branchTaken == 0
    {
      loadSeen, storeSeen, systemSeen, calcSeen, jumpSeen, branchSeen, branchTaken := 0, 0, 0, 0, 0, 0, 0;
    }

    method ResetFetches()
      modifies this`icacheHits, this`fetchRequests, this`busFetches
      ensures icacheHits == 0 && fetchRequests == 0 && busFetches == 0
    {
      icacheHits := 0;
      fetchRequests, busFetches := 0, 0;
    }

    method CountCycle(e: Events)
      modifies this`ebreak, this`instret, this`ifuWait, this`lsuWait
      ensures ebreak == (old(ebreak) || e.ebreak)
      ensures instret == old(instret) + One(e.instret)
      ensures ifuWait == old(ifuWait) + One(e.ifuWait)
      ensures lsuWait == old(lsuWait) + One(e.lsuWait)
    {
      if e.ebreak { ebreak := true; }
      if e.instret { instret := instret + 1; }
      if e.ifuWait { ifuWait := ifuWait + 1; }
      if e.lsuWait { lsuWait := lsuWait + 1; }
    }

    method CountData(e: Events)
      modifies this`loadSeen, this`storeSeen, this`systemSeen, this`calcSeen
      ensures loadSeen == old(loadSeen) + One(e.loadSeen)
      ensures storeSeen == old(storeSeen) + One(e.storeSeen)
      ensures systemSeen == old(systemSeen) + One(e.systemSeen)
      ensures calcSeen == old(calcSeen) + One(e.calcSeen)
    {
      if e.loadSeen { loadSeen := loadSeen + 1; }
      if e.storeSeen { storeSeen := storeSeen + 1; }
      if e.systemSeen { systemSeen := systemSeen + 1; }
      if e.calcSeen { calcSeen := calcSeen + 1; }
    }

    method CountControl(e: Events)
      modifies this`jumpSeen, this`branchSeen, this`branchTaken
      ensures jumpSeen == old(jumpSeen) + One(e.jumpSeen)
      ensures branchSeen == old(branchSeen) + One(e.branchSeen)
      ensures branchTaken == old(branchTaken) + One(e.branchTaken)
    {
      if e.jumpSeen { jumpSeen := jumpSeen + 1; }
      if e.branchSeen { branchSeen := branchSeen + 1; }
      if e.branchTaken { branchTaken := branchTaken + 1; }
    }

    /** `exu_perf_measure` and `icache_perf_measure` */
    method Observe(e: Events)
      modifies this
      ensures View() == Measure(old(View()), e)
    {
      hide One;
      CountCycle(e);
      CountData(e);
      CountControl(e);
      CountFetch(e);
    }

    method CountFetch(e: Events)
      modifies this`icacheHits, this`fetchRequests, this`busFetches
      ensures icacheHits == old(icacheHits) + One(e.icacheHit)
      ensures fetchRequests == old(fetchRequests) + One(e.fetchRequest)
      ensures busFetches == old(busFetches) + One(e.busFetch)
    {
      if e.icacheHit { icacheHits := icacheHits + 1; }
      fetchRequests := fetchRequests + One(e.fetchRequest);
      busFetches := busFetches + One(e.busFetch);
    }
  }

  /** The counters after the cycles `cs`. */
  function CountsAfter(s: State, cs: seq<Choice>): Counts {
    if cs == [] then NO_COUNTS
    else
      var before := cs[..|cs| - 1];
      Measure(CountsAfter(s, before), EventsOf(Run(s, before), cs[|cs| - 1]))
  }

  /** After the first cycle, each one retires, waits for a fetch or waits for the data bus. */
  lemma OneEventPerCycle(s: State, c: Choice, p: Phase)
    requires At(s, p)
    ensures
      var e := EventsOf(s, c);
      One(e.instret) + One(e.ifuWait) + One(e.lsuWait) == One(!p.Startup?)
  {
    hide RtlDecode, AluResult, ReadPort, AccessOf, Icache.Hit, Icache.Lookup, ExtendData, AlignData, UpperBits,
      BeatOf, Split, BranchTaken, RtlDecoded.IsMemory, RtlDecoded.IsLoad, RtlDecoded.IsStore, RtlDecoded.IsSystem,
      RtlDecoded.IsCalc, RtlDecoded.IsJump, RtlDecoded.IsBranch;
  }

  /** A fetch request hits or goes to the bus, and nothing else does. */
  lemma FetchHitsOrGoesOut(s: State, c: Choice, p: Phase)
    requires At(s, p)
    ensures
      var e := EventsOf(s, c);
      One(e.fetchRequest) == One(e.icacheHit) + One(e.busFetch)
  {
    hide RtlDecode, AluResult, ReadPort, AccessOf, Icache.Hit, Icache.Lookup, ExtendData, AlignData, UpperBits,
      BeatOf, Split, BranchTaken, RtlDecoded.IsMemory, RtlDecoded.IsLoad, RtlDecoded.IsStore, RtlDecoded.IsSystem,
      RtlDecoded.IsCalc, RtlDecoded.IsJump, RtlDecoded.IsBranch;
  }

  /** Every instruction word, defined or not, falls into exactly one class. */
  lemma OneClass(inst: bv32)
    ensures
      var d := RtlDecode(inst);
      One(d.IsLoad()) + One(d.IsStore()) + One(d.IsSystem()) + One(d.IsCalc()) + One(d.IsJump()) + One(d.IsBranch())
          == 1
  {
    hide Opcode, Rd, Rs1, Rs2, Funct3, RtlIImm, RtlSImm, RtlUImm, RtlJImm, RtlBImm, AluCode;
  }

  // ---------------------------------------------------------------- whole runs

  /** `mcycle` counts the retired instructions, the waits of both kinds, and one cycle after reset. */
  predicate CycleBalance(n: Counts, mcycle: nat) {
    mcycle == (n.instret + n.ifuWait + n.lsuWait + 1) % WRAP64
  }

  lemma BalanceStarts(e: Events)
    requires One(e.instret) + One(e.ifuWait) + One(e.lsuWait) == 0
    ensures CycleBalance(Measure(NO_COUNTS, e), 1)
  {
    hide One;
    var n := Measure(NO_COUNTS, e);
    assert n.instret == One(e.instret) && n.ifuWait == One(e.ifuWait) && n.lsuWait == One(e.lsuWait);
  }

  lemma BalanceKept(n: Counts, mcycle: nat, e: Events)
    requires CycleBalance(n, mcycle) && One(e.instret) + One(e.ifuWait) + One(e.lsuWait) == 1
    ensures CycleBalance(Measure(n, e), (mcycle + 1) % WRAP64)
  {
    WrapOnce(n.instret + n.ifuWait + n.lsuWait + 1);
  }

  lemma {:induction false} CycleConservation(s: State, cs: seq<Choice>)
    requires Initial(s) && cs != []
    ensures CycleBalance(CountsAfter(s, cs), Run(s, cs).cpu.mcycle)
    decreases |cs|
  {
    hide At, NextPhase, EventsOf, Initial, Step, PhaseAfter, CycleBalance, Measure, One;
    var before, c := cs[..|cs| - 1], cs[|cs| - 1];
    var e := EventsOf(Run(s, before), c);
    InitialAt(s);
    TokenRun(s, Startup, before);
    EventSum(Run(s, before), c, PhaseAfter(s, Startup, before));
    Ticks(Run(s, before), c);
    if before == [] {
      StartsAtZero(s);
      BalanceStarts(e);
    } else {
      CycleConservation(s, before);
      NotStartup(s, before);
      BalanceKept(CountsAfter(s, before), Run(s, before).cpu.mcycle, e);
    }
  }

  lemma EventSum(s: State, c: Choice, p: Phase)
    requires At(s, p)
    ensures var e := EventsOf(s, c);
            One(e.instret) + One(e.ifuWait) + One(e.lsuWait) == if p.Startup? then 0 else 1
  {
    hide EventsOf, At;
    OneEventPerCycle(s, c, p);
  }

  lemma Ticks(s: State, c: Choice)
    ensures Step(s, c).cpu.mcycle == (s.cpu.mcycle + 1) % WRAP64
  {
    hide Observe, RegsAfter, PcAfter, AccessNow, LsuNext, IfuNext, Icache.Fill, MemAfter;
  }

  lemma WrapOnce(n: nat)
    ensures (n % WRAP64 + 1) % WRAP64 == (n + 1) % WRAP64
  {
  }

  lemma StartsAtZero(s: State)
    requires Initial(s)
    ensures s.cpu.mcycle == 0 && PhaseAfter(s, Startup, []) == Startup
  {
  }

  /** Every retired instruction is counted in exactly one class, and only branches are taken. */
  lemma {:induction false} RetirementConservation(s: State, cs: seq<Choice>)
    ensures
      var n := CountsAfter(s, cs);
      && n.instret == n.loadSeen + n.storeSeen + n.systemSeen + n.calcSeen + n.jumpSeen + n.branchSeen
      && n.branchTaken <= n.branchSeen
    decreases |cs|
  {
    hide Signals, Step, RtlDecode, Run, RtlCompare;
    if cs == [] {
    } else {
      RetirementConservation(s, cs[..|cs| - 1]);
      OneClass(Run(s, cs[..|cs| - 1]).cpu.inst);
    }
  }

  /** Every fetch request was answered by the cache or went to the bus. */
  lemma {:induction false} FetchConservation(s: State, cs: seq<Choice>)
    requires Initial(s)
    ensures
      var n := CountsAfter(s, cs);
      n.fetchRequests == n.icacheHits + n.busFetches
    decreases |cs|
  {
    hide At, NextPhase, EventsOf, Initial;
    if cs == [] {
    } else {
      FetchConservation(s, cs[..|cs| - 1]);
      InitialAt(s);
      TokenRun(s, Startup, cs[..|cs| - 1]);
      FetchHitsOrGoesOut(Run(s, cs[..|cs| - 1]), cs[|cs| - 1], PhaseAfter(s, Startup, cs[..|cs| - 1]));
    }
  }

  // ---------------------------------------------------------------- the ebreak flag

  lemma FlagStep(s: State, cs: seq<Choice>, c: Choice)
    ensures CountsAfter(s, cs + [c]).ebreak == (CountsAfter(s, cs).ebreak || EventsOf(Run(s, cs), c).ebreak)
  {
    hide EventsOf, Run;
    assert (cs + [c])[..|cs|] == cs;
  }

  lemma EventIsHalt(s: State, cs: seq<Choice>, c: Choice)
    requires Initial(s) && CoveredBelow(GoldenOf(s), Retired(s, cs))
    ensures
      EventsOf(Run(s, cs), c).ebreak
      == (Run(s, cs).cpu.exu == ExuExecute && GoldenRun(GoldenOf(s), Retired(s, cs)).halt)
  {
    hide Run, Initial, CoveredBelow, GoldenRun, GoldenOf, Retired, Signals, DecNow, Mapped, InstOf, WriteBeat, BeatOf,
      AccessNow;
    ArchitecturalState(s, cs);
  }

  lemma NothingExecuted(s: State)
    requires Initial(s)
    ensures s.cpu.exu != ExuExecute
  {
  }

  /**
   * In every covered run the sticky flag is set exactly if the golden model stopped at one of the retired
   * instructions.
   */
  lemma {:induction false} EbreakFlag(s: State, cs: seq<Choice>, c: Choice)
    requires Initial(s) && CoveredBelow(GoldenOf(s), Retired(s, cs))
    ensures
      CountsAfter(s, cs + [c]).ebreak
      <==> exists j: nat :: 0 < j <= Retired(s, cs) && GoldenRun(GoldenOf(s), j).halt
    decreases |cs|
  {
    hide Initial, GoldenRun, GoldenOf, EventsOf, CountsAfter, Step, Signals, Run, Retired, CoveredBelow;
    FlagStep(s, cs, c);
    EventIsHalt(s, cs, c);
    if cs == [] {
      StartOfRun(s);
      NothingExecuted(s);
    } else {
      var before, d := cs[..|cs| - 1], cs[|cs| - 1];
      assert before + [d] == cs;
      LastOfRun(s, before, d);
      CoveredBefore(s, before, d);
      EbreakFlag(s, before, d);
      ExecuteMeansRetired(Run(s, before), d);
    }
  }

  lemma StartOfRun(s: State)
    ensures Run(s, []) == s && Retired(s, []) == 0 && !CountsAfter(s, []).ebreak
  {
  }

  lemma LastOfRun(s: State, before: seq<Choice>, d: Choice)
    ensures Run(s, before + [d]) == Step(Run(s, before), d)
    ensures Retired(s, before + [d]) == Retired(s, before) + if Signals(Run(s, before), d).retire then 1 else 0
  {
    hide Step, Signals;
    assert (before + [d])[..|before|] == before;
  }

  lemma CoveredBefore(s: State, before: seq<Choice>, d: Choice)
    requires CoveredBelow(GoldenOf(s), Retired(s, before + [d]))
    ensures CoveredBelow(GoldenOf(s), Retired(s, before))
  {
    hide Step, Signals, GoldenOf, Run, Retired;
    LastOfRun(s, before, d);
  }
}
