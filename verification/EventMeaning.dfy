/** What each performance counter counts. */
module EventMeaning {
  import opened Words
  import opened Decode
  import opened Memory
  import opened Lsu
  import opened Ifu
  import opened Rf
  import opened Exu
  import opened Cpu
  import opened Soc
  import opened Token
  import opened Golden
  import opened Fields
  import opened Isa
  import opened Execution
  import opened Refinement
  import opened Simulation
  import opened Counters
  import Icache

  // ---------------------------------------------------------------- classes of instructions

  datatype Class = LoadClass | StoreClass | SystemClass | JumpClass | BranchClass | CalcClass

  /** The class of an instruction word by its opcode; words nobody defined count as calculations. */
  function ClassOf(inst: Word): Class {
    var opcode := Bits(inst, 0, 7);
    if opcode == 0x03 then LoadClass
    else if opcode == 0x23 then StoreClass
    else if opcode == 0x73 then SystemClass
    else if opcode == 0x6F || opcode == 0x67 then JumpClass
    else if opcode == 0x63 then BranchClass
    else CalcClass
  }

  lemma ClassByOpcode(inst: Word)
    ensures
      var d, o := RtlDecode(inst), Opcode(inst);
      && (d.IsLoad() <==> o == 0x03) && (d.IsStore() <==> o == 0x23) && (d.IsSystem() <==> o == 0x73)
      && (d.IsJump() <==> o == 0x6F || o == 0x67) && (d.IsBranch() <==> o == 0x63)
      && (d.IsCalc() <==> o !in {0x03, 0x23, 0x73, 0x6F, 0x67, 0x63})
      && (o == 0x63 ==> d.comOp == Funct3(inst))
  {
    hide Opcode, Rd, Rs1, Rs2, Funct3, RtlIImm, RtlSImm, RtlUImm, RtlJImm, RtlBImm, AluCode, TakeBit;
  }

  /** The decoder's class bits say which class the word belongs to. */
  lemma RtlClass(inst: Word)
    ensures
      var d, k := RtlDecode(inst), ClassOf(inst);
      && (d.IsLoad() <==> k == LoadClass) && (d.IsStore() <==> k == StoreClass) && (d.IsSystem() <==> k == SystemClass)
      && (d.IsJump() <==> k == JumpClass) && (d.IsBranch() <==> k == BranchClass) && (d.IsCalc() <==> k == CalcClass)
  {
    hide RtlDecode, Opcode, Bits, RtlDecoded.IsLoad, RtlDecoded.IsStore, RtlDecoded.IsSystem, RtlDecoded.IsJump,
      RtlDecoded.IsBranch, RtlDecoded.IsCalc;
    OpcodeNumber(inst);
    OpcodeLiterals(Opcode(inst));
    ClassByOpcode(inst);
  }

  // ---------------------------------------------------------------- retirements, class by class

  /** How many of the cycles retire an instruction of this class. */
  function RetiredOf(s: State, cs: seq<Choice>, kind: Class): nat {
    if cs == [] then 0
    else
      var before := cs[..|cs| - 1];
      var r := Run(s, before);
      RetiredOf(s, before, kind) + One(Signals(r, cs[|cs| - 1]).retire && ClassOf(r.cpu.inst) == kind)
  }

  /** The counter of a class, and its event. */
  function SeenOf(n: Counts, kind: Class): nat {
    match kind
    case LoadClass => n.loadSeen
    case StoreClass => n.storeSeen
    case SystemClass => n.systemSeen
    case JumpClass => n.jumpSeen
    case BranchClass => n.branchSeen
    case CalcClass => n.calcSeen
  }

  function EventOf(e: Events, kind: Class): bool {
    match kind
    case LoadClass => e.loadSeen
    case StoreClass => e.storeSeen
    case SystemClass => e.systemSeen
    case JumpClass => e.jumpSeen
    case BranchClass => e.branchSeen
    case CalcClass => e.calcSeen
  }

  lemma SeenStep(n: Counts, e: Events, kind: Class)
    ensures SeenOf(Measure(n, e), kind) == SeenOf(n, kind) + One(EventOf(e, kind))
    ensures Measure(n, e).instret == n.instret + One(e.instret)
  {
    hide One;
  }

  lemma ClassEvents(s: State, c: Choice, kind: Class)
    ensures EventOf(EventsOf(s, c), kind) <==> Signals(s, c).retire && ClassOf(s.cpu.inst) == kind
    ensures EventsOf(s, c).instret == Signals(s, c).retire
  {
    hide Signals, RtlDecode, ClassOf, Read1, Read2, BranchTaken, RtlDecoded.IsLoad, RtlDecoded.IsStore,
      RtlDecoded.IsSystem, RtlDecoded.IsJump, RtlDecoded.IsBranch, RtlDecoded.IsCalc;
    RtlClass(s.cpu.inst);
  }

  lemma RetiredOfUnfolds(s: State, cs: seq<Choice>, kind: Class)
    requires cs != []
    ensures
      var r, c := Run(s, cs[..|cs| - 1]), cs[|cs| - 1];
      RetiredOf(s, cs, kind)
      == RetiredOf(s, cs[..|cs| - 1], kind) + One(Signals(r, c).retire && ClassOf(r.cpu.inst) == kind)
  {
    hide Signals, ClassOf, Run;
  }

  lemma CountsUnfold(s: State, cs: seq<Choice>)
    requires cs != []
    ensures
      var before := cs[..|cs| - 1];
      CountsAfter(s, cs) == Measure(CountsAfter(s, before), EventsOf(Run(s, before), cs[|cs| - 1]))
  {
    hide Measure, EventsOf, Run;
  }

  lemma RetiredUnfolds(s: State, cs: seq<Choice>)
    requires cs != []
    ensures
      Retired(s, cs) == Retired(s, cs[..|cs| - 1]) + One(Signals(Run(s, cs[..|cs| - 1]), cs[|cs| - 1]).retire)
  {
    hide Signals, Run;
  }

  lemma StartCounts(s: State, kind: Class)
    ensures RetiredOf(s, [], kind) == 0 && Retired(s, []) == 0
    ensures SeenOf(CountsAfter(s, []), kind) == 0 && CountsAfter(s, []).instret == 0
  {
  }

  /** In every run and for every program, each class counter is the number of retired instructions of its class. */
  lemma {:induction false} ClassCount(s: State, cs: seq<Choice>, kind: Class)
    ensures SeenOf(CountsAfter(s, cs), kind) == RetiredOf(s, cs, kind)
    ensures CountsAfter(s, cs).instret == Retired(s, cs)
    decreases |cs|
  {
    hide Signals, EventsOf, EventOf, ClassOf, Run, One, CountsAfter, RetiredOf, Retired, SeenOf, Measure;
    if cs == [] {
      StartCounts(s, kind);
    } else {
      var before, c := cs[..|cs| - 1], cs[|cs| - 1];
      ClassCount(s, before, kind);
      ClassEvents(Run(s, before), c, kind);
      CountsUnfold(s, cs);
      SeenStep(CountsAfter(s, before), EventsOf(Run(s, before), c), kind);
      RetiredUnfolds(s, cs);
      RetiredOfUnfolds(s, cs, kind);
    }
  }

  /** How many of the first `k` golden instructions are of this class. */
  function GoldenOfClass(g: Machine, k: nat, kind: Class): nat {
    if k == 0 then 0 else GoldenOfClass(g, k - 1, kind) + One(ClassOf(InstOf(GoldenRun(g, k - 1))) == kind)
  }

  /** The instruction a covered run retires is the golden model's next one, with the golden model's operands. */
  lemma RetiresGolden(s: State, cs: seq<Choice>, c: Choice)
    requires Initial(s) && CoveredBelow(GoldenOf(s), Retired(s, cs) + 1) && Signals(Run(s, cs), c).retire
    ensures
      var r, g := Run(s, cs).cpu, GoldenRun(GoldenOf(s), Retired(s, cs));
      r.inst == InstOf(g) && Read1(r) == Operand1(g) && Read2(r) == Operand2(g)
  {
    hide Simulates, InDomain, InstOf, Initial, GoldenOf, Run, Retired, PhaseAfter, GoldenRun, FetchedBy, Signals,
      Mapped, Operand1, Operand2, Read1, Read2;
    var k := Retired(s, cs);
    var r, g, p := Run(s, cs), GoldenRun(GoldenOf(s), k), PhaseAfter(s, Startup, cs);
    CoveredIsMapped(g, FetchedBy(GoldenOf(s), k));
    RunSimulates(s, cs);
    RetiringState(r, c, g, FetchedBy(GoldenOf(s), k), p);
    OperandsAgree(r.cpu, g);
  }

  lemma RetiringState(s: State, c: Choice, g: Machine, fetched: set<Word>, p: Phase)
    requires Simulates(s, g, fetched, p) && Signals(s, c).retire
    ensures Refinement.Holds(s.cpu, g)
  {
    hide Signals, InstOf, Icache.Coherent, DecNow, WordBase, SecondPart, At;
    SimulationToken(s, c, g, fetched, p);
  }

  lemma RetiresSameClass(s: State, before: seq<Choice>, c: Choice, kind: Class)
    requires Initial(s) && CoveredBelow(GoldenOf(s), Retired(s, before + [c]))
    ensures
      var r, retire := Run(s, before).cpu, Signals(Run(s, before), c).retire;
      One(retire && ClassOf(r.inst) == kind)
      == if retire then One(ClassOf(InstOf(GoldenRun(GoldenOf(s), Retired(s, before)))) == kind) else 0
  {
    hide Signals, ClassOf, Run, Initial, GoldenOf, GoldenRun, InstOf, Retired, CoveredBelow, Read1, Read2, Operand1,
      Operand2;
    LastOfRun(s, before, c);
    if Signals(Run(s, before), c).retire {
      RetiresGolden(s, before, c);
    }
  }

  lemma GoldenOfClassUnfolds(g: Machine, k: nat, kind: Class)
    ensures
      GoldenOfClass(g, k + 1, kind) == GoldenOfClass(g, k, kind) + One(ClassOf(InstOf(GoldenRun(g, k))) == kind)
    ensures GoldenOfClass(g, 0, kind) == 0
  {
    hide ClassOf, InstOf, GoldenRun, One;
  }

  /** In a covered run the retired instructions of each class are the golden model's. */
  lemma {:induction false} GoldenClassCounts(s: State, cs: seq<Choice>, kind: Class)
    requires Initial(s) && CoveredBelow(GoldenOf(s), Retired(s, cs))
    ensures RetiredOf(s, cs, kind) == GoldenOfClass(GoldenOf(s), Retired(s, cs), kind)
    decreases |cs|
  {
    hide Signals, ClassOf, Run, Initial, GoldenOf, GoldenRun, InstOf, One, RetiredOf, Retired, CoveredBelow,
      GoldenOfClass;
    if cs == [] {
      StartCounts(s, kind);
      GoldenOfClassUnfolds(GoldenOf(s), 0, kind);
    } else {
      var before, c := cs[..|cs| - 1], cs[|cs| - 1];
      assert before + [c] == cs;
      LastOfRun(s, before, c);
      CoveredBefore(s, before, c);
      RetiredOfUnfolds(s, cs, kind);
      GoldenClassCounts(s, before, kind);
      GoldenOfClassUnfolds(GoldenOf(s), Retired(s, before), kind);
      RetiresSameClass(s, before, c, kind);
    }
  }

  // ---------------------------------------------------------------- taken branches

  /** The branch conditions as the hardware has them: one more code than the golden model, which always holds. */
  predicate BranchHolds(g: Machine) {
    ClassOf(InstOf(g)) == BranchClass && (Isa.Holds(Funct3Of(g), Source1(g), Source2(g)) || Funct3Of(g) == 2)
  }

  function GoldenTaken(g: Machine, k: nat): nat {
    if k == 0 then 0 else GoldenTaken(g, k - 1) + One(BranchHolds(GoldenRun(g, k - 1)))
  }

  lemma TakenEvent(s: State, c: Choice, g: Machine)
    requires Signals(s, c).retire
    requires s.cpu.inst == InstOf(g) && Read1(s.cpu) == Operand1(g) && Read2(s.cpu) == Operand2(g)
    ensures EventsOf(s, c).branchTaken <==> BranchHolds(g)
  {
    hide Signals, RtlDecode, ClassOf, Isa.Holds, Read1, Read2, Operand1, Operand2, InstOf, Bits, Opcode, Funct3,
      Source1, Source2, Alu.RtlCompare, RtlDecoded.IsBranch, RtlDecoded.IsLoad, RtlDecoded.IsStore,
      RtlDecoded.IsSystem, RtlDecoded.IsJump, RtlDecoded.IsCalc;
    var inst := InstOf(g);
    RtlClass(inst);
    ClassByOpcode(inst);
    FieldNumbers(inst);
    Bv3Literals(Funct3(inst));
    Sources(g);
    CompareHolds(Funct3(inst), Source1(g), Source2(g));
  }

  lemma NotTakenWithoutRetirement(s: State, c: Choice)
    requires !Signals(s, c).retire
    ensures !EventsOf(s, c).branchTaken
  {
    hide Signals, RtlDecode, BranchTaken, Read1, Read2, RtlDecoded.IsBranch, RtlDecoded.IsLoad, RtlDecoded.IsStore,
      RtlDecoded.IsSystem, RtlDecoded.IsJump, RtlDecoded.IsCalc;
  }

  lemma TakenStep(s: State, before: seq<Choice>, c: Choice)
    requires Initial(s) && CoveredBelow(GoldenOf(s), Retired(s, before + [c]))
    ensures
      var r, g := Run(s, before), GoldenRun(GoldenOf(s), Retired(s, before));
      EventsOf(r, c).branchTaken <==> Signals(r, c).retire && BranchHolds(g)
  {
    hide Signals, EventsOf, BranchHolds, Run, Initial, GoldenOf, GoldenRun, InstOf, Retired, CoveredBelow, Read1,
      Read2, Operand1, Operand2;
    LastOfRun(s, before, c);
    if Signals(Run(s, before), c).retire {
      RetiresGolden(s, before, c);
      TakenEvent(Run(s, before), c, GoldenRun(GoldenOf(s), Retired(s, before)));
    } else {
      NotTakenWithoutRetirement(Run(s, before), c);
    }
  }

  lemma TakenUnfolds(n: Counts, e: Events, g: Machine, k: nat)
    ensures Measure(n, e).branchTaken == n.branchTaken + One(e.branchTaken)
    ensures GoldenTaken(g, k + 1) == GoldenTaken(g, k) + One(BranchHolds(GoldenRun(g, k)))
  {
    hide BranchHolds, GoldenRun, One;
  }

  /** In a covered run `branchTaken` counts the branches whose condition held. */
  lemma {:induction false} TakenCount(s: State, cs: seq<Choice>)
    requires Initial(s) && CoveredBelow(GoldenOf(s), Retired(s, cs))
    ensures CountsAfter(s, cs).branchTaken == GoldenTaken(GoldenOf(s), Retired(s, cs))
    decreases |cs|
  {
    hide Signals, EventsOf, BranchHolds, Run, Initial, GoldenOf, GoldenRun, CountsAfter, Retired, CoveredBelow,
      GoldenTaken, Measure;
    if cs == [] {
      StartCounts(s, BranchClass);
      NothingTaken(s);
    } else {
      var before, c := cs[..|cs| - 1], cs[|cs| - 1];
      assert before + [c] == cs;
      LastOfRun(s, before, c);
      CoveredBefore(s, before, c);
      CountsUnfold(s, cs);
      TakenCount(s, before);
      TakenStep(s, before, c);
      TakenUnfolds(CountsAfter(s, before), EventsOf(Run(s, before), c), GoldenOf(s), Retired(s, before));
    }
  }

  lemma NothingTaken(s: State)
    ensures CountsAfter(s, []).branchTaken == 0 && GoldenTaken(GoldenOf(s), 0) == 0
  {
    hide GoldenOf;
  }

  // ---------------------------------------------------------------- cycles

  /** A cycle that leaves the fetch unit waiting for the bus or a new instruction in the decoder. */
  predicate EndsFetching(s: State, c: Choice) {
    Step(s, c).cpu.ifu == IfuWaitIo || Step(s, c).cpu.decoded
  }

  /** A cycle that leaves an access in the load/store unit. */
  predicate EndsAccessing(s: State, c: Choice) { Step(s, c).cpu.lsu.state != Idle }

  /** A cycle in which the fetch pulse finds its line. */
  predicate PulseHits(s: State, c: Choice) { s.cpu.fetchReq && Icache.Hit(s.cpu.lines, s.cpu.pc) }

  /** A cycle in which the bus accepts a fetch. */
  predicate FetchAccepted(s: State, c: Choice) { s.fetch.Ready? && Step(s, c).fetch.Busy? }

  function Fetching(s: State, cs: seq<Choice>): nat {
    if cs == [] then 0
    else Fetching(s, cs[..|cs| - 1]) + One(EndsFetching(Run(s, cs[..|cs| - 1]), cs[|cs| - 1]))
  }

  function Accessing(s: State, cs: seq<Choice>): nat {
    if cs == [] then 0
    else Accessing(s, cs[..|cs| - 1]) + One(EndsAccessing(Run(s, cs[..|cs| - 1]), cs[|cs| - 1]))
  }

  function Hitting(s: State, cs: seq<Choice>): nat {
    if cs == [] then 0
    else Hitting(s, cs[..|cs| - 1]) + One(PulseHits(Run(s, cs[..|cs| - 1]), cs[|cs| - 1]))
  }

  function Fetched(s: State, cs: seq<Choice>): nat {
    if cs == [] then 0
    else Fetched(s, cs[..|cs| - 1]) + One(FetchAccepted(Run(s, cs[..|cs| - 1]), cs[|cs| - 1]))
  }

  lemma CycleEvents(s: State, c: Choice, p: Phase)
    requires At(s, p)
    ensures
      var e := EventsOf(s, c);
      && e.ifuWait == EndsFetching(s, c) && e.lsuWait == EndsAccessing(s, c) && e.icacheHit == PulseHits(s, c)
      && e.busFetch == FetchAccepted(s, c)
  {
    hide RtlDecode, AluResult, ReadPort, AccessOf, RegsAfter, PcAfter, Icache.Hit, Icache.Fill, Icache.Lookup,
      ExtendData, AlignData, UpperBits, BeatOf, WriteBeat, BusRead, Split, BranchTaken, RtlDecoded.IsMemory,
      RtlDecoded.IsLoad, RtlDecoded.IsStore, RtlDecoded.IsSystem, RtlDecoded.IsCalc, RtlDecoded.IsJump,
      RtlDecoded.IsBranch;
    TokenStep(s, c, p);
  }

  /** The wait counters, the hits and the bus fetches count these cycles, in every run and for every program. */
  lemma {:induction false} CycleCounts(s: State, cs: seq<Choice>)
    requires Initial(s)
    ensures
      var n := CountsAfter(s, cs);
      && n.ifuWait == Fetching(s, cs) && n.lsuWait == Accessing(s, cs) && n.icacheHits == Hitting(s, cs)
      && n.busFetches == Fetched(s, cs)
    decreases |cs|
  {
    hide At, NextPhase, EventsOf, Initial, Run, EndsFetching, EndsAccessing, PulseHits, FetchAccepted;
    if cs == [] {
    } else {
      var before := cs[..|cs| - 1];
      CycleCounts(s, before);
      InitialAt(s);
      TokenRun(s, Startup, before);
      CycleEvents(Run(s, before), cs[|cs| - 1], PhaseAfter(s, Startup, before));
    }
  }
}
