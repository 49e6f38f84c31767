/**
 * The control of all state machines together: one token passes from fetch to decode to the
 * load/store unit and back, for every instruction word and every choice of bus latencies.
 */
module Token {
  import opened Decode
  import opened Memory
  import opened Lsu
  import Icache
  import opened Ifu
  import opened Rf
  import opened Exu
  import opened Cpu
  import opened Soc

  /** Where the token is. */
  datatype Phase =
    | Startup    // first cycle after reset
    | FetchPulse // a fetch is requested
    | FetchWait  // the fetch is on the bus
    | Decoded    // an instruction has just been decoded
    | LsuFirst   // the first beat of an access is on the bus
    | LsuTurn    // the second beat is being requested
    | LsuSecond  // the second beat is on the bus

  predicate IsMem(s: State) { DecNow(s.cpu).IsMemory() }
  predicate IsSplit(s: State) { AccessNow(s.cpu).Misaligned() }

  /** Nothing is happening in the fetch unit and on its bus. */
  predicate FetchQuiet(s: State) {
    !s.cpu.fetchReq && s.cpu.ifu == IfuIdle && s.fetch.Ready?
  }

  /** Nothing is happening in the load/store unit and on its bus. */
  predicate DataQuiet(s: State) {
    s.cpu.lsu.state == Idle && !s.cpu.lsu.reqHeld && s.data.Ready?
  }

  /** The control registers and the bus slaves in each phase. */
  predicate At(s: State, p: Phase) {
    && s.cpu.isStart == p.Startup?
    && s.cpu.decoded == p.Decoded?
    && s.cpu.fetchReq == p.FetchPulse?
    && match p
       case Startup => s.cpu.exu == ExuReset && FetchQuiet(s) && DataQuiet(s)
       case FetchPulse =>
         && (s.cpu.exu == ExuStart || s.cpu.exu == ExuExecute)
         && s.cpu.ifu == IfuIdle && s.fetch.Ready? && DataQuiet(s)
       case FetchWait =>
         && s.cpu.exu == ExuStallIdu
         && s.cpu.ifu == IfuWaitIo && s.fetch.Busy? && s.fetch.req == s.cpu.pc && DataQuiet(s)
       case Decoded => s.cpu.exu == ExuStallIdu && FetchQuiet(s) && DataQuiet(s)
       case LsuFirst =>
         && s.cpu.exu == ExuStallLsu && FetchQuiet(s) && IsMem(s)
         && s.cpu.lsu.state == (if IsSplit(s) then WaitMisOne else WaitOne)
         && s.data.Busy? && s.data.req == BeatOf(AccessNow(s.cpu), false)
       case LsuTurn =>
         && s.cpu.exu == ExuStallLsu && FetchQuiet(s) && IsMem(s) && IsSplit(s)
         && s.cpu.lsu.state == WaitMisTwo && s.cpu.lsu.reqHeld && s.data.Ready?
       case LsuSecond =>
         && s.cpu.exu == ExuStallLsu && FetchQuiet(s) && IsMem(s) && IsSplit(s)
         && s.cpu.lsu.state == WaitMisTwo && !s.cpu.lsu.reqHeld
         && s.data.Busy? && s.data.req == BeatOf(AccessNow(s.cpu), true)
  }

  /** The cycle in which an instruction leaves the machine. */
  predicate Retires(s: State, c: Choice, p: Phase) {
    match p
    case Decoded => !IsMem(s)
    case LsuFirst => DataAnswers(s, c) && !IsSplit(s)
    case LsuSecond => DataAnswers(s, c)
    case _ => false
  }

  /** Where the token goes. */
  function NextPhase(s: State, c: Choice, p: Phase): Phase {
    match p
    case Startup => FetchPulse
    case FetchPulse => if Icache.Hit(s.cpu.lines, s.cpu.pc) then Decoded else FetchWait
    case FetchWait => if FetchAnswers(s, c) then Decoded else FetchWait
    case Decoded => if IsMem(s) then LsuFirst else FetchPulse
    case LsuFirst => if !DataAnswers(s, c) then LsuFirst else if IsSplit(s) then LsuTurn else FetchPulse
    case LsuTurn => LsuSecond
    case LsuSecond => if DataAnswers(s, c) then FetchPulse else LsuSecond
  }

  lemma TokenStep(s: State, c: Choice, p: Phase)
    requires At(s, p)
    ensures Signals(s, c).retire == Retires(s, c, p)
    ensures At(Step(s, c), NextPhase(s, c, p))
  {
    hide At, Signals, Step, Retires, NextPhase;
    if p.Startup? || p.FetchPulse? || p.FetchWait? {
      TokenFetches(s, c, p);
    } else if p.Decoded? || p.LsuFirst? {
      TokenDecoded(s, c, p);
    } else {
      TokenAccesses(s, c, p);
    }
  }

  lemma TokenFetches(s: State, c: Choice, p: Phase)
    requires At(s, p) && (p.Startup? || p.FetchPulse? || p.FetchWait?)
    ensures Signals(s, c).retire == Retires(s, c, p)
    ensures At(Step(s, c), NextPhase(s, c, p))
  {
    hide RtlDecode, AccessNow, RegsAfter, PcAfter, Icache.Hit, Icache.Fill, Icache.Lookup, ExtendData, AlignData,
      UpperBits, BeatOf, WriteBeat, BusRead, Split, RtlDecoded.IsMemory;
  }

  lemma TokenDecoded(s: State, c: Choice, p: Phase)
    requires At(s, p) && (p.Decoded? || p.LsuFirst?)
    ensures Signals(s, c).retire == Retires(s, c, p)
    ensures At(Step(s, c), NextPhase(s, c, p))
  {
    hide RtlDecode, AluResult, ReadPort, AccessOf, RegsAfter, PcAfter, Icache.Hit, Icache.Fill, Icache.Lookup,
      ExtendData, AlignData, UpperBits, BeatOf, WriteBeat, BusRead, Split, RtlDecoded.IsMemory;
  }

  lemma TokenAccesses(s: State, c: Choice, p: Phase)
    requires At(s, p) && (p.LsuTurn? || p.LsuSecond?)
    ensures Signals(s, c).retire == Retires(s, c, p)
    ensures At(Step(s, c), NextPhase(s, c, p))
  {
    hide RtlDecode, AluResult, ReadPort, AccessOf, RegsAfter, PcAfter, Icache.Hit, Icache.Fill, Icache.Lookup,
      ExtendData, AlignData, UpperBits, BeatOf, WriteBeat, BusRead, Split, RtlDecoded.IsMemory;
  }

  // ---------------------------------------------------------------- whole runs

  /** Number of instructions retired in the cycles `cs`. */
  function Retired(s: State, cs: seq<Choice>): nat {
    if cs == [] then 0
    else
      var before := cs[..|cs| - 1];
      Retired(s, before) + (if Signals(Run(s, before), cs[|cs| - 1]).retire then 1 else 0)
  }

  /** The phase after the cycles `cs`, the token starting at `p`. */
  function PhaseAfter(s: State, p: Phase, cs: seq<Choice>): Phase {
    if cs == [] then p
    else
      var before := cs[..|cs| - 1];
      NextPhase(Run(s, before), cs[|cs| - 1], PhaseAfter(s, p, before))
  }

  /** In every run the token is where `PhaseAfter` says; in particular it is in one place only. */
  lemma {:induction false} TokenRun(s: State, p: Phase, cs: seq<Choice>)
    requires At(s, p)
    ensures At(Run(s, cs), PhaseAfter(s, p, cs))
    decreases |cs|
  {
    hide At, Step, NextPhase, Signals, Retires;
    if cs == [] {
    } else {
      TokenRun(s, p, cs[..|cs| - 1]);
      TokenStep(Run(s, cs[..|cs| - 1]), cs[|cs| - 1], PhaseAfter(s, p, cs[..|cs| - 1]));
    }
  }

  lemma InitialAt(s: State)
    requires Initial(s)
    ensures At(s, Startup)
  {
  }

  // ---------------------------------------------------------------- what it says about the registers

  predicate Fetching(s: CpuState) { s.fetchReq || s.ifu == IfuWaitIo }
  predicate Accessing(s: CpuState) { s.exu == ExuStallLsu && s.lsu.state != Idle }

  /** After the first cycle exactly one of the fetch, the decoder's pulse and the data access is active. */
  lemma ExactlyOneToken(s: State, cs: seq<Choice>)
    requires Initial(s) && cs != []
    ensures
      var r := Run(s, cs).cpu;
      && (Fetching(r) || r.decoded || Accessing(r))
      && !(Fetching(r) && r.decoded) && !(Fetching(r) && Accessing(r)) && !(r.decoded && Accessing(r))
  {
    hide NextPhase, Signals, Run, Initial, IsMem, IsSplit, BeatOf;
    InitialAt(s);
    TokenRun(s, Startup, cs);
    NotStartup(s, cs);
  }

  lemma NotStartup(s: State, cs: seq<Choice>)
    requires cs != []
    ensures !PhaseAfter(s, Startup, cs).Startup?
  {
    hide Run, Icache.Hit, FetchAnswers, DataAnswers, IsMem, IsSplit;
  }

  /** Two of the four states of the fetch unit are never reached. */
  lemma FetchStatesReached(s: State, cs: seq<Choice>)
    requires Initial(s)
    ensures Run(s, cs).cpu.ifu == IfuIdle || Run(s, cs).cpu.ifu == IfuWaitIo
  {
    hide NextPhase, Signals, Run, Initial, IsMem, IsSplit, BeatOf;
    InitialAt(s);
    TokenRun(s, Startup, cs);
  }

  /**
   * The pc and the request stand still until the fetch is answered, the instruction and the access until it
   * retires.
   */
  lemma TransactionIsStable(s: State, cs: seq<Choice>, c: Choice)
    requires Initial(s)
    ensures
      var r, r' := Run(s, cs).cpu, Step(Run(s, cs), c).cpu;
      && (!Signals(Run(s, cs), c).retire ==> r'.pc == r.pc && r'.regs == r.regs)
      && ((r.decoded || Accessing(r)) && !Signals(Run(s, cs), c).retire
          ==> r'.inst == r.inst && AccessNow(r') == AccessNow(r))
  {
    hide NextPhase, Initial, Run, At, Signals, Step, AccessNow, PhaseAfter;
    InitialAt(s);
    TokenRun(s, Startup, cs);
    if !Signals(Run(s, cs), c).retire {
      StableCycle(Run(s, cs), c, PhaseAfter(s, Startup, cs));
    }
  }

  lemma StableCycle(s: State, c: Choice, p: Phase)
    requires At(s, p) && !Signals(s, c).retire
    ensures
      var r, r' := s.cpu, Step(s, c).cpu;
      && r'.pc == r.pc && r'.regs == r.regs
      && (r.decoded || Accessing(r) ==> r'.inst == r.inst && AccessNow(r') == AccessNow(r))
  {
    hide RtlDecode, AluResult, ReadPort, AccessOf, RegsAfter, PcAfter, Icache.Hit, Icache.Fill, Icache.Lookup,
      ExtendData, AlignData, UpperBits, BeatOf, WriteBeat, BusRead, Split, RtlDecoded.IsMemory;
  }
}
