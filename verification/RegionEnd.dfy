/**
 * Exactly which fetches deliver the word at the pc, for arbitrary programs. A miss through an
 * unaligned pc in the last word of flash or RAM fills the cache with zero. That zero is never
 * delivered by a hit: the processor runs through zeros past the end of the region until it has
 * replaced the line.
 */
module RegionEnd {
  import opened Words
  import opened Alu
  import opened Decode
  import opened Memory
  import opened Icache
  import opened Lsu
  import opened Ifu
  import opened Rf
  import opened Exu
  import opened Cpu
  import opened Soc
  import opened Token
  import opened CacheAgreement
  import opened Golden

  // ---------------------------------------------------------------- past the end of a region

  /** The index of the last line, where the last words of both regions go. */
  const LAST: bv8 := 255

  /** `pc` lies at most 255 instructions behind `from`. */
  predicate Behind(from: Word, pc: Word) {
    (pc - from) & 3 == 0 && pc - from <= 1020
  }

  /** `pc` lies at least one and at most 256 instructions behind `from`. */
  predicate StrictlyBehind(from: Word, pc: Word) {
    (pc - from) & 3 == 0 && 4 <= pc - from <= 1024
  }

  lemma StartsBehind(from: Word)
    ensures Behind(from, from)
  {
  }

  lemma MovesOn(from: Word, pc: Word)
    requires Behind(from, pc)
    ensures StrictlyBehind(from, Following(pc))
  {
  }

  lemma NotYetAtTheEnd(from: Word, pc: Word)
    requires AtRegionEnd(WordBase(from)) && StrictlyBehind(from, pc) && Index(pc) != LAST
    ensures Behind(from, pc)
  {
  }

  /** The words behind a region are not mapped, at any alignment. */
  lemma NothingBehind(from: Word, pc: Word, q: Word)
    requires AtRegionEnd(WordBase(from)) && StrictlyBehind(from, pc) && WordBase(q) == WordBase(pc)
    ensures !Mapped(q) && WordBase(q) != WordBase(from)
  {
  }

  lemma UnmappedReadsZero(m: Mem, q: Word)
    requires !Mapped(q)
    ensures BusRead(m, q) == 0
  {
  }

  lemma ZeroIsNoInstruction()
    ensures !RtlDecode(0).IsMemory() && !RtlDecode(0).IsJump() && !RtlDecode(0).IsBranch()
  {
  }

  /** A retiring zero only advances the pc. */
  lemma ZeroAdvances(s: CpuState)
    requires s.inst == 0
    ensures PcAfter(s) == Following(s.pc) && !DecNow(s).IsMemory()
  {
    hide RtlDecode, AluResult, ReadPort, RtlCompare, RtlDecoded.IsMemory, RtlDecoded.IsJump, RtlDecoded.IsBranch;
    ZeroIsNoInstruction();
  }

  // ---------------------------------------------------------------- the run past the end

  /** The last line holds the zero of an unaligned fetch at the end of a region. */
  ghost predicate HoldsZeroFill(s: State, cs: seq<Choice>) {
    && Run(s, cs).cpu.lines[LAST as int].valid
    && LastFill(s, cs, LAST) > 0
    && !ReadsItsWord(FillPc(s, cs, LAST))
  }

  /** Where the processor is while it does. */
  predicate Passing(s: State, p: Phase, from: Word) {
    match p
    case Decoded => s.cpu.inst == 0 && Behind(from, s.cpu.pc)
    case FetchPulse => StrictlyBehind(from, s.cpu.pc)
    case FetchWait => StrictlyBehind(from, s.cpu.pc)
    case _ => false
  }

  /** Behind the end of a region every word delivered is zero. */
  lemma DeliversZero(s: State, cs: seq<Choice>, c: Choice, from: Word)
    requires Initial(s) && AtRegionEnd(WordBase(from)) && StrictlyBehind(from, Run(s, cs).cpu.pc)
    requires Signals(Run(s, cs), c).fetch.respValid
    ensures Signals(Run(s, cs), c).fetched == 0
  {
    hide At, Step, NextPhase, Signals, BusRead, WordBase, LineAddr, Tag, Index, AtRegionEnd, LastFill, FillPc, Run,
      Mapped, StrictlyBehind;
    var r := Run(s, cs);
    InitialAt(s);
    TokenRun(s, Startup, cs);
    LinesStep(r, c, PhaseAfter(s, Startup, cs));
    if Signals(r, c).fetch.fill {
      NothingBehind(from, r.cpu.pc, r.cpu.pc);
      UnmappedReadsZero(r.mem, r.cpu.pc);
    } else {
      var ix := Index(r.cpu.pc);
      LineHoldsFilledWord(s, cs, ix);
      LineAddrOf(r.cpu.pc);
      NothingBehind(from, r.cpu.pc, FillPc(s, cs, ix));
      UnmappedReadsZero(Run(s, cs[..LastFill(s, cs, ix)]).mem, FillPc(s, cs, ix));
    }
  }

  /** The cycle that fills the last line with zero. */
  lemma PassingStarts(s: State, c: Choice, p: Phase)
    requires At(s, p) && Signals(s, c).fetch.fill && !ReadsItsWord(s.cpu.pc)
    ensures Passing(Step(s, c), NextPhase(s, c, p), s.cpu.pc)
  {
    hide Signals, Step, At, BusRead, WordBase, AtRegionEnd, Behind, Hit, Fill, Lookup, IsMem, IsSplit;
    TokenStep(s, c, p);
    LinesStep(s, c, p);
    BusReadExact(s.mem, s.cpu.pc);
    StartsBehind(s.cpu.pc);
    PcStands(s, c, p);
  }

  lemma PcStands(s: State, c: Choice, p: Phase)
    requires At(s, p)
    ensures Step(s, c).cpu.pc == if Retires(s, c, p) then PcAfter(s.cpu) else s.cpu.pc
  {
    hide At, RegsAfter, PcAfter, LsuNext, AccessNow, Fill, Hit, Lookup, MemAfter, IfuNext, Retires;
    RetireWire(s, c, p);
  }

  lemma RetireWire(s: State, c: Choice, p: Phase)
    requires At(s, p)
    ensures Signals(s, c).retire == Retires(s, c, p)
  {
    hide At, Signals, Retires;
    TokenStep(s, c, p);
  }

  /** A zero that retires. */
  lemma ZeroRetires(s: State, c: Choice, from: Word)
    requires At(s, Decoded) && s.cpu.inst == 0 && Behind(from, s.cpu.pc)
    ensures NextPhase(s, c, Decoded) == FetchPulse && StrictlyBehind(from, Step(s, c).cpu.pc)
  {
    hide At, Step, Signals, DecNow, Behind, StrictlyBehind, Following, FetchAnswers, DataAnswers, IsSplit, Hit;
    PcStands(s, c, Decoded);
    ZeroAdvances(s.cpu);
    MovesOn(from, s.cpu.pc);
  }

  /** A cycle of a fetch that is not answered. */
  lemma FetchGoesOn(s: State, c: Choice, p: Phase)
    requires At(s, p) && (p.FetchPulse? || p.FetchWait?) && !Signals(s, c).fetch.respValid
    ensures NextPhase(s, c, p) == FetchWait && Step(s, c).cpu.pc == s.cpu.pc
  {
    hide At, Step, Signals, DecNow, FetchAnswers, DataAnswers, IsSplit, Hit;
    PcStands(s, c, p);
    LinesStep(s, c, p);
  }

  lemma FetchIsAnswered(s: State, c: Choice, p: Phase)
    requires At(s, p) && Signals(s, c).fetch.respValid
    ensures p.FetchPulse? || p.FetchWait?
    ensures NextPhase(s, c, p) == Decoded && Step(s, c).cpu.pc == s.cpu.pc
    ensures Step(s, c).cpu.inst == Signals(s, c).fetched
    ensures Index(s.cpu.pc) == LAST && !FillsLine(s, c, LAST) ==> Hit(s.cpu.lines, s.cpu.pc)
  {
    hide At, Step, Signals, DecNow, FetchAnswers, DataAnswers, IsSplit, Hit, Index;
    PcStands(s, c, p);
    LinesStep(s, c, p);
  }

  /** A cycle that leaves the last line alone. */
  lemma PassingGoesOn(s: State, cs: seq<Choice>, c: Choice, from: Word)
    requires Initial(s) && AtRegionEnd(WordBase(from))
    requires
      var r, p := Run(s, cs), PhaseAfter(s, Startup, cs);
      && At(r, p) && Passing(r, p, from) && !FillsLine(r, c, LAST)
      && (Index(r.cpu.pc) == LAST && (p.FetchPulse? || p.FetchWait?) ==> !Hit(r.cpu.lines, r.cpu.pc))
    ensures
      var r, p := Run(s, cs), PhaseAfter(s, Startup, cs);
      Passing(Step(r, c), NextPhase(r, c, p), from)
  {
    hide At, Step, Signals, NextPhase, WordBase, Index, AtRegionEnd, Run, Hit, Behind, StrictlyBehind, PhaseAfter,
      FillsLine;
    var r, p := Run(s, cs), PhaseAfter(s, Startup, cs);
    if p.Decoded? {
      ZeroRetires(r, c, from);
    } else if Signals(r, c).fetch.respValid {
      FetchIsAnswered(r, c, p);
      DeliversZero(s, cs, c, from);
      NotYetAtTheEnd(from, r.cpu.pc);
    } else {
      FetchGoesOn(r, c, p);
    }
  }

  /** Behind the end of a region the last line does not hit until it was filled again. */
  lemma NoHitBehind(s: State, cs: seq<Choice>)
    requires Initial(s) && HoldsZeroFill(s, cs)
    requires StrictlyBehind(FillPc(s, cs, LAST), Run(s, cs).cpu.pc) && Index(Run(s, cs).cpu.pc) == LAST
    ensures !Hit(Run(s, cs).cpu.lines, Run(s, cs).cpu.pc)
  {
    hide BusRead, WordBase, LineAddr, Tag, Index, AtRegionEnd, LastFill, FillPc, Run, StrictlyBehind;
    var r := Run(s, cs);
    if Hit(r.cpu.lines, r.cpu.pc) {
      LineHoldsFilledWord(s, cs, LAST);
      LineAddrOf(r.cpu.pc);
      NothingBehind(FillPc(s, cs, LAST), r.cpu.pc, r.cpu.pc);
    }
  }

  /** In every run, while the last line holds such a zero the processor is on its way past the end. */
  lemma {:induction false} RunPasses(s: State, cs: seq<Choice>)
    requires Initial(s) && HoldsZeroFill(s, cs)
    ensures Passing(Run(s, cs), PhaseAfter(s, Startup, cs), FillPc(s, cs, LAST))
    decreases |cs|
  {
    hide At, Step, NextPhase, Signals, Passing, BusRead, ReadsItsWord, WordBase, LineAddr, FillsLine, Index, Hit,
      AtRegionEnd, StrictlyBehind;
    if cs == [] {
      assert false;
    } else {
      var before, c := cs[..|cs| - 1], cs[|cs| - 1];
      var r, p := Run(s, before), PhaseAfter(s, Startup, before);
      InitialAt(s);
      TokenRun(s, Startup, before);
      if FillsLine(r, c, LAST) {
        FillsNow(r, c, LAST);
        PassingStarts(r, c, p);
      } else {
        LineStep(r, c, p, LAST);
        var n := LastFill(s, before, LAST);
        assert before[..n - 1] == cs[..n - 1];
        RunPasses(s, before);
        EndOfRegion(FillPc(s, before, LAST));
        if p.FetchPulse? || p.FetchWait? {
          PassingFetch(r, p, FillPc(s, before, LAST));
          if Index(r.cpu.pc) == LAST {
            NoHitBehind(s, before);
          }
        }
        PassingGoesOn(s, before, c, FillPc(s, before, LAST));
      }
    }
  }

  lemma PassingFetch(s: State, p: Phase, from: Word)
    requires Passing(s, p, from) && (p.FetchPulse? || p.FetchWait?)
    ensures StrictlyBehind(from, s.cpu.pc)
  {
  }

  lemma EndOfRegion(pc: Word)
    requires !ReadsItsWord(pc)
    ensures AtRegionEnd(WordBase(pc))
  {
  }

  lemma FillsNow(s: State, c: Choice, ix: bv8)
    requires FillsLine(s, c, ix)
    ensures Signals(s, c).fetch.fill && Index(s.cpu.pc) == ix
  {
  }

  // ---------------------------------------------------------------- what every fetch delivers

  lemma OtherLinesAreWhole(tag: bv22, ix: bv8)
    requires ix != LAST
    ensures !AtRegionEnd(LineAddr(tag, ix))
  {
  }

  /** A hit never meets the zero of an unaligned fetch. */
  lemma HitLineIsWhole(s: State, cs: seq<Choice>)
    requires Initial(s) && PhaseAfter(s, Startup, cs).FetchPulse? && Hit(Run(s, cs).cpu.lines, Run(s, cs).cpu.pc)
    ensures
      var ix := Index(Run(s, cs).cpu.pc);
      && LastFill(s, cs, ix) > 0 && WordBase(FillPc(s, cs, ix)) == WordBase(Run(s, cs).cpu.pc)
      && ReadsItsWord(FillPc(s, cs, ix))
  {
    hide BusRead, WordBase, LineAddr, Tag, Index, AtRegionEnd, LastFill, FillPc, Run, StrictlyBehind, Behind,
      PhaseAfter;
    var r, ix := Run(s, cs), Index(Run(s, cs).cpu.pc);
    LineHoldsFilledWord(s, cs, ix);
    LineAddrOf(r.cpu.pc);
    if ix != LAST {
      OtherLinesAreWhole(r.cpu.lines[ix as int].tag, ix);
    } else if !ReadsItsWord(FillPc(s, cs, ix)) {
      RunPasses(s, cs);
      NoHitBehind(s, cs);
    }
  }

  /**
   * What the fetch unit delivers, in every run and for every program. A hit delivers the memory
   * word at the pc as of the last fill of its line. A miss delivers the current word if and only
   * if the pc is aligned or outside the last word of a region, or that word is zero anyway. So a
   * hit delivers the current word if and only if memory holds there what it held at the last fill;
   * if the word has not been stored to since, it does.
   */
  lemma FetchDelivers(s: State, cs: seq<Choice>, c: Choice)
    requires Initial(s) && Signals(Run(s, cs), c).fetch.respValid
    ensures
      var r := Run(s, cs);
      var w, a, n := Signals(r, c), WordBase(r.cpu.pc), LastFill(s, cs, Index(r.cpu.pc));
      && (!w.fetch.fill ==> w.fetched == BusRead(Run(s, cs[..n]).mem, a))
      && (w.fetch.fill ==> (w.fetched == BusRead(r.mem, a) <==> ReadsItsWord(r.cpu.pc) || BusRead(r.mem, a) == 0))
      && (!w.fetch.fill ==>
            (w.fetched == BusRead(r.mem, a) <==> BusRead(Run(s, cs[..n]).mem, a) == BusRead(r.mem, a)))
      && (Untouched(s, cs, n, a) ==>
            (w.fetched == BusRead(r.mem, a) <==> !w.fetch.fill || ReadsItsWord(r.cpu.pc) || BusRead(r.mem, a) == 0))
  {
    hide At, Step, NextPhase, Signals, BusRead, WordBase, LineAddr, Tag, Index, ReadsItsWord, Untouched, LastFill,
      FillPc, Run, PhaseAfter;
    var r, ix := Run(s, cs), Index(Run(s, cs).cpu.pc);
    var n := LastFill(s, cs, ix);
    InitialAt(s);
    TokenRun(s, Startup, cs);
    LinesStep(r, c, PhaseAfter(s, Startup, cs));
    BusReadExact(r.mem, r.cpu.pc);
    if !Signals(r, c).fetch.fill {
      LineHoldsFilledWord(s, cs, ix);
      HitLineIsWhole(s, cs);
      BusReadExact(Run(s, cs[..n]).mem, FillPc(s, cs, ix));
      WordBaseTwice(r.cpu.pc);
      if Untouched(s, cs, n, WordBase(r.cpu.pc)) {
        MemoryUntouched(s, cs, n, WordBase(r.cpu.pc));
      }
    }
  }
}
