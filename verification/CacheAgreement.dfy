/**
 * The instruction cache over arbitrary runs: for every program, including ones outside the
 * refinement, a valid line is the memory word of its last fill.
 */
module CacheAgreement {
  import opened Words
  import opened Decode
  import opened Memory
  import opened Icache
  import opened Lsu
  import opened Rf
  import opened Exu
  import opened Cpu
  import opened Soc
  import opened Token
  import Refinement

  /** The last word of a region: an unaligned address inside it is past the end of the region. */
  predicate AtRegionEnd(a: Word) { a == FLASH_END - 4 || a == MEM_END - 4 }

  /** The bus reads the word around this address: it is aligned, or that word is not the last one of a region. */
  predicate ReadsItsWord(pc: Word) { pc == WordBase(pc) || !AtRegionEnd(WordBase(pc)) }

  /** The line at `ix` is written in this cycle. */
  predicate FillsLine(s: State, c: Choice, ix: bv8) {
    Signals(s, c).fetch.fill && Index(s.cpu.pc) == ix
  }

  /** A store beat to the word at `a` takes effect in this cycle. */
  predicate StoresTo(s: State, c: Choice, a: Word) {
    DataAnswers(s, c) && s.data.req.wen && WordBase(s.data.req.addr) == a
  }

  /** The number of cycles up to and including the last fill of the line at `ix`. */
  function LastFill(s: State, cs: seq<Choice>, ix: bv8): (n: nat)
    ensures n <= |cs|
  {
    if cs == [] then 0
    else
      var before := cs[..|cs| - 1];
      if FillsLine(Run(s, before), cs[|cs| - 1], ix) then |cs| else LastFill(s, before, ix)
  }

  /** The pc in the cycle of the last fill of the line at `ix`. */
  function FillPc(s: State, cs: seq<Choice>, ix: bv8): Word
    requires LastFill(s, cs, ix) > 0
  {
    Run(s, cs[..LastFill(s, cs, ix) - 1]).cpu.pc
  }

  /** No store to the word at `a` takes effect after the first `n` cycles. */
  ghost predicate Untouched(s: State, cs: seq<Choice>, n: nat, a: Word) {
    forall i :: n <= i < |cs| ==> !StoresTo(Run(s, cs[..i]), cs[i], a)
  }

  // ---------------------------------------------------------------- one cycle

  /** What the bus reads at any address, mapped or not. */
  lemma BusReadExact(m: Mem, pc: Word)
    ensures BusRead(m, pc) == if ReadsItsWord(pc) then BusRead(m, WordBase(pc)) else 0
  {
    hide WordAt, WordBase, InFlash, InRam, FlashOffset, RamOffset, AtRegionEnd;
    OffsetsOfWordBase(pc);
    WordBaseTwice(pc);
    OffsetsOfWordBase(WordBase(pc));
    if !AtRegionEnd(WordBase(pc)) {
      SameRegion(pc);
    } else if pc != WordBase(pc) {
      RegionEndUnaligned(pc);
    }
  }

  lemma SameRegion(pc: Word)
    requires !AtRegionEnd(WordBase(pc))
    ensures InFlash(pc) == InFlash(WordBase(pc)) && InRam(pc) == InRam(WordBase(pc))
  {
  }

  lemma RegionEndUnaligned(pc: Word)
    requires AtRegionEnd(WordBase(pc)) && pc != WordBase(pc)
    ensures !InFlash(pc) && !InRam(pc)
  {
  }

  /** Only the answer to a fetch writes a line: the word the bus read, while memory stands still. */
  lemma LinesStep(s: State, c: Choice, p: Phase)
    requires At(s, p)
    ensures Signals(s, c).fetch.fill == (p.FetchWait? && FetchAnswers(s, c))
    ensures Step(s, c).cpu.lines ==
            if Signals(s, c).fetch.fill then Fill(s.cpu.lines, s.cpu.pc, BusRead(s.mem, s.cpu.pc)) else s.cpu.lines
    ensures Signals(s, c).fetch.fill ==> Step(s, c).mem == s.mem
    ensures Signals(s, c).fetch.respValid ==>
              Signals(s, c).fetched == if Signals(s, c).fetch.fill then BusRead(s.mem, s.cpu.pc)
                  else Lookup(s.cpu.lines, s.cpu.pc).data
    ensures Signals(s, c).fetch.respValid && !Signals(s, c).fetch.fill ==> Hit(s.cpu.lines, s.cpu.pc) && p.FetchPulse?
    ensures Signals(s, c).fetch.respValid
        <==> (p.FetchPulse? && Hit(s.cpu.lines, s.cpu.pc)) || (p.FetchWait? && FetchAnswers(s, c))
    ensures Step(s, c).cpu.inst == if Signals(s, c).fetch.respValid then Signals(s, c).fetched else s.cpu.inst
  {
    hide RtlDecode, AluResult, ReadPort, AccessNow, RegsAfter, PcAfter, Hit, Fill, Lookup, ExtendData, AlignData,
      UpperBits, BeatOf, WriteBeat, BusRead, Split, RtlDecoded.IsMemory;
  }

  lemma MemStep(s: State, c: Choice, x: Word)
    requires !StoresTo(s, c, WordBase(x))
    ensures BusRead(Step(s, c).mem, x) == BusRead(s.mem, x)
  {
    hide Next, Observe, BusRead, BusWrite, WordBase;
    if DataAnswers(s, c) && s.data.req.wen {
      Refinement.BeatElsewhere(s.mem, s.data.req, x);
    }
  }

  // ---------------------------------------------------------------- whole runs

  lemma {:induction false} MemoryUntouched(s: State, cs: seq<Choice>, n: nat, x: Word)
    requires n <= |cs| && Untouched(s, cs, n, WordBase(x))
    ensures BusRead(Run(s, cs).mem, x) == BusRead(Run(s, cs[..n]).mem, x)
    decreases |cs|
  {
    hide StoresTo, Step, BusRead, WordBase;
    if n == |cs| {
      assert cs[..n] == cs;
    } else {
      var before := cs[..|cs| - 1];
      forall i | n <= i < |before| ensures !StoresTo(Run(s, before[..i]), before[i], WordBase(x)) {
        assert before[..i] == cs[..i];
      }
      MemoryUntouched(s, before, n, x);
      assert before[..n] == cs[..n];
      MemStep(Run(s, before), cs[|cs| - 1], x);
    }
  }

  /** The line at `ix` after a cycle that fills it or not. */
  lemma LineStep(s: State, c: Choice, p: Phase, ix: bv8)
    requires At(s, p)
    ensures
      var line := Step(s, c).cpu.lines[ix as int];
      if FillsLine(s, c, ix)
      then line.valid && line.data == BusRead(s.mem, s.cpu.pc) && LineAddr(line.tag, ix) == WordBase(s.cpu.pc)
          && Step(s, c).mem == s.mem
      else line == s.cpu.lines[ix as int]
  {
    hide Signals, Step, At, BusRead, WordBase, LineAddr, Fill, Index;
    LinesStep(s, c, p);
    if Index(s.cpu.pc) == ix {
      FilledLine(s.cpu.lines, s.cpu.pc, BusRead(s.mem, s.cpu.pc));
    } else {
      OtherLine(s.cpu.lines, s.cpu.pc, BusRead(s.mem, s.cpu.pc), ix);
    }
  }

  lemma FilledLine(lines: Lines, pc: Word, data: Word)
    ensures
      var line := Fill(lines, pc, data)[Index(pc) as int];
      line.valid && line.data == data && LineAddr(line.tag, Index(pc)) == WordBase(pc)
  {
    hide WordBase, LineAddr, Tag, Index;
    LineAddrOf(pc);
  }

  lemma OtherLine(lines: Lines, pc: Word, data: Word, ix: bv8)
    requires Index(pc) != ix
    ensures Fill(lines, pc, data)[ix as int] == lines[ix as int]
  {
    hide Tag, Index;
    if ix as int == Index(pc) as int {
      IndexInjective(ix, Index(pc));
    }
  }

  /**
   * In every run a valid line was filled and holds what the bus read at the pc of its last fill, in the word
   * of its address.
   */
  lemma {:induction false} LineHoldsFilledWord(s: State, cs: seq<Choice>, ix: bv8)
    requires Initial(s) && Run(s, cs).cpu.lines[ix as int].valid
    ensures
      var line, n := Run(s, cs).cpu.lines[ix as int], LastFill(s, cs, ix);
      && n > 0 && LineAddr(line.tag, ix) == WordBase(FillPc(s, cs, ix))
      && line.data == BusRead(Run(s, cs[..n]).mem, FillPc(s, cs, ix))
    decreases |cs|
  {
    hide At, Step, NextPhase, Signals, BusRead, WordBase, LineAddr, FillsLine;
    if cs == [] {
      NoValidLine(s, ix);
      assert false;
    } else {
      var before, c := cs[..|cs| - 1], cs[|cs| - 1];
      InitialAt(s);
      TokenRun(s, Startup, before);
      LineStep(Run(s, before), c, PhaseAfter(s, Startup, before), ix);
      if FillsLine(Run(s, before), c, ix) {
        assert cs[..|cs|] == cs;
      } else {
        LineHoldsFilledWord(s, before, ix);
        var n := LastFill(s, before, ix);
        assert before[..n] == cs[..n] && before[..n - 1] == cs[..n - 1];
      }
    }
  }

  lemma NoValidLine(s: State, ix: bv8)
    requires Initial(s)
    ensures !s.cpu.lines[ix as int].valid
  {
  }

  /** In every run a line is valid exactly if it was ever filled. */
  lemma {:induction false} ValidIffFilled(s: State, cs: seq<Choice>, ix: bv8)
    requires Initial(s)
    ensures Run(s, cs).cpu.lines[ix as int].valid <==> LastFill(s, cs, ix) > 0
    decreases |cs|
  {
    hide At, Step, NextPhase, Signals, BusRead, WordBase, LineAddr, FillsLine;
    if cs == [] {
      NoValidLine(s, ix);
    } else {
      var before, c := cs[..|cs| - 1], cs[|cs| - 1];
      ValidIffFilled(s, before, ix);
      InitialAt(s);
      TokenRun(s, Startup, before);
      LineStep(Run(s, before), c, PhaseAfter(s, Startup, before), ix);
    }
  }

  /** In every run the pc hits exactly if its line was filled and its last fill was for the same word. */
  lemma HitIffLastFilled(s: State, cs: seq<Choice>)
    requires Initial(s)
    ensures
      var pc := Run(s, cs).cpu.pc;
      Hit(Run(s, cs).cpu.lines, pc)
      <==> LastFill(s, cs, Index(pc)) > 0 && WordBase(FillPc(s, cs, Index(pc))) == WordBase(pc)
  {
    hide BusRead, WordBase, LineAddr, Tag, Index, LastFill, FillPc, Run, Initial, Hit;
    var r, ix := Run(s, cs), Index(Run(s, cs).cpu.pc);
    HitIsSameWord(r.cpu.lines, r.cpu.pc);
    ValidIffFilled(s, cs, ix);
    if r.cpu.lines[ix as int].valid {
      LineHoldsFilledWord(s, cs, ix);
    }
  }
}
