/** Every instruction retires within a bound that the bus latencies determine. */
module Progress {
  import opened Arithmetic
  import opened Decode
  import opened Memory
  import opened Lsu
  import Icache
  import opened Rf
  import opened Exu
  import opened Cpu
  import opened Soc
  import opened Token

  /** Replies come at most `f` cycles after an accepted fetch and `l` cycles after an accepted data beat. */
  predicate Timely(s: State, c: Choice, f: nat, l: nat) {
    && (s.fetch.Busy? && s.fetch.age + 1 >= f ==> c.fetchReply)
    && (s.data.Busy? && s.data.age + 1 >= l ==> c.dataReply)
  }

  /** No slave has been busy for longer than it may. */
  predicate OnTime(s: State, f: nat, l: nat) {
    && (s.fetch.Busy? ==> s.fetch.age < f)
    && (s.data.Busy? ==> s.data.age < l)
  }

  predicate AllTimely(s: State, cs: seq<Choice>, f: nat, l: nat) {
    cs == [] || (AllTimely(s, cs[..|cs| - 1], f, l) && Timely(Run(s, cs[..|cs| - 1]), cs[|cs| - 1], f, l))
  }

  /** At most this many cycles pass up to and including the one that retires. */
  function Rank(s: State, p: Phase, f: nat, l: nat): int {
    match p
    case Startup => f + 2 * l + 4
    case FetchPulse => f + 2 * l + 3
    case FetchWait => f + 2 * l + 2 - (if s.fetch.Busy? then s.fetch.age else 0)
    case Decoded => if !IsMem(s) then 1 else if IsSplit(s) then 2 * l + 2 else l + 1
    case LsuFirst => (if IsSplit(s) then 2 * l + 1 else l) - (if s.data.Busy? then s.data.age else 0)
    case LsuTurn => l + 1
    case LsuSecond => l - (if s.data.Busy? then s.data.age else 0)
  }

  /** A cycle that does not retire lowers the rank. */
  lemma RankDecreases(s: State, c: Choice, p: Phase, f: nat, l: nat)
    requires f > 0 && l > 0
    requires At(s, p) && OnTime(s, f, l) && Timely(s, c, f, l) && !Signals(s, c).retire
    ensures 0 < Rank(Step(s, c), NextPhase(s, c, p), f, l) < Rank(s, p, f, l)
    ensures OnTime(Step(s, c), f, l)
  {
    hide RtlDecode, AluResult, ReadPort, AccessOf, RegsAfter, PcAfter, Icache.Hit, Icache.Fill, Icache.Lookup,
      ExtendData, AlignData, UpperBits, BeatOf, WriteBeat, BusRead, Split, RtlDecoded.IsMemory;
    TokenStep(s, c, p);
  }

  lemma RankPositive(s: State, p: Phase, f: nat, l: nat)
    requires f > 0 && l > 0 && At(s, p) && OnTime(s, f, l)
    ensures 0 < Rank(s, p, f, l)
  {
    hide BeatOf, IsMem, IsSplit;
  }

  lemma RetirementOnTime(s: State, c: Choice, p: Phase, f: nat, l: nat)
    requires At(s, p) && OnTime(s, f, l) && Timely(s, c, f, l) && Signals(s, c).retire
    ensures OnTime(Step(s, c), f, l) && NextPhase(s, c, p) == FetchPulse
  {
    hide RtlDecode, AluResult, ReadPort, AccessOf, RegsAfter, PcAfter, Icache.Hit, Icache.Fill, Icache.Lookup,
      ExtendData, AlignData, UpperBits, BeatOf, WriteBeat, BusRead, Split, RtlDecoded.IsMemory;
    TokenStep(s, c, p);
  }

  /** The longest time from one retirement to the next. */
  function Period(f: nat, l: nat): nat { f + 2 * l + 3 }

  /** The cycles of a run are paid for by its retirements, one period each, and by the drop in rank. */
  lemma {:induction false} RunIsPaidFor(s: State, p: Phase, cs: seq<Choice>, f: nat, l: nat)
    requires f > 0 && l > 0
    requires At(s, p) && OnTime(s, f, l) && AllTimely(s, cs, f, l)
    ensures OnTime(Run(s, cs), f, l)
    ensures |cs| + Rank(Run(s, cs), PhaseAfter(s, p, cs), f, l) <= Rank(s, p, f, l) + Retired(s, cs) * Period(f, l)
    decreases |cs|
  {
    hide At, Step, NextPhase, Signals, Rank, OnTime, Timely, Period;
    if cs == [] {
    } else {
      var before, c := cs[..|cs| - 1], cs[|cs| - 1];
      RunIsPaidFor(s, p, before, f, l);
      TokenRun(s, p, before);
      var r, q := Run(s, before), PhaseAfter(s, p, before);
      RankPositive(r, q, f, l);
      if Signals(r, c).retire {
        RetirementOnTime(r, c, q, f, l);
        RankOfPulse(Step(r, c), f, l);
        assert (Retired(s, before) + 1) * Period(f, l) == Retired(s, before) * Period(f, l) + Period(f, l);
      } else {
        RankDecreases(r, c, q, f, l);
      }
    }
  }

  lemma QuietIsOnTime(s: State, p: Phase, f: nat, l: nat)
    requires At(s, p) && (p.Startup? || p.FetchPulse?)
    ensures OnTime(s, f, l)
  {
  }

  /** Less than `k + 1` periods passed; so `n` periods need `n <= k`. */
  lemma PeriodsPassed(cycles: nat, k: nat, n: nat, period: nat)
    requires n * period <= cycles < (k + 1) * period
    ensures n <= k
  {
    if n > k {
      ProductGrows(k + 1, n, period);
    }
  }

  /** A run of `n` periods that starts with a fetch pulse retires at least `n` instructions. */
  lemma RetirementsFromPulse(s: State, cs: seq<Choice>, n: nat, f: nat, l: nat)
    requires f > 0 && l > 0
    requires At(s, FetchPulse) && AllTimely(s, cs, f, l)
    requires |cs| == n * Period(f, l)
    ensures Retired(s, cs) >= n
  {
    hide Rank, At, Period, OnTime, Run, Retired, PhaseAfter, AllTimely;
    QuietIsOnTime(s, FetchPulse, f, l);
    RankOfPulse(s, f, l);
    RunIsPaidFor(s, FetchPulse, cs, f, l);
    TokenRun(s, FetchPulse, cs);
    RankPositive(Run(s, cs), PhaseAfter(s, FetchPulse, cs), f, l);
    var k := Retired(s, cs);
    assert (k + 1) * Period(f, l) == k * Period(f, l) + Period(f, l);
    PeriodsPassed(|cs|, k, n, Period(f, l));
  }

  lemma {:induction false} RunSplits(s: State, cs: seq<Choice>, ds: seq<Choice>)
    ensures Run(s, cs + ds) == Run(Run(s, cs), ds)
    decreases |ds|
  {
    hide Step;
    if ds == [] {
      assert cs + ds == cs;
    } else {
      var before := ds[..|ds| - 1];
      RunSplits(s, cs, before);
      assert (cs + ds)[..|cs + ds| - 1] == cs + before;
    }
  }

  lemma {:induction false} TimelySplits(s: State, cs: seq<Choice>, ds: seq<Choice>, f: nat, l: nat)
    requires AllTimely(s, cs + ds, f, l)
    ensures AllTimely(Run(s, cs), ds, f, l)
    decreases |ds|
  {
    hide Step, Timely, Run;
    if ds == [] {
    } else {
      var before := ds[..|ds| - 1];
      assert (cs + ds)[..|cs + ds| - 1] == cs + before;
      TimelySplits(s, cs, before, f, l);
      RunSplits(s, cs, before);
    }
  }

  lemma PulseAfterRetirement(s: State, cs: seq<Choice>, c: Choice)
    requires Initial(s) && Signals(Run(s, cs), c).retire
    ensures At(Run(s, cs + [c]), FetchPulse)
  {
    hide At, Step, Signals, Initial;
    InitialAt(s);
    TokenRun(s, Startup, cs);
    TokenStep(Run(s, cs), c, PhaseAfter(s, Startup, cs));
    assert (cs + [c])[..|cs|] == cs;
  }

  /** In every run, after a retirement the next one comes at most f + 2 l + 3 cycles later. */
  lemma NextRetirementIsNear(s: State, cs: seq<Choice>, c: Choice, ds: seq<Choice>, f: nat, l: nat)
    requires f > 0 && l > 0
    requires Initial(s) && Signals(Run(s, cs), c).retire && AllTimely(s, cs + [c] + ds, f, l)
    requires |ds| == f + 2 * l + 3
    ensures Retired(Run(s, cs + [c]), ds) > 0
  {
    hide At, Retired, AllTimely, Run, Initial, Signals;
    PulseAfterRetirement(s, cs, c);
    TimelySplits(s, cs + [c], ds, f, l);
    RetirementsFromPulse(Run(s, cs + [c]), ds, 1, f, l);
  }

  /** From reset, `n` instructions retire within `n` periods and one cycle. */
  lemma ManyRetire(s: State, cs: seq<Choice>, n: nat, f: nat, l: nat)
    requires f > 0 && l > 0
    requires Initial(s) && AllTimely(s, cs, f, l)
    requires |cs| == n * Period(f, l) + 1
    ensures Retired(s, cs) >= n
  {
    hide Rank, At, Period, OnTime, Run, Retired, PhaseAfter, AllTimely, Initial;
    InitialAt(s);
    QuietIsOnTime(s, Startup, f, l);
    RankOfStart(s, f, l);
    RunIsPaidFor(s, Startup, cs, f, l);
    TokenRun(s, Startup, cs);
    RankPositive(Run(s, cs), PhaseAfter(s, Startup, cs), f, l);
    var k := Retired(s, cs);
    assert (k + 1) * Period(f, l) == k * Period(f, l) + Period(f, l);
    PeriodsPassed(|cs| - 1, k, n, Period(f, l));
  }

  lemma RankOfStart(s: State, f: nat, l: nat)
    ensures Rank(s, Startup, f, l) == Period(f, l) + 1
  {
  }

  lemma RankOfPulse(s: State, f: nat, l: nat)
    ensures Rank(s, FetchPulse, f, l) == Period(f, l)
  {
  }

  lemma DecodedAfterHit(s: State, c: Choice)
    requires At(s, FetchPulse)
    ensures !Signals(s, c).retire
    ensures
      if Icache.Hit(s.cpu.lines, s.cpu.pc)
      then At(Step(s, c), Decoded) && Step(s, c).cpu.inst == Icache.Lookup(s.cpu.lines, s.cpu.pc).data
      else At(Step(s, c), FetchWait)
  {
    hide AluResult, ReadPort, AccessOf, RegsAfter, PcAfter, Icache.Fill, Icache.Lookup, Icache.Hit, RtlDecode,
      WriteBeat, BusRead, RtlDecoded.IsMemory;
    TokenStep(s, c, FetchPulse);
  }

  /** The second cycle of a fetch retires exactly if the instruction is cached and is no memory access. */
  lemma HitRetiresInTwo(s: State, c: Choice, d: Choice)
    requires At(s, FetchPulse)
    ensures !Signals(s, c).retire
    ensures
      Signals(Step(s, c), d).retire
      <==> Icache.Hit(s.cpu.lines, s.cpu.pc) && !RtlDecode(Icache.Lookup(s.cpu.lines, s.cpu.pc).data).IsMemory()
  {
    hide At, Step, Signals, RtlDecode, RtlDecoded.IsMemory, Icache.Hit, Icache.Lookup;
    DecodedAfterHit(s, c);
    if Icache.Hit(s.cpu.lines, s.cpu.pc) {
      TokenStep(Step(s, c), d, Decoded);
    } else {
      TokenStep(Step(s, c), d, FetchWait);
    }
  }

  // ---------------------------------------------------------------- the exact time of one instruction

  /**
   * The latencies of one instruction: its fetch, if it misses, is answered after `f` cycles, the
   * first beat of its access after `l1` and the second one after `l2`.
   */
  predicate Punctual(s: State, p: Phase, c: Choice, f: nat, l1: nat, l2: nat) {
    && (p.FetchWait? && s.fetch.Busy? ==> (c.fetchReply <==> s.fetch.age + 1 == f))
    && (p.LsuFirst? && s.data.Busy? ==> (c.dataReply <==> s.data.age + 1 == l1))
    && (p.LsuSecond? && s.data.Busy? ==> (c.dataReply <==> s.data.age + 1 == l2))
  }

  predicate AllPunctual(s: State, cs: seq<Choice>, f: nat, l1: nat, l2: nat) {
    cs == []
    || (AllPunctual(s, cs[..|cs| - 1], f, l1, l2)
        && Punctual(Run(s, cs[..|cs| - 1]), PhaseAfter(s, FetchPulse, cs[..|cs| - 1]), cs[|cs| - 1], f, l1, l2))
  }

  /** How many cycles of an instruction have passed; `wait` is what its fetch waits for the bus. */
  function Elapsed(s: State, p: Phase, wait: nat, l1: nat): nat {
    match p
    case Startup => 0
    case FetchPulse => 0
    case FetchWait => 1 + if s.fetch.Busy? then s.fetch.age else 0
    case Decoded => 1 + wait
    case LsuFirst => 2 + wait + if s.data.Busy? then s.data.age else 0
    case LsuTurn => 2 + wait + l1
    case LsuSecond => 3 + wait + l1 + if s.data.Busy? then s.data.age else 0
  }

  /** A fetch waits `f` cycles on a miss and none on a hit. */
  predicate Waits(s: State, p: Phase, wait: nat, f: nat) {
    && (p.FetchPulse? ==> wait == if Icache.Hit(s.cpu.lines, s.cpu.pc) then 0 else f)
    && (p.FetchWait? ==> wait == f)
  }

  lemma ElapsedStep(s: State, c: Choice, p: Phase, wait: nat, f: nat, l1: nat, l2: nat)
    requires At(s, p) && !p.Startup? && Waits(s, p, wait, f) && Punctual(s, p, c, f, l1, l2) && !Signals(s, c).retire
    ensures
      var s', p' := Step(s, c), NextPhase(s, c, p);
      !p'.Startup? && Elapsed(s', p', wait, l1) == Elapsed(s, p, wait, l1) + 1 && (p'.FetchWait? ==> wait == f)
      && !p'.FetchPulse?
  {
    hide RtlDecode, AluResult, ReadPort, AccessOf, RegsAfter, PcAfter, Icache.Hit, Icache.Fill, Icache.Lookup,
      ExtendData, AlignData, UpperBits, BeatOf, WriteBeat, BusRead, Split, RtlDecoded.IsMemory;
    TokenStep(s, c, p);
  }

  /** The cycles an instruction takes, given its class. */
  function Duration(wait: nat, isMemory: bool, isSplit: bool, l1: nat, l2: nat): nat {
    2 + wait + if !isMemory then 0 else if isSplit then l1 + 1 + l2 else l1
  }

  lemma ElapsedAtRetirement(s: State, c: Choice, p: Phase, wait: nat, f: nat, l1: nat, l2: nat)
    requires At(s, p) && Punctual(s, p, c, f, l1, l2) && Signals(s, c).retire
    ensures Elapsed(s, p, wait, l1) + 1 == Duration(wait, IsMem(s), IsSplit(s), l1, l2)
  {
    hide RtlDecode, AccessNow, RegsAfter, PcAfter, Icache.Hit, Icache.Fill, Icache.Lookup, BeatOf, WriteBeat, BusRead,
      Split, RtlDecoded.IsMemory, Step, Signals;
    TokenStep(s, c, p);
  }

  lemma {:induction false} RunElapses(s: State, cs: seq<Choice>, f: nat, l1: nat, l2: nat)
    requires At(s, FetchPulse) && AllPunctual(s, cs, f, l1, l2) && Retired(s, cs) == 0
    ensures
      var r, q, wait := Run(s, cs), PhaseAfter(s, FetchPulse, cs), if Icache.Hit(s.cpu.lines, s.cpu.pc) then 0 else f;
      !q.Startup? && Waits(r, q, wait, f) && Elapsed(r, q, wait, l1) == |cs|
    decreases |cs|
  {
    hide At, Step, NextPhase, Signals, Elapsed, Punctual, Icache.Hit;
    var wait := if Icache.Hit(s.cpu.lines, s.cpu.pc) then 0 else f;
    if cs == [] {
      NothingElapsed(s, wait, l1);
    } else {
      var before, c := cs[..|cs| - 1], cs[|cs| - 1];
      RunElapses(s, before, f, l1, l2);
      TokenRun(s, FetchPulse, before);
      ElapsedStep(Run(s, before), c, PhaseAfter(s, FetchPulse, before), wait, f, l1, l2);
    }
  }

  lemma NothingElapsed(s: State, wait: nat, l1: nat)
    ensures Elapsed(s, FetchPulse, wait, l1) == 0
  {
  }

  /**
   * The exact time from one retirement to the next, for every choice of latencies: two cycles, the
   * fetch latency on a miss, and the latencies of the beats of a memory access, with one cycle
   * between the two beats of a split one.
   */
  lemma ExactDuration(s: State, cs: seq<Choice>, c: Choice, f: nat, l1: nat, l2: nat)
    requires At(s, FetchPulse) && AllPunctual(s, cs + [c], f, l1, l2)
    requires Retired(s, cs) == 0 && Signals(Run(s, cs), c).retire
    ensures
      |cs| + 1 == Duration(if Icache.Hit(s.cpu.lines, s.cpu.pc) then 0 else f,
                           IsMem(Run(s, cs)), IsSplit(Run(s, cs)), l1, l2)
  {
    hide At, Signals, Elapsed, Icache.Hit, Run, Retired, PhaseAfter, IsMem, IsSplit, Duration, Punctual, Waits;
    assert (cs + [c])[..|cs|] == cs;
    RunElapses(s, cs, f, l1, l2);
    TokenRun(s, FetchPulse, cs);
    var wait := if Icache.Hit(s.cpu.lines, s.cpu.pc) then 0 else f;
    ElapsedAtRetirement(Run(s, cs), c, PhaseAfter(s, FetchPulse, cs), wait, f, l1, l2);
  }
}
