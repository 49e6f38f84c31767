/** What the data bus sees: for every access one beat, or two in order, and one response. */
module Discipline {
  import opened Decode
  import opened Memory
  import opened Lsu
  import Icache
  import opened Rf
  import opened Exu
  import opened Cpu
  import opened Soc
  import opened Token

  /** The accesses requested by the decoder's pulses in the cycles `cs`. */
  function Requested(s: State, cs: seq<Choice>): seq<Access> {
    if cs == [] then []
    else
      var before := cs[..|cs| - 1];
      var r := Run(s, before);
      Requested(s, before) + (if Signals(r, cs[|cs| - 1]).lsuReq then [AccessNow(r.cpu)] else [])
  }

  /** The beats the data slave accepted. */
  function Accepted(s: State, cs: seq<Choice>): seq<Beat> {
    if cs == [] then []
    else
      var before := cs[..|cs| - 1];
      var r, w := Run(s, before), Signals(Run(s, before), cs[|cs| - 1]);
      Accepted(s, before) + (if r.data.Ready? && w.lsu.ioReq then [w.lsu.beat] else [])
  }

  /** The number of response pulses. */
  function Responses(s: State, cs: seq<Choice>): nat {
    if cs == [] then 0
    else
      var before := cs[..|cs| - 1];
      Responses(s, before) + (if Signals(Run(s, before), cs[|cs| - 1]).lsu.respValid then 1 else 0)
  }

  /** The second beat of a split access. */
  function SecondBeat(a: Access): seq<Beat> {
    if a.Misaligned() then [BeatOf(a, true)] else []
  }

  /** The beats of a list of accesses, in order. */
  function BeatsOf(accesses: seq<Access>): seq<Beat> {
    if accesses == [] then []
    else
      var a := accesses[|accesses| - 1];
      BeatsOf(accesses[..|accesses| - 1]) + [BeatOf(a, false)] + SecondBeat(a)
  }

  /** The beat that a split access has not been granted yet. */
  function Outstanding(s: State, p: Phase): seq<Beat> {
    if (p.LsuFirst? && IsSplit(s)) || p.LsuTurn? then [BeatOf(AccessNow(s.cpu), true)] else []
  }

  predicate InFlight(p: Phase) { p.LsuFirst? || p.LsuTurn? || p.LsuSecond? }

  /** One cycle, seen from the bus. */
  lemma BusCycle(s: State, c: Choice, p: Phase)
    requires At(s, p)
    ensures
      var w, a, p' := Signals(s, c), AccessNow(s.cpu), NextPhase(s, c, p);
      var accepted := if s.data.Ready? && w.lsu.ioReq then [w.lsu.beat] else [];
      && w.lsuReq == (p.Decoded? && IsMem(s))
      && (if w.lsuReq
          then accepted == [BeatOf(a, false)] && !InFlight(p) && InFlight(p')
               && Outstanding(Step(s, c), p') == SecondBeat(a)
          else accepted + Outstanding(Step(s, c), p') == Outstanding(s, p))
      && (!InFlight(p) ==> Outstanding(s, p) == [])
      && (!w.lsuReq && !InFlight(p) ==> !InFlight(p'))
      && (InFlight(p) ==> w.lsu.respValid == !InFlight(p'))
      && (!InFlight(p) ==> !w.lsu.respValid)
  {
    hide RtlDecode, AluResult, ReadPort, AccessOf, RegsAfter, PcAfter, Icache.Hit, Icache.Fill, Icache.Lookup,
      ExtendData, AlignData, UpperBits, BeatOf, WriteBeat, BusRead, Split, RtlDecoded.IsMemory;
    TokenStep(s, c, p);
  }

  /** The response comes in the cycle in which the slave answers the last beat. */
  lemma ResponseWithLastReply(s: State, c: Choice, p: Phase)
    requires At(s, p)
    ensures
      Signals(s, c).lsu.respValid
      == (DataAnswers(s, c) && s.data.req == BeatOf(AccessNow(s.cpu), p.LsuSecond?)
          && (p.LsuSecond? || (p.LsuFirst? && !IsSplit(s))))
  {
    hide RtlDecode, AluResult, ReadPort, AccessOf, RegsAfter, PcAfter, Icache.Hit, Icache.Fill, Icache.Lookup,
      ExtendData, AlignData, UpperBits, BeatOf, WriteBeat, BusRead, Split, RtlDecoded.IsMemory;
  }

  /**
   * In every run the accepted beats are exactly the beats of the requested accesses in order,
   * short of the second beat of a split access in progress, and every access but the one in
   * flight has had exactly one response.
   */
  lemma {:induction false} BusDiscipline(s: State, p: Phase, cs: seq<Choice>)
    requires At(s, p) && !InFlight(p)
    ensures
      var r, q := Run(s, cs), PhaseAfter(s, p, cs);
      && Accepted(s, cs) + Outstanding(r, q) == BeatsOf(Requested(s, cs))
      && Responses(s, cs) + (if InFlight(q) then 1 else 0) == |Requested(s, cs)|
    decreases |cs|
  {
    hide At, Step, NextPhase, Signals, Outstanding, InFlight, BeatOf, AccessNow, BeatsOf, SecondBeat;
    if cs == [] {
      NothingYet(s, p);
    } else {
      var before, c := cs[..|cs| - 1], cs[|cs| - 1];
      BusDiscipline(s, p, before);
      TokenRun(s, p, before);
      var r, q := Run(s, before), PhaseAfter(s, p, before);
      BusCycle(r, c, q);
      var w, out := Signals(r, c), Outstanding(Step(r, c), NextPhase(r, c, q));
      var accepted := if r.data.Ready? && w.lsu.ioReq then [w.lsu.beat] else [];
      assert Accepted(s, before) + accepted + out == Accepted(s, before) + (accepted + out);
      if w.lsuReq {
        BeatsOfPush(Requested(s, before), AccessNow(r.cpu));
        assert Accepted(s, before) + [] == Accepted(s, before);
      } else {
        assert Requested(s, cs) == Requested(s, before);
      }
    }
  }

  lemma BeatsOfPush(accesses: seq<Access>, a: Access)
    ensures BeatsOf(accesses + [a]) == BeatsOf(accesses) + [BeatOf(a, false)] + SecondBeat(a)
  {
    hide BeatOf, SecondBeat;
    assert (accesses + [a])[..|accesses|] == accesses;
  }

  lemma NothingYet(s: State, p: Phase)
    requires !InFlight(p)
    ensures Outstanding(s, p) == [] && BeatsOf([]) == []
  {
  }
}
