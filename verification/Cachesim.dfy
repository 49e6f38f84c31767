/** The trace-driven cache simulator: a set-associative cache, a fully associative one, and four counters. */
module Cachesim {
  import opened Arithmetic
  import opened Lru
  import SeenSet

  const TWO32: nat := 0x1_0000_0000

  // ---------------------------------------------------------------- sets inside the array of lines

  /** Set `s` of a cache: its `ways` consecutive lines. */
  function SetLines(lines: seq<CacheLine>, ways: nat, s: nat): seq<CacheLine> {
    var at := LinesBefore(ways, s);
    if at + ways <= |lines| then lines[at..at + ways] else []
  }

  /** The number of lines of the sets before set `s`. */
  function LinesBefore(ways: nat, s: nat): nat { s * ways }

  ghost predicate SetsOk(lines: seq<CacheLine>, sets: nat, ways: nat, h: seq<nat>) {
    forall s: nat :: s < sets ==> OneSetOk(lines, sets, ways, s, h)
  }

  ghost predicate OneSetOk(lines: seq<CacheLine>, sets: nat, ways: nat, s: nat, h: seq<nat>) {
    |SetLines(lines, ways, s)| == ways && SetOk(SetLines(lines, ways, s), sets, s, h)
  }

  lemma SetInside(sets: nat, ways: nat, s: nat)
    requires s < sets
    ensures LinesBefore(ways, s) + ways <= LinesBefore(ways, sets)
  {
    ProductGrows(s + 1, sets, ways);
    OneMoreTime(s, ways);
  }

  lemma SetsApart(ways: nat, s: nat, t: nat)
    requires s != t
    ensures LinesBefore(ways, s) + ways <= LinesBefore(ways, t) || LinesBefore(ways, t) + ways <= LinesBefore(ways, s)
  {
    hide LinesBefore;
    if s < t {
      SetInside(t, ways, s);
    } else {
      SetInside(s, ways, t);
    }
  }

  /** Writing way `w` of set `s` leaves the other sets alone. */
  lemma SetLinesUpdate(lines: seq<CacheLine>, ways: nat, s: nat, w: nat, c: CacheLine, t: nat)
    requires w < ways && LinesBefore(ways, s) + ways <= |lines| && LinesBefore(ways, t) + ways <= |lines|
    ensures SetLines(lines[LinesBefore(ways, s) + w := c], ways, t)
         == if t == s then SetLines(lines, ways, s)[w := c] else SetLines(lines, ways, t)
  {
    hide SetLines, LinesBefore;
    var at, there := LinesBefore(ways, s), LinesBefore(ways, t);
    var lines' := lines[at + w := c];
    SetLinesFrom(lines, ways, s, at);
    SetLinesFrom(lines, ways, t, there);
    SetLinesFrom(lines', ways, t, there);
    if t != s {
      SetsApart(ways, s, t);
      UpdateElsewhere(lines, ways, at, there, w, c);
    } else {
      UpdateInside(lines, ways, at, w, c);
    }
  }

  lemma SetLinesFrom(lines: seq<CacheLine>, ways: nat, s: nat, at: nat)
    requires at == LinesBefore(ways, s) && at + ways <= |lines|
    ensures SetLines(lines, ways, s) == lines[at..at + ways]
  {
    hide LinesBefore;
  }

  // The same for slices that start at `at` and `there`.
  lemma UpdateElsewhere(lines: seq<CacheLine>, ways: nat, at: nat, there: nat, w: nat, c: CacheLine)
    requires w < ways && at + ways <= |lines| && there + ways <= |lines|
    requires at + ways <= there || there + ways <= at
    ensures lines[at + w := c][there..there + ways] == lines[there..there + ways]
  {
  }

  lemma UpdateInside(lines: seq<CacheLine>, ways: nat, at: nat, w: nat, c: CacheLine)
    requires w < ways && at + ways <= |lines|
    ensures lines[at + w := c][at..at + ways] == lines[at..at + ways][w := c]
  {
  }

  /** An access to a line of set `s` that keeps the invariant of that set keeps the invariant of all. */
  lemma AccessKeepsSets(lines: seq<CacheLine>, sets: nat, ways: nat, h: seq<nat>, x: nat, w: nat)
    requires sets > 0 && |lines| == LinesBefore(ways, sets) && SetsOk(lines, sets, ways, h) && w < ways
    requires LinesBefore(ways, x % sets) + ways <= |lines|
    requires SetOk(Touch(SetLines(lines, ways, x % sets), w, sets, x, |h|), sets, x % sets, h + [x])
    ensures SetsOk(lines[LinesBefore(ways, x % sets) + w := CacheLine(true, x / sets, |h|)], sets, ways, h + [x])
  {
    hide SetOk, SetLines, LinesBefore;
    var s := x % sets;
    var c := CacheLine(true, x / sets, |h|);
    var lines' := lines[LinesBefore(ways, s) + w := c];
    forall t: nat | t < sets
      ensures OneSetOk(lines', sets, ways, t, h + [x])
    {
      assert OneSetOk(lines, sets, ways, t, h);
      SetInside(sets, ways, t);
      SetLinesUpdate(lines, ways, s, w, c, t);
      if t != s {
        OtherSetKeeps(SetLines(lines, ways, t), sets, t, h, x);
      }
    }
  }

  lemma FreshSetsOk(lines: seq<CacheLine>, sets: nat, ways: nat)
    requires |lines| == LinesBefore(ways, sets) && forall k :: 0 <= k < |lines| ==> !lines[k].valid
    ensures SetsOk(lines, sets, ways, [])
  {
    hide SetOk, LinesBefore;
    forall s: nat | s < sets
      ensures OneSetOk(lines, sets, ways, s, [])
    {
      SetInside(sets, ways, s);
      FreshSetOk(SetLines(lines, ways, s), sets, s);
    }
  }

  lemma SetOkOf(lines: seq<CacheLine>, sets: nat, ways: nat, s: nat, h: seq<nat>)
    requires SetsOk(lines, sets, ways, h) && s < sets
    ensures |SetLines(lines, ways, s)| == ways && SetOk(SetLines(lines, ways, s), sets, s, h)
  {
    assert OneSetOk(lines, sets, ways, s, h);
  }

  lemma SetLinesAt(lines: seq<CacheLine>, ways: nat, s: nat, w: nat)
    requires w < ways && LinesBefore(ways, s) + ways <= |lines|
    ensures |SetLines(lines, ways, s)| == ways && SetLines(lines, ways, s)[w] == lines[LinesBefore(ways, s) + w]
  {
    hide LinesBefore;
  }

  predicate Holds(c: CacheLine, tag: nat) {
    c.valid && c.tag == tag
  }

  /** Finding a tag in a set is a hit by the history. */
  lemma FoundIsResident(lines: seq<CacheLine>, sets: nat, s: nat, h: seq<nat>, x: nat, found: bool, w: nat)
    requires SetOk(lines, sets, s, h) && x % sets == s
    requires found ==> w < |lines| && Holds(lines[w], x / sets)
    requires !found ==> forall v :: 0 <= v < |lines| ==> !Holds(lines[v], x / sets)
    ensures found <==> Resident(h, sets, |lines|, x)
  {
    hide Resident;
    PresentIsResident(lines, sets, s, h, x);
    if found {
      AddressTag(lines[w], sets, s, x);
      assert Address(lines[w], sets, s) in Present(lines, sets, s);
    } else if x in Present(lines, sets, s) {
      var v :| 0 <= v < |lines| && lines[v].valid && Address(lines[v], sets, s) == x;
      AddressTag(lines[v], sets, s, x);
    }
  }

  lemma SplitIsDivMod(x: nat, sets: nat, s: nat, tag: nat)
    requires s < sets && tag * sets + s == x
    ensures s == x % sets && tag == x / sets
  {
    QuotientAndRemainder(tag, sets, s);
  }

  // ---------------------------------------------------------------- one cache

  class Cache {
    const sets: nat
    const ways: nat
    const lines: array<CacheLine>
    ghost var history: seq<nat>   // the lines accessed so far, oldest first

    ghost predicate Valid()
      reads this, lines
    {
      && sets > 0 && ways > 0
      && lines.Length == LinesBefore(ways, sets)
      && SetsOk(lines[..], sets, ways, history)
    }

    /** The line addresses in set `s`. */
    ghost function Lines(s: nat): set<nat>
      reads lines
    {
      Present(SetLines(lines[..], ways, s), sets, s)
    }

    constructor (sets: nat, ways: nat)
      requires sets > 0 && ways > 0
      ensures Valid() && fresh(lines)
      ensures this.sets == sets && this.ways == ways && history == []
    {
      this.sets := sets;
      this.ways := ways;
      lines := new CacheLine[LinesBefore(ways, sets)](_ => CacheLine(false, 0, 0));
      history := [];
      hide LinesBefore, SetsOk;
      new;
      FreshSetsOk(lines[..], sets, ways);
    }

    /** `split_line` */
    method SplitLine(line: nat) returns (s: nat, tag: nat)
      requires Valid()
      ensures s < sets && tag * sets + s == line
    {
      tag := line / sets;
      s := line % sets;
    }

    /** The first way of set `s` that holds `tag`, if any. */
    method Find(s: nat, tag: nat) returns (found: bool, w: nat)
      requires Valid() && s < sets && LinesBefore(ways, s) + ways <= lines.Length
      ensures found ==> w < ways && Holds(SetLines(lines[..], ways, s)[w], tag)
      ensures !found ==> forall v :: 0 <= v < ways ==> !Holds(SetLines(lines[..], ways, s)[v], tag)
    {
      hide SetOk, SetLines, LinesBefore;
      var first := LinesBefore(ways, s);
      ghost var view := SetLines(lines[..], ways, s);
      SetLinesFrom(lines[..], ways, s, first);
      assert forall v :: 0 <= v < ways ==> view[v] == lines[first + v];
      for i := 0 to ways
        invariant forall v :: 0 <= v < i ==> !Holds(view[v], tag)
      {
        if Holds(lines[first + i], tag) {
          return true, i;
        }
      }
      return false, 0;
    }

    /** The way a miss fills. */
    method ChooseVictim(s: nat) returns (victim: nat)
      requires Valid() && s < sets && LinesBefore(ways, s) + ways <= lines.Length
      ensures victim < ways && Victim(SetLines(lines[..], ways, s), victim)
    {
      hide SetOk, SetLines, LinesBefore;
      var first := LinesBefore(ways, s);
      ghost var view := SetLines(lines[..], ways, s);
      SetLinesFrom(lines[..], ways, s, first);
      assert forall v :: 0 <= v < ways ==> view[v] == lines[first + v];
      victim := 0;
      var foundInvalid := false;
      for w := 0 to ways
        invariant !foundInvalid && victim == 0
        invariant forall v :: 0 <= v < w ==> view[v].valid
      {
        if !lines[first + w].valid {
          victim := w;
          foundInvalid := true;
          break;
        }
      }
      if !foundInvalid {
        var bestTime := lines[first].lastUsed;
        victim := 0;
        for w := 1 to ways
          invariant victim < ways && bestTime == view[victim].lastUsed
          invariant forall v :: 0 <= v < w ==> bestTime <= view[v].lastUsed
        {
          if lines[first + w].lastUsed < bestTime {
            bestTime := lines[first + w].lastUsed;
            victim := w;
          }
        }
      }
    }

    /** `cache_access` */
    method Access(line: nat, time: nat) returns (hit: bool)
      requires Valid() && time == |history| < TWO32
      modifies this`history, lines
      ensures Valid() && history == old(history) + [line]
      ensures hit <==> Resident(old(history), sets, ways, line)
    {
      hide SetsOk, SetOk, SetLines, Resident, Victim, LinesBefore;
      var s, tag := SplitLine(line);
      SplitIsDivMod(line, sets, s, tag);
      SetInside(sets, ways, s);
      ghost var view := SetLines(lines[..], ways, s);
      SetOkOf(lines[..], sets, ways, s, history);
      var w: nat;
      hit, w := Find(s, tag);
      assert view == SetLines(lines[..], ways, s);
      if hit {
        SetLinesAt(lines[..], ways, s, w);
      }
      FoundIsResident(view, sets, s, history, line, hit, w);
      var at := LinesBefore(ways, s);
      if hit {
        HitKeeps(view, w, sets, s, history, line);
        AccessKeepsSets(lines[..], sets, ways, history, line, w);
        ghost var updated := lines[..][at + w := CacheLine(true, tag, time)];
        lines[at + w] := lines[at + w].(lastUsed := time % TWO32);
        assert lines[..] == updated;
      } else {
        w := ChooseVictim(s);
        MissKeeps(view, w, sets, s, history, line);
        AccessKeepsSets(lines[..], sets, ways, history, line, w);
        lines[at + w] := CacheLine(true, tag, time % TWO32);
      }
      history := history + [line];
    }
  }

  /** Inclusion for whole caches: with equal sets and the same accesses, more ways hold at least as much. */
  lemma MoreWaysIncludeFewer(few: Cache, many: Cache, s: nat)
    requires few.Valid() && many.Valid()
    requires few.sets == many.sets && few.history == many.history && few.ways <= many.ways && s < few.sets
    ensures few.Lines(s) <= many.Lines(s)
  {
    hide SetOk, SetLines;
    SetOkOf(few.lines[..], few.sets, few.ways, s, few.history);
    SetOkOf(many.lines[..], many.sets, many.ways, s, many.history);
    MoreWaysHoldMore(SetLines(few.lines[..], few.ways, s), SetLines(many.lines[..], many.ways, s), few.sets, s,
        few.history);
  }

  // ---------------------------------------------------------------- the simulator

  /** The branches an access can take in the evaluation loop. */
  datatype Branch = RealHit | NewLine | OnlyFullHit | BothMiss

  /** The branch taken by an access to `x` after the accesses `h`, by stack distance alone. */
  function BranchOf(h: seq<nat>, x: nat, sets: nat, ways: nat): Branch
    requires sets > 0
  {
    if Resident(h, sets, ways, x) then RealHit
    else if x !in h then NewLine
    else if |Since(h, 1, x)| < sets * ways then OnlyFullHit
    else BothMiss
  }

  /** How often a run over `trace` takes a branch. */
  function CountOf(branch: Branch, trace: seq<nat>, sets: nat, ways: nat): nat
    requires sets > 0
  {
    if trace == [] then 0 else
    var h, x := trace[..|trace| - 1], trace[|trace| - 1];
    CountOf(branch, h, sets, ways) + if BranchOf(h, x, sets, ways) == branch then 1 else 0
  }

  /** The line addresses of a trace of program counters. */
  function LinesOf(itrace: seq<nat>, lineBytes: nat): (lines: seq<nat>)
    requires lineBytes > 0
    ensures |lines| == |itrace|
  {
    seq(|itrace|, i requires 0 <= i < |itrace| => itrace[i] / lineBytes)
  }

  /** Address `a` lies in the aligned block number `k` of `bytes` bytes. */
  predicate InBlock(a: nat, k: nat, bytes: nat) {
    k * bytes <= a < (k + 1) * bytes
  }

  ghost predicate SameBlock(a: nat, b: nat, bytes: nat) {
    exists k: nat :: InBlock(a, k, bytes) && InBlock(b, k, bytes)
  }

  lemma BlockOf(a: nat, bytes: nat)
    requires bytes > 0
    ensures InBlock(a, a / bytes, bytes)
  {
    OneMoreTime(a / bytes, bytes);
    assert a == (a / bytes) * bytes + a % bytes;
  }

  lemma BlockIsUnique(a: nat, k: nat, bytes: nat)
    requires bytes > 0 && InBlock(a, k, bytes)
    ensures k == a / bytes
  {
    OneMoreTime(k, bytes);
    QuotientAndRemainder(k, bytes, a - k * bytes);
  }

  /** The line of an access is the number of its block. */
  lemma LineIsBlock(itrace: seq<nat>, lineBytes: nat, i: nat)
    requires lineBytes > 0 && i < |itrace|
    ensures InBlock(itrace[i], LinesOf(itrace, lineBytes)[i], lineBytes)
  {
    hide InBlock;
    BlockOf(itrace[i], lineBytes);
  }

  /** Two accesses are to the same line exactly if they lie in the same block. */
  lemma SameLineIffSameBlock(itrace: seq<nat>, lineBytes: nat, i: nat, j: nat)
    requires lineBytes > 0 && i < |itrace| && j < |itrace|
    ensures
      LinesOf(itrace, lineBytes)[i] == LinesOf(itrace, lineBytes)[j]
      <==> SameBlock(itrace[i], itrace[j], lineBytes)
  {
    hide InBlock, LinesOf;
    var lines := LinesOf(itrace, lineBytes);
    LineIsBlock(itrace, lineBytes, i);
    LineIsBlock(itrace, lineBytes, j);
    BlockIsUnique(itrace[i], lines[i], lineBytes);
    BlockIsUnique(itrace[j], lines[j], lineBytes);
    if SameBlock(itrace[i], itrace[j], lineBytes) {
      var k: nat :| InBlock(itrace[i], k, lineBytes) && InBlock(itrace[j], k, lineBytes);
      BlockIsUnique(itrace[i], k, lineBytes);
      BlockIsUnique(itrace[j], k, lineBytes);
    }
  }

  /** The lines of a trace, by what they mean. */
  ghost predicate AreBlocks(lines: seq<nat>, itrace: seq<nat>, lineBytes: nat) {
    && |lines| == |itrace|
    && (forall i :: 0 <= i < |itrace| ==> InBlock(itrace[i], lines[i], lineBytes))
    && forall i, j :: 0 <= i < |itrace| && 0 <= j < |itrace| ==>
      (lines[i] == lines[j] <==> SameBlock(itrace[i], itrace[j], lineBytes))
  }

  lemma LinesAreBlocks(itrace: seq<nat>, lineBytes: nat)
    requires lineBytes > 0
    ensures AreBlocks(LinesOf(itrace, lineBytes), itrace, lineBytes)
  {
    hide InBlock, SameBlock, LinesOf;
    var lines := LinesOf(itrace, lineBytes);
    forall i | 0 <= i < |itrace| ensures InBlock(itrace[i], lines[i], lineBytes) {
      LineIsBlock(itrace, lineBytes, i);
    }
    forall i, j | 0 <= i < |itrace| && 0 <= j < |itrace|
      ensures lines[i] == lines[j] <==> SameBlock(itrace[i], itrace[j], lineBytes)
    {
      SameLineIffSameBlock(itrace, lineBytes, i, j);
    }
  }

  /** The four counters partition the trace. */
  lemma {:induction false} CountersSumToLength(trace: seq<nat>, sets: nat, ways: nat)
    requires sets > 0
    ensures CountOf(RealHit, trace, sets, ways) + CountOf(NewLine, trace, sets, ways)
            + CountOf(OnlyFullHit, trace, sets, ways) + CountOf(BothMiss, trace, sets, ways) == |trace|
  {
    if trace == [] {
    } else {
      CountersSumToLength(trace[..|trace| - 1], sets, ways);
    }
  }

  lemma NewLineIffUnseen(h: seq<nat>, x: nat, sets: nat, ways: nat)
    requires sets > 0
    ensures BranchOf(h, x, sets, ways) == NewLine <==> x !in Elements(h)
  {
  }

  lemma CountStep(branch: Branch, h: seq<nat>, x: nat, sets: nat, ways: nat)
    requires sets > 0
    ensures CountOf(branch, h + [x], sets, ways)
         == CountOf(branch, h, sets, ways) + if BranchOf(h, x, sets, ways) == branch then 1 else 0
  {
    assert (h + [x])[..|h|] == h;
  }

  /** How one access changes the four counts and the set of lines seen. */
  lemma CountsStep(h: seq<nat>, x: nat, sets: nat, ways: nat)
    requires sets > 0
    ensures forall branch ::
      CountOf(branch, h + [x], sets, ways)
      == CountOf(branch, h, sets, ways) + if BranchOf(h, x, sets, ways) == branch then 1 else 0
    ensures Elements(h + [x]) == Elements(h) + {x}
    ensures |Elements(h)| <= |h|
  {
    hide CountOf, BranchOf, Elements;
    forall branch
      ensures CountOf(branch, h + [x], sets, ways)
           == CountOf(branch, h, sets, ways) + if BranchOf(h, x, sets, ways) == branch then 1 else 0
    {
      CountStep(branch, h, x, sets, ways);
    }
    ElementsOfFront(h + [x]);
    assert (h + [x])[..|h|] == h;
    FewElements(h);
  }

  /** The branch in terms of what the two caches and the table answer. */
  lemma BranchByAnswers(h: seq<nat>, x: nat, sets: nat, ways: nat)
    requires sets > 0
    ensures BranchOf(h, x, sets, ways)
         == if Resident(h, sets, ways, x) then RealHit
            else if x !in Elements(h) then NewLine
            else if Resident(h, 1, sets * ways, x) then OnlyFullHit
            else BothMiss
    ensures Resident(h, sets, ways, x) ==> x in Elements(h)
  {
  }

  /** There is one compulsory miss for each distinct line of the trace. */
  lemma {:induction false} CompulsoryIsDistinct(trace: seq<nat>, sets: nat, ways: nat)
    requires sets > 0
    ensures CountOf(NewLine, trace, sets, ways) == |Elements(trace)|
  {
    hide BranchOf;
    if trace == [] {
    } else {
      var h, x := trace[..|trace| - 1], trace[|trace| - 1];
      assert trace == h + [x];
      CompulsoryIsDistinct(h, sets, ways);
      CountsStep(h, x, sets, ways);
      NewLineIffUnseen(h, x, sets, ways);
      assert x in Elements(h) ==> Elements(h) + {x} == Elements(h);
    }
  }

  /** The hit counter is the number of hits of the real cache; it never drops when ways are added. */
  lemma {:induction false} RealHitsAreHits(trace: seq<nat>, sets: nat, ways: nat)
    requires sets > 0
    ensures CountOf(RealHit, trace, sets, ways) == Hits(trace, sets, ways)
  {
    if trace == [] {
    } else {
      RealHitsAreHits(trace[..|trace| - 1], sets, ways);
    }
  }

  /** With one set the real cache is the full one: the third counter stays zero. */
  lemma {:induction false} OneSetNeverOnlyFullHit(trace: seq<nat>, ways: nat)
    ensures CountOf(OnlyFullHit, trace, 1, ways) == 0
  {
    if trace == [] {
    } else {
      OneSetNeverOnlyFullHit(trace[..|trace| - 1], ways);
    }
  }

  class Cachesim {
    const lineBytes: nat
    const realCache: Cache
    const fullCache: Cache
    const seen: SeenSet.Table
    const itrace: seq<nat>
    var hits: nat
    var compulsoryMisses: nat
    var capacityMisses: nat
    var conflictMisses: nat

    ghost predicate Valid()
      reads this, realCache, realCache.lines, fullCache, fullCache.lines, seen, seen.keys, seen.used
    {
      && lineBytes > 0 && |itrace| < TWO32
      && realCache != fullCache && realCache.lines != fullCache.lines
      && realCache.Valid() && fullCache.Valid() && seen.Valid()
      && fullCache.sets == 1 && fullCache.ways == realCache.sets * realCache.ways
      && seen.cap >= 2 * |itrace| + 16
    }

    /** The state after the lines `h` were simulated. */
    ghost predicate After(h: seq<nat>)
      requires Valid()
      reads this, realCache, realCache.lines, fullCache, fullCache.lines, seen, seen.keys, seen.used
    {
      && realCache.history == fullCache.history == h
      && seen.Contents() == Elements(h)
      && hits == CountOf(RealHit, h, realCache.sets, realCache.ways)
      && compulsoryMisses == CountOf(NewLine, h, realCache.sets, realCache.ways)
      && capacityMisses == CountOf(OnlyFullHit, h, realCache.sets, realCache.ways)
      && conflictMisses == CountOf(BothMiss, h, realCache.sets, realCache.ways)
    }

    /** `new_cachesim` */
    constructor (sets: nat, ways: nat, totalBytes: nat, lineBytes: nat, itrace: seq<nat>, hash: nat -> nat)
      requires sets > 0 && ways > 0 && lineBytes > 0
      requires totalBytes == sets * ways * lineBytes && |itrace| < TWO32
      ensures Valid() && After([])
      ensures fresh(realCache) && fresh(realCache.lines) && fresh(fullCache) && fresh(fullCache.lines)
      ensures fresh(seen) && fresh(seen.keys) && fresh(seen.used)
      ensures this.itrace == itrace && this.lineBytes == lineBytes && realCache.sets == sets && realCache.ways == ways
    {
      this.lineBytes := lineBytes;
      this.itrace := itrace;
      QuotientAndRemainder(sets * ways, lineBytes, 0);
      realCache := new Cache(sets, ways);
      fullCache := new Cache(1, totalBytes / lineBytes);
      seen := new SeenSet.Table(hash, |itrace|);
      hits, compulsoryMisses, capacityMisses, conflictMisses := 0, 0, 0, 0;
    }

    /** One iteration of the evaluation loop. */
    method Simulate(line: nat, time: nat, ghost h: seq<nat>)
      requires Valid() && After(h) && time == |h| < |itrace|
      modifies this, realCache, realCache.lines, fullCache, fullCache.lines, seen, seen.keys, seen.used
      ensures Valid() && After(h + [line])
    {
      hide Resident, CountOf, BranchOf, Elements, SetsOk, LinesBefore;
      hide SeenSet.TableOk, SeenSet.KeysOf, SeenSet.UsedSlots, Pow2;
      CountsStep(h, line, realCache.sets, realCache.ways);
      BranchByAnswers(h, line, realCache.sets, realCache.ways);
      var fullHit := fullCache.Access(line, time);
      var realHit := realCache.Access(line, time);
      if realHit {
        hits := hits + 1;
      } else {
        var isNew := seen.InsertIfNew(line);
        if isNew {
          compulsoryMisses := compulsoryMisses + 1;
        } else if fullHit {
          capacityMisses := capacityMisses + 1;
        } else {
          conflictMisses := conflictMisses + 1;
        }
      }
    }

    /** `cachesim_eval` */
    method Eval()
      requires Valid() && After([])
      modifies this, realCache, realCache.lines, fullCache, fullCache.lines, seen, seen.keys, seen.used
      ensures Valid() && After(LinesOf(itrace, lineBytes))
      ensures AreBlocks(LinesOf(itrace, lineBytes), itrace, lineBytes)
      ensures hits + compulsoryMisses + capacityMisses + conflictMisses == |itrace|
      ensures compulsoryMisses == |Elements(LinesOf(itrace, lineBytes))|
    {
      hide Resident, CountOf, BranchOf, Elements, SetsOk, LinesBefore, AreBlocks;
      LinesAreBlocks(itrace, lineBytes);
      ghost var lines := LinesOf(itrace, lineBytes);
      for i := 0 to |itrace|
        invariant Valid() && After(lines[..i])
      {
        var line := itrace[i] / lineBytes;
        assert lines[..i + 1] == lines[..i] + [line];
        Simulate(line, i, lines[..i]);
      }
      assert lines[..|itrace|] == lines;
      CountersSumToLength(lines, realCache.sets, realCache.ways);
      CompulsoryIsDistinct(lines, realCache.sets, realCache.ways);
    }
  }
}
