/** Least-recently-used sets: the meaning of a cache by its access history, and what one access keeps. */
module Lru {
  import opened Arithmetic

  /** A cache line of the simulator; `lastUsed` is the time of the latest access to it. */
  datatype CacheLine = CacheLine(valid: bool, tag: nat, lastUsed: nat)

  // ---------------------------------------------------------------- the history

  /** When line `x` was last accessed. */
  function LastIndex(h: seq<nat>, x: nat): (k: nat)
    requires x in h
    ensures k < |h| && h[k] == x && x !in h[k + 1..]
  {
    if h[|h| - 1] == x then |h| - 1 else LastIndex(h[..|h| - 1], x)
  }

  /** The distinct lines of the set of `x` accessed after the last access to `x`. Their number is the stack distance. */
  function Since(h: seq<nat>, sets: nat, x: nat): set<nat>
    requires sets > 0 && x in h
  {
    set y | y in h[LastIndex(h, x) + 1..] && y % sets == x % sets
  }

  /** What an LRU cache with `ways` lines in each of `sets` sets holds after the accesses `h`. */
  predicate Resident(h: seq<nat>, sets: nat, ways: nat, x: nat)
    requires sets > 0
  {
    x in h && |Since(h, sets, x)| < ways
  }

  lemma LastIndexAfter(h: seq<nat>, x: nat, y: nat)
    requires y in h || y == x
    ensures LastIndex(h + [x], y) == if y == x then |h| else LastIndex(h, y)
  {
    assert (h + [x])[..|h|] == h;
  }

  /** Membership in the suffix after `x` is a comparison of last uses. */
  lemma AfterIffLater(h: seq<nat>, x: nat, y: nat)
    requires x in h
    ensures y in h[LastIndex(h, x) + 1..] <==> y in h && LastIndex(h, y) > LastIndex(h, x)
  {
    var k := LastIndex(h, x);
    if y in h[k + 1..] {
      var i :| 0 <= i < |h[k + 1..]| && h[k + 1..][i] == y;
      assert h[k + 1 + i] == y;
      LastIndexIsLast(h, y, k + 1 + i);
    }
    if y in h && LastIndex(h, y) > k {
      assert h[k + 1..][LastIndex(h, y) - k - 1] == y;
    }
  }

  lemma LastIndexIsLast(h: seq<nat>, y: nat, i: nat)
    requires i < |h| && h[i] == y
    ensures i <= LastIndex(h, y)
  {
    if h[|h| - 1] == y {
    } else {
      assert h[..|h| - 1][i] == y;
      LastIndexIsLast(h[..|h| - 1], y, i);
    }
  }

  // ---------------------------------------------------------------- one set

  /** The line address a cache line of set `s` holds. */
  function Address(c: CacheLine, sets: nat, s: nat): nat {
    c.tag * sets + s
  }

  lemma AddressTag(c: CacheLine, sets: nat, s: nat, x: nat)
    requires s < sets
    ensures Address(c, sets, s) % sets == s
    ensures x % sets == s ==> (Address(c, sets, s) == x <==> c.tag == x / sets)
  {
    QuotientAndRemainder(c.tag, sets, s);
  }

  /** The line addresses in a set. */
  function Present(lines: seq<CacheLine>, sets: nat, s: nat): set<nat> {
    set w | 0 <= w < |lines| && lines[w].valid :: Address(lines[w], sets, s)
  }

  ghost predicate LineOk(c: CacheLine, sets: nat, s: nat, h: seq<nat>) {
    c.valid ==> Address(c, sets, s) in h && c.lastUsed == LastIndex(h, Address(c, sets, s))
  }

  /** Every way is in use, by a line used more recently than `y`. */
  ghost predicate AllLater(lines: seq<CacheLine>, h: seq<nat>, y: nat)
    requires y in h
  {
    forall w :: 0 <= w < |lines| ==> lines[w].valid && lines[w].lastUsed > LastIndex(h, y)
  }

  ghost predicate NoDuplicates(lines: seq<CacheLine>) {
    forall v, w :: 0 <= v < w < |lines| && lines[v].valid && lines[w].valid ==> lines[v].tag != lines[w].tag
  }

  /** The invariant of set `s` after the accesses `h`. */
  ghost predicate SetOk(lines: seq<CacheLine>, sets: nat, s: nat, h: seq<nat>) {
    && s < sets
    && (forall w :: 0 <= w < |lines| ==> LineOk(lines[w], sets, s, h))
    && NoDuplicates(lines)
    && (forall y :: y in h && y % sets == s && y !in Present(lines, sets, s) ==> AllLater(lines, h, y))
  }

  lemma PresentLast(lines: seq<CacheLine>, sets: nat, s: nat)
    requires lines != []
    ensures Present(lines, sets, s)
         == Present(lines[..|lines| - 1], sets, s)
            + if lines[|lines| - 1].valid then {Address(lines[|lines| - 1], sets, s)} else {}
  {
    hide Address;
    var n := |lines| - 1;
    var front := lines[..n];
    forall x | x in Present(lines, sets, s)
      ensures x in Present(front, sets, s) || (lines[n].valid && x == Address(lines[n], sets, s))
    {
      var w :| 0 <= w < |lines| && lines[w].valid && Address(lines[w], sets, s) == x;
      assert w < n ==> front[w] == lines[w];
    }
    forall x | x in Present(front, sets, s) ensures x in Present(lines, sets, s) {
      var w :| 0 <= w < n && front[w].valid && Address(front[w], sets, s) == x;
      assert lines[w] == front[w];
    }
  }

  /** Lines with different tags have different addresses, so a full set holds as many lines as it has ways. */
  lemma {:induction false} PresentSize(lines: seq<CacheLine>, sets: nat, s: nat)
    requires s < sets && NoDuplicates(lines)
    ensures |Present(lines, sets, s)| <= |lines|
    ensures (forall w :: 0 <= w < |lines| ==> lines[w].valid) ==> |Present(lines, sets, s)| == |lines|
  {
    hide Address;
    if lines == [] {
    } else {
      var n := |lines| - 1;
      var front := lines[..n];
      PresentSize(front, sets, s);
      PresentLast(lines, sets, s);
      var a := Address(lines[n], sets, s);
      if lines[n].valid && a in Present(front, sets, s) {
        var w :| 0 <= w < n && front[w].valid && Address(front[w], sets, s) == a;
        SameAddressSameTag(front[w], lines[n], sets, s);
        assert false;
      }
    }
  }

  lemma SameAddressSameTag(c: CacheLine, c': CacheLine, sets: nat, s: nat)
    requires s < sets && Address(c, sets, s) == Address(c', sets, s)
    ensures c.tag == c'.tag
  {
    AddressTag(c, sets, s, Address(c, sets, s));
    AddressTag(c', sets, s, Address(c, sets, s));
  }

  lemma Smaller(a: set<nat>, b: set<nat>)
    requires a <= b
    ensures |a| <= |b|
  {
    assert b == a + (b - a);
  }

  /** The lines accessed since a present one are present too. */
  lemma SincePresent(lines: seq<CacheLine>, sets: nat, s: nat, h: seq<nat>, x: nat, y: nat)
    requires SetOk(lines, sets, s, h) && x % sets == s && x in Present(lines, sets, s)
    requires x in h && y in Since(h, sets, x)
    ensures y in Present(lines, sets, s) && y != x
  {
    hide Address;
    var w :| 0 <= w < |lines| && lines[w].valid && Address(lines[w], sets, s) == x;
    assert LineOk(lines[w], sets, s, h);
    AfterIffLater(h, x, y);
    assert y !in Present(lines, sets, s) ==> AllLater(lines, h, y);
  }

  /** The lines of a set that has lost `x` were all accessed since. */
  lemma PresentSince(lines: seq<CacheLine>, sets: nat, s: nat, h: seq<nat>, x: nat, y: nat)
    requires SetOk(lines, sets, s, h) && x % sets == s && x in h && x !in Present(lines, sets, s)
    requires y in Present(lines, sets, s)
    ensures y in Since(h, sets, x)
  {
    hide Address;
    assert AllLater(lines, h, x);
    var w :| 0 <= w < |lines| && lines[w].valid && Address(lines[w], sets, s) == y;
    assert LineOk(lines[w], sets, s, h);
    AfterIffLater(h, x, y);
    AddressTag(lines[w], sets, s, y);
  }

  lemma PresentWasAccessed(lines: seq<CacheLine>, sets: nat, s: nat, h: seq<nat>, x: nat)
    requires SetOk(lines, sets, s, h) && x in Present(lines, sets, s)
    ensures x in h
  {
    hide Address;
    var w :| 0 <= w < |lines| && lines[w].valid && Address(lines[w], sets, s) == x;
    assert LineOk(lines[w], sets, s, h);
  }

  lemma FullWithout(lines: seq<CacheLine>, sets: nat, s: nat, h: seq<nat>, x: nat)
    requires SetOk(lines, sets, s, h) && x % sets == s && x in h && x !in Present(lines, sets, s)
    ensures |Present(lines, sets, s)| == |lines|
  {
    hide Address;
    assert AllLater(lines, h, x);
    PresentSize(lines, sets, s);
  }

  /** A set that keeps the invariant holds exactly its lines of stack distance below the number of ways. */
  lemma PresentIsResident(lines: seq<CacheLine>, sets: nat, s: nat, h: seq<nat>, x: nat)
    requires SetOk(lines, sets, s, h) && x % sets == s
    ensures x in Present(lines, sets, s) <==> Resident(h, sets, |lines|, x)
  {
    hide Present, Since, LineOk, AllLater;
    var present := Present(lines, sets, s);
    PresentSize(lines, sets, s);
    if x in present {
      PresentWasAccessed(lines, sets, s, h, x);
      forall y | y in Since(h, sets, x) ensures y in present - {x} {
        SincePresent(lines, sets, s, h, x, y);
      }
      Smaller(Since(h, sets, x), present - {x});
    } else if x in h {
      FullWithout(lines, sets, s, h, x);
      forall y | y in present ensures y in Since(h, sets, x) {
        PresentSince(lines, sets, s, h, x, y);
      }
      Smaller(present, Since(h, sets, x));
    }
  }

  // ---------------------------------------------------------------- one access

  lemma LineOkAfterOther(c: CacheLine, sets: nat, s: nat, h: seq<nat>, x: nat)
    requires LineOk(c, sets, s, h) && (c.valid ==> Address(c, sets, s) != x)
    ensures LineOk(c, sets, s, h + [x])
  {
    if c.valid {
      LastIndexAfter(h, x, Address(c, sets, s));
    }
  }

  /** An access to another set. */
  lemma OtherSetKeeps(lines: seq<CacheLine>, sets: nat, s: nat, h: seq<nat>, x: nat)
    requires SetOk(lines, sets, s, h) && x % sets != s
    ensures SetOk(lines, sets, s, h + [x])
  {
    forall w | 0 <= w < |lines| ensures LineOk(lines[w], sets, s, h + [x]) {
      AddressTag(lines[w], sets, s, x);
      LineOkAfterOther(lines[w], sets, s, h, x);
    }
    forall y | y in h + [x] && y % sets == s && y !in Present(lines, sets, s) ensures AllLater(lines, h + [x], y) {
      assert AllLater(lines, h, y);
      LastIndexAfter(h, x, y);
    }
  }

  /** What the used way `w` holds after the access: `x`, used now. */
  lemma NewLineOk(sets: nat, s: nat, h: seq<nat>, x: nat)
    requires s < sets && x % sets == s
    ensures LineOk(CacheLine(true, x / sets, |h|), sets, s, h + [x])
    ensures Address(CacheLine(true, x / sets, |h|), sets, s) == x
  {
    AddressTag(CacheLine(true, x / sets, |h|), sets, s, x);
    LastIndexAfter(h, x, x);
  }

  /** The line `x` after an access, in way `w`. */
  function Touch(lines: seq<CacheLine>, w: nat, sets: nat, x: nat, now: nat): seq<CacheLine>
    requires w < |lines| && sets > 0
  {
    lines[w := CacheLine(true, x / sets, now)]
  }

  lemma LinesOkAfterTouch(lines: seq<CacheLine>, w: nat, sets: nat, s: nat, h: seq<nat>, x: nat)
    requires SetOk(lines, sets, s, h) && x % sets == s && w < |lines|
    requires forall v :: 0 <= v < |lines| && v != w && lines[v].valid ==> lines[v].tag != x / sets
    ensures forall v :: 0 <= v < |lines| ==> LineOk(Touch(lines, w, sets, x, |h|)[v], sets, s, h + [x])
    ensures NoDuplicates(Touch(lines, w, sets, x, |h|))
  {
    NewLineOk(sets, s, h, x);
    forall v | 0 <= v < |lines| && v != w ensures LineOk(lines[v], sets, s, h + [x]) {
      AddressTag(lines[v], sets, s, x);
      LineOkAfterOther(lines[v], sets, s, h, x);
    }
  }

  /** A line that stays in the set is still present after the access. */
  lemma StillPresent(lines: seq<CacheLine>, w: nat, sets: nat, s: nat, x: nat, now: nat, y: nat)
    requires w < |lines| && s < sets && y in Present(lines, sets, s)
    requires lines[w].valid ==> Address(lines[w], sets, s) != y
    ensures y in Present(Touch(lines, w, sets, x, now), sets, s)
  {
    var v :| 0 <= v < |lines| && lines[v].valid && Address(lines[v], sets, s) == y;
    assert Touch(lines, w, sets, x, now)[v] == lines[v];
  }

  lemma TouchedPresent(lines: seq<CacheLine>, w: nat, sets: nat, s: nat, h: seq<nat>, x: nat)
    requires w < |lines| && s < sets && x % sets == s
    ensures x in Present(Touch(lines, w, sets, x, |h|), sets, s)
  {
    NewLineOk(sets, s, h, x);
    assert Touch(lines, w, sets, x, |h|)[w] == CacheLine(true, x / sets, |h|);
  }

  /** A hit: the line is already there. */
  lemma HitKeeps(lines: seq<CacheLine>, w: nat, sets: nat, s: nat, h: seq<nat>, x: nat)
    requires SetOk(lines, sets, s, h) && x % sets == s
    requires w < |lines| && lines[w].valid && lines[w].tag == x / sets
    ensures SetOk(Touch(lines, w, sets, x, |h|), sets, s, h + [x])
  {
    var lines' := Touch(lines, w, sets, x, |h|);
    LinesOkAfterTouch(lines, w, sets, s, h, x);
    AddressTag(lines[w], sets, s, x);
    forall y | y in h + [x] && y % sets == s && y !in Present(lines', sets, s) ensures AllLater(lines', h + [x], y) {
      TouchedPresent(lines, w, sets, s, h, x);
      LastIndexAfter(h, x, y);
      if y in Present(lines, sets, s) {
        StillPresent(lines, w, sets, s, x, |h|, y);
      }
      assert AllLater(lines, h, y);
    }
  }

  /** The way a miss may fill: an unused one, or the least recently used one of a full set. */
  ghost predicate Victim(lines: seq<CacheLine>, w: nat) {
    && w < |lines|
    && (lines[w].valid ==> forall v :: 0 <= v < |lines| ==> lines[v].valid && lines[w].lastUsed <= lines[v].lastUsed)
  }

  lemma LastUsesDiffer(lines: seq<CacheLine>, sets: nat, s: nat, h: seq<nat>, v: nat, w: nat)
    requires SetOk(lines, sets, s, h) && v < |lines| && w < |lines| && v != w && lines[v].valid && lines[w].valid
    ensures lines[v].lastUsed != lines[w].lastUsed
  {
    assert LineOk(lines[v], sets, s, h) && LineOk(lines[w], sets, s, h);
    if Address(lines[v], sets, s) == Address(lines[w], sets, s) {
      SameAddressSameTag(lines[v], lines[w], sets, s);
    }
  }

  /** A miss: the victim is replaced. */
  lemma MissKeeps(lines: seq<CacheLine>, w: nat, sets: nat, s: nat, h: seq<nat>, x: nat)
    requires SetOk(lines, sets, s, h) && x % sets == s && Victim(lines, w)
    requires forall v :: 0 <= v < |lines| && lines[v].valid ==> lines[v].tag != x / sets
    ensures SetOk(Touch(lines, w, sets, x, |h|), sets, s, h + [x])
  {
    var lines' := Touch(lines, w, sets, x, |h|);
    LinesOkAfterTouch(lines, w, sets, s, h, x);
    forall y | y in h + [x] && y % sets == s && y !in Present(lines', sets, s) ensures AllLater(lines', h + [x], y) {
      TouchedPresent(lines, w, sets, s, h, x);
      LastIndexAfter(h, x, y);
      if y !in Present(lines, sets, s) {
        assert AllLater(lines, h, y);
      } else if lines[w].valid && Address(lines[w], sets, s) == y {
        assert LineOk(lines[w], sets, s, h);
        forall v | 0 <= v < |lines| && v != w ensures lines'[v].valid && lines'[v].lastUsed > LastIndex(h, y) {
          LastUsesDiffer(lines, sets, s, h, v, w);
        }
      } else {
        StillPresent(lines, w, sets, s, x, |h|, y);
      }
    }
  }

  lemma FreshSetOk(lines: seq<CacheLine>, sets: nat, s: nat)
    requires s < sets && forall w :: 0 <= w < |lines| ==> !lines[w].valid
    ensures SetOk(lines, sets, s, [])
  {
  }

  // ---------------------------------------------------------------- theorems about LRU

  /** Inclusion: after the same accesses, a set with more ways holds whatever one with fewer ways holds. */
  lemma MoreWaysHoldMore(few: seq<CacheLine>, many: seq<CacheLine>, sets: nat, s: nat, h: seq<nat>)
    requires SetOk(few, sets, s, h) && SetOk(many, sets, s, h) && |few| <= |many|
    ensures Present(few, sets, s) <= Present(many, sets, s)
  {
    forall x | x in Present(few, sets, s) ensures x in Present(many, sets, s) {
      var w :| 0 <= w < |few| && few[w].valid && Address(few[w], sets, s) == x;
      AddressTag(few[w], sets, s, x);
      PresentIsResident(few, sets, s, h, x);
      PresentIsResident(many, sets, s, h, x);
    }
  }

  /** The number of hits of a run over `trace`. */
  function Hits(trace: seq<nat>, sets: nat, ways: nat): nat
    requires sets > 0
  {
    if trace == [] then 0 else
    var h := trace[..|trace| - 1];
    Hits(h, sets, ways) + if Resident(h, sets, ways, trace[|trace| - 1]) then 1 else 0
  }

  lemma {:induction false} HitsGrowWithWays(trace: seq<nat>, sets: nat, ways: nat, ways': nat)
    requires sets > 0 && ways <= ways'
    ensures Hits(trace, sets, ways) <= Hits(trace, sets, ways')
  {
    if trace == [] {
    } else {
      HitsGrowWithWays(trace[..|trace| - 1], sets, ways, ways');
    }
  }

  // ---------------------------------------------------------------- the lines of a trace

  function Elements(s: seq<nat>): set<nat> {
    set x | x in s
  }

  lemma ElementsOfFront(s: seq<nat>)
    requires s != []
    ensures Elements(s) == Elements(s[..|s| - 1]) + {s[|s| - 1]}
  {
    assert s == s[..|s| - 1] + [s[|s| - 1]];
  }

  lemma {:induction false} FewElements(s: seq<nat>)
    ensures |Elements(s)| <= |s|
  {
    if s == [] {
    } else {
      ElementsOfFront(s);
      FewElements(s[..|s| - 1]);
    }
  }

  // ---------------------------------------------------------------- the two caches of the simulator

  /** Line number `i` among those that are not in set 0. */
  function Skip(sets: nat, i: nat): nat
    requires sets > 1
  {
    (i / (sets - 1)) * sets + i % (sets - 1) + 1
  }

  lemma SkipParts(sets: nat, i: nat)
    requires sets > 1
    ensures Skip(sets, i) / sets == i / (sets - 1) && Skip(sets, i) % sets == i % (sets - 1) + 1
  {
    QuotientAndRemainder(i / (sets - 1), sets, i % (sets - 1) + 1);
  }

  /** The lines are different, and few of them are skipped. */
  lemma SkipDetermines(sets: nat, i: nat, j: nat)
    requires sets > 1 && Skip(sets, i) == Skip(sets, j)
    ensures i == j
  {
    hide Skip;
    SkipParts(sets, i);
    SkipParts(sets, j);
    assert i == (i / (sets - 1)) * (sets - 1) + i % (sets - 1);
    assert j == (j / (sets - 1)) * (sets - 1) + j % (sets - 1);
  }

  lemma SkipIsSmall(sets: nat, i: nat)
    requires sets > 1
    ensures Skip(sets, i) <= 2 * i + 1
  {
    var q, r := i / (sets - 1), i % (sets - 1);
    assert i == q * (sets - 1) + r;
    OneMoreTime(sets - 1, q);
    ProductGrows(1, sets - 1, q);
  }

  /** The first `n` lines outside set 0. */
  function LinesElsewhere(sets: nat, n: nat): (s: seq<nat>)
    requires sets > 1
    ensures |s| == n
  {
    seq(n, i requires 0 <= i < n => Skip(sets, i))
  }

  /** One access to line 0, then one to each of the first `n` lines outside its set. */
  function Detour(sets: nat, n: nat): seq<nat>
    requires sets > 1
  {
    [0] + LinesElsewhere(sets, n)
  }

  lemma DetourIsElsewhere(sets: nat, n: nat, y: nat)
    requires sets > 1 && y in LinesElsewhere(sets, n)
    ensures y % sets != 0
  {
    hide Skip;
    var i :| 0 <= i < n && LinesElsewhere(sets, n)[i] == y;
    SkipParts(sets, i);
  }

  lemma LastIndexInDetour(sets: nat, n: nat)
    requires sets > 1
    ensures LastIndex(Detour(sets, n), 0) == 0
    ensures Detour(sets, n)[1..] == LinesElsewhere(sets, n)
  {
    hide Skip;
    var h, k := Detour(sets, n), LastIndex(Detour(sets, n), 0);
    assert h[1..] == LinesElsewhere(sets, n);
    if k > 0 {
      assert h[1..][k - 1] == 0;
      DetourIsElsewhere(sets, n, 0);
    }
  }

  lemma NotAgain(sets: nat, n: nat)
    requires sets > 1
    ensures Skip(sets, n) !in LinesElsewhere(sets, n)
  {
    hide Skip;
    if Skip(sets, n) in LinesElsewhere(sets, n) {
      var i :| 0 <= i < n && LinesElsewhere(sets, n)[i] == Skip(sets, n);
      SkipDetermines(sets, i, n);
    }
  }

  lemma OneMoreLine(sets: nat, n: nat)
    requires sets > 1
    ensures LinesElsewhere(sets, n + 1) == LinesElsewhere(sets, n) + [Skip(sets, n)]
  {
    hide Skip;
  }

  lemma {:induction false} DetourSize(sets: nat, n: nat)
    requires sets > 1
    ensures |Elements(LinesElsewhere(sets, n))| == n
  {
    hide Skip, LinesElsewhere;
    if n == 0 {
      assert Elements(LinesElsewhere(sets, n)) == {};
    } else {
      DetourSize(sets, n - 1);
      var front := LinesElsewhere(sets, n - 1);
      OneMoreLine(sets, n - 1);
      NotAgain(sets, n - 1);
      ElementsOfFront(front + [Skip(sets, n - 1)]);
      assert (front + [Skip(sets, n - 1)])[..n - 1] == front;
    }
  }

  /** Every line of a trace is at most `limit`. */
  predicate Within(h: seq<nat>, limit: nat) {
    forall y :: y in h ==> y <= limit
  }

  lemma DetourWithin(sets: nat, n: nat)
    requires sets > 1
    ensures Within(Detour(sets, n), 2 * n)
  {
    hide Skip;
    forall y | y in Detour(sets, n) ensures y <= 2 * n {
      if y in LinesElsewhere(sets, n) {
        var i :| 0 <= i < n && LinesElsewhere(sets, n)[i] == y;
        SkipIsSmall(sets, i);
      }
    }
  }

  /**
   * After a detour through the other sets as long as the capacity, line 0 is still in its own set
   * but not in the full cache. No line of this trace is beyond twice the capacity.
   */
  lemma DetourEvictsFromFull(sets: nat, ways: nat)
    requires sets > 1 && ways > 0
    ensures Resident(Detour(sets, sets * ways), sets, ways, 0)
    ensures !Resident(Detour(sets, sets * ways), 1, sets * ways, 0)
    ensures Within(Detour(sets, sets * ways), 2 * (sets * ways))
  {
    hide Skip, LastIndex, LinesElsewhere, Within;
    var n := sets * ways;
    var h, others := Detour(sets, n), Elements(LinesElsewhere(sets, n));
    LastIndexInDetour(sets, n);
    DetourSize(sets, n);
    DetourWithin(sets, n);
    forall y | y in LinesElsewhere(sets, n) ensures y % sets != 0 {
      DetourIsElsewhere(sets, n, y);
    }
    assert h[0] == 0;
    assert Since(h, sets, 0) == {};
    assert Since(h, 1, 0) == others;
  }

  /** Hits in the set-associative cache are hits in the full one, for lines up to `limit`. */
  ghost predicate HitsAreFullHits(sets: nat, ways: nat, limit: nat)
    requires sets > 0
  {
    forall h, x ::
      Within(h, limit) && Resident(h, sets, ways, x) ==> Resident(h, 1, sets * ways, x)
  }

  /**
   * When a hit in the set-associative cache is always a hit in the fully associative cache of the
   * same capacity: exactly when there is only one set. This holds for any bound on the line
   * numbers that is at least twice the capacity, and without a bound.
   */
  lemma RealHitIsFullHit(sets: nat, ways: nat, limit: nat)
    requires sets > 0 && ways > 0 && limit >= 2 * (sets * ways)
    ensures HitsAreFullHits(sets, ways, limit) <==> sets == 1
    ensures (forall h, x :: Resident(h, sets, ways, x) ==> Resident(h, 1, sets * ways, x)) <==> sets == 1
  {
    hide Resident;
    if sets > 1 {
      var h := Detour(sets, sets * ways);
      DetourEvictsFromFull(sets, ways);
      assert Within(h, limit);
    }
  }
}
