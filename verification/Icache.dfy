/** The direct-mapped instruction cache: 256 lines of one word. */
module Icache {
  import opened Words
  import opened Memory
  import opened Fields

  datatype Line = Line(valid: bool, tag: bv22, data: Word)

  const LINE_N := 256

  type Lines = s: seq<Line> | |s| == LINE_N witness seq(LINE_N, _ => Line(false, 0, 0))

  function Index(addr: Word): bv8 { ((addr >> 2) & 0xFF) as bv8 }
  function Tag(addr: Word): bv22 { (addr >> 10) as bv22 }

  /** The word address {tag, index, 00}. */
  function LineAddr(tag: bv22, index: bv8): Word {
    (tag as Word << 10) | (index as Word << 2)
  }

  function Lookup(lines: Lines, addr: Word): Line { lines[Index(addr) as int] }

  predicate Hit(lines: Lines, addr: Word) {
    Lookup(lines, addr).valid && Lookup(lines, addr).tag == Tag(addr)
  }

  function Fill(lines: Lines, addr: Word, data: Word): Lines {
    lines[Index(addr) as int := Line(true, Tag(addr), data)]
  }

  lemma LineAddrOf(addr: Word)
    ensures LineAddr(Tag(addr), Index(addr)) == WordBase(addr)
  {
  }

  lemma IndexBytes(addr: Word)
    ensures
      var w := TakeBits(addr, 2, 9);
      ByteOf(w, 0) == Index(addr) && ByteOf(w, 1) == 0 && ByteOf(w, 2) == 0 && ByteOf(w, 3) == 0
  {
  }

  lemma TagIs(addr: Word)
    ensures Tag(addr) as Word == TakeBits(addr, 10, 31)
  {
  }

  lemma PlacementDigits()
    ensures Digit(2, 0) == 2 && Digit(8, 0) == 8 && Digit(10, 0) == 10 && Digit(22, 0) == 22
  {
  }

  /** An address is looked up in the line its bits 2 to 9 name, and the bits above are the tag. */
  lemma Placement(addr: Word)
    ensures Index(addr) as int == Bits(addr, 2, 8) && Value(Tag(addr) as Word) == Bits(addr, 10, 22)
  {
    IndexNumber(addr);
    TagNumber(addr);
  }

  lemma IndexNumber(addr: Word)
    ensures Index(addr) as int == Bits(addr, 2, 8)
  {
    PlacementDigits();
    hide ByteOf, TakeBits, Index, Bits;
    IndexBytes(addr);
    SliceValue(addr, 2, 9);
  }

  lemma TagNumber(addr: Word)
    ensures Value(Tag(addr) as Word) == Bits(addr, 10, 22)
  {
    hide Value, Digit, TakeBits, Tag, Bits;
    PlacementDigits();
    TagIs(addr);
    SliceValue(addr, 10, 31);
  }

  lemma IndexInjective(i: bv8, j: bv8)
    requires i as int == j as int
    ensures i == j
  {
  }

  /** The valid line at `ix`, if any, was fetched and holds the current word of its address. */
  ghost predicate LineCoherent(lines: Lines, ix: bv8, fetched: set<Word>, m: Mem) {
    var line := lines[ix as int];
    line.valid ==> LineAddr(line.tag, ix) in fetched && line.data == BusRead(m, LineAddr(line.tag, ix))
  }

  ghost predicate Coherent(lines: Lines, fetched: set<Word>, m: Mem) {
    forall ix: bv8 :: LineCoherent(lines, ix, fetched, m)
  }

  /** A hit returns the memory word. */
  lemma HitReadsMemory(lines: Lines, fetched: set<Word>, m: Mem, addr: Word)
    requires Coherent(lines, fetched, m) && Hit(lines, addr)
    ensures Lookup(lines, addr).data == BusRead(m, WordBase(addr))
  {
    hide LineAddr, Tag, Index, WordBase, BusRead;
    assert LineCoherent(lines, Index(addr), fetched, m);
    LineAddrOf(addr);
  }

  lemma FillKeepsCoherent(lines: Lines, fetched: set<Word>, m: Mem, addr: Word)
    requires Coherent(lines, fetched, m) && WordBase(addr) in fetched
    ensures Coherent(Fill(lines, addr, BusRead(m, WordBase(addr))), fetched, m)
  {
    hide LineAddr, Tag, Index, WordBase, BusRead;
    var after := Fill(lines, addr, BusRead(m, WordBase(addr)));
    LineAddrOf(addr);
    forall ix: bv8 ensures LineCoherent(after, ix, fetched, m) {
      assert LineCoherent(lines, ix, fetched, m);
      if ix as int == Index(addr) as int {
        IndexInjective(ix, Index(addr));
      }
    }
  }

  /** The line that was just filled hits, and gives back what was filled in. */
  lemma FilledHits(lines: Lines, addr: Word, data: Word)
    ensures Hit(Fill(lines, addr, data), addr) && Lookup(Fill(lines, addr, data), addr).data == data
  {
    hide Tag, Index;
  }

  lemma LineAddrUndone(tag: bv22, ix: bv8)
    ensures Tag(LineAddr(tag, ix)) == tag && Index(LineAddr(tag, ix)) == ix
  {
  }

  lemma SameWord(a: Word, b: Word)
    ensures WordBase(a) == WordBase(b) <==> Tag(a) == Tag(b) && Index(a) == Index(b)
  {
    hide Tag, Index, WordBase, LineAddr;
    LineAddrOf(a);
    LineAddrOf(b);
    LineAddrUndone(Tag(a), Index(a));
    LineAddrUndone(Tag(b), Index(b));
  }

  /** An address hits exactly if its line is valid and holds its word. */
  lemma HitIsSameWord(lines: Lines, addr: Word)
    ensures
      Hit(lines, addr)
      <==> Lookup(lines, addr).valid && LineAddr(Lookup(lines, addr).tag, Index(addr)) == WordBase(addr)
  {
    hide Tag, Index, WordBase, LineAddr;
    LineAddrOf(addr);
    LineAddrUndone(Tag(addr), Index(addr));
    LineAddrUndone(Lookup(lines, addr).tag, Index(addr));
  }

  /** The cache's storage and its write acknowledgement register. */
  class IcacheUnit {
    const lines: array<Line>
    var writeValid: bool

    ghost predicate Valid() {
      lines.Length == LINE_N
    }

    ghost function Contents(): Lines
      requires Valid()
      reads lines
    {
      lines[..]
    }

    function Read(addr: Word): (line: Line)
      requires Valid()
      reads lines
      ensures line == Lookup(Contents(), addr)
    {
      lines[Index(addr) as int]
    }

    constructor ()
      ensures Valid() && fresh(lines)
    {
      lines := new Line[LINE_N](_ => Line(false, 0, 0));
      writeValid := false;
    }

    /** Reset clears the valid bits and nothing else. */
    method Reset()
      requires Valid()
      modifies this, lines
      ensures !writeValid
      ensures forall k :: 0 <= k < LINE_N ==> lines[k] == old(lines[k]).(valid := false)
    {
      for i := 0 to LINE_N
        invariant forall k :: 0 <= k < i ==> lines[k] == old(lines[k]).(valid := false)
        invariant forall k :: i <= k < LINE_N ==> lines[k] == old(lines[k])
      {
        lines[i] := lines[i].(valid := false);
      }
      writeValid := false;
    }

    /** One clock edge: every line looks whether it is the one addressed. */
    method Clock(wen: bool, addr: Word, wdata: Word)
      requires Valid()
      modifies this, lines
      ensures writeValid == wen
      ensures Contents() == if wen then Fill(old(Contents()), addr, wdata) else old(Contents())
    {
      for i := 0 to LINE_N
        invariant forall k :: 0 <= k < i ==>
          lines[k] == if wen && k == Index(addr) as int then Line(true, Tag(addr), wdata) else old(lines[k])
        invariant forall k :: i <= k < LINE_N ==> lines[k] == old(lines[k])
      {
        if wen && i == Index(addr) as int {
          lines[i] := Line(true, Tag(addr), wdata);
        }
      }
      writeValid := wen;
    }
  }
}
