/** The load/store unit: byte lanes, the misaligned split and the four-state controller. */
module Lsu {
  import opened Words
  import opened Memory

  const LSU_BYTE: bv2 := 0
  const LSU_HALF: bv2 := 1
  const LSU_WORD: bv2 := 2
  const LSU_EXTA: bv2 := 3

  function Offset(addr: Word): bv2 { (addr & 3) as bv2 }

  /** An access of this size at this byte offset crosses a word boundary. */
  predicate Split(offset: bv2, size: bv2) {
    (offset != 0 && size == LSU_WORD) || (offset == 3 && size == LSU_HALF)
  }

  /** The address on the bus; the second part of a split access is the next word. */
  function BeatAddr(addr: Word, second: bool): Word {
    if second then ((addr >> 2) + 1) << 2 else addr
  }

  /** Store data rotated left by the byte offset. */
  function RotateData(data: Word, offset: bv2): Word {
    if offset == 0 then data
    else if offset == 1 then (data << 8) | (data >> 24)
    else if offset == 2 then (data << 16) | (data >> 16)
    else (data << 24) | (data >> 8)
  }

  function BeatMask(size: bv2, offset: bv2, second: bool): bv4 {
    if size == LSU_BYTE then
      if offset == 0 then 1 else if offset == 1 then 2 else if offset == 2 then 4 else 8
    else if size == LSU_HALF then
      if second then 1
      else if offset == 0 then 3 else if offset == 1 then 6 else if offset == 2 then 12 else 8
    else if size == LSU_WORD then
      if second then
        if offset == 0 then 15 else if offset == 1 then 1 else if offset == 2 then 3 else 7
      else
        if offset == 0 then 15 else if offset == 1 then 14 else if offset == 2 then 12 else 8
    else 15
  }

  /** The word on the bus shifted so that the addressed byte is lowest; `first` supplies bits 31:8 of the first word. */
  function AlignData(ioData: Word, first: bv24, offset: bv2): Word {
    if offset == 0 then ioData
    else if offset == 1 then (ioData << 24) | first as Word
    else if offset == 2 then (ioData << 16) | ((first >> 8) as Word)
    else (ioData << 8) | ((first >> 16) as Word)
  }

  /** Sign or zero extension of the aligned data to the access size. */
  function ExtendData(data: Word, size: bv2, signed: bool): Word {
    if size == LSU_BYTE then
      Widen(data & 0xFF, signed && data & 0x80 != 0, 0xFFFF_FF00)
    else if size == LSU_HALF then
      Widen(data & 0xFFFF, signed && data & 0x8000 != 0, 0xFFFF_0000)
    else data
  }

  function UpperBits(w: Word): bv24 { (w >> 8) as bv24 }

  // ---------------------------------------------------------------- controller

  datatype LsuState = Idle | WaitOne | WaitMisOne | WaitMisTwo

  /** The registers of the unit. */
  datatype LsuRegs = LsuRegs(state: LsuState, firstRead: bv24, reqHeld: bool)

  const LSU_RESET := LsuRegs(Idle, 0, false)

  /** What the controller drives: a new bus request, the response, the second-part flag, the next state. */
  datatype LsuControl = LsuControl(reqNew: bool, respValid: bool, secondPart: bool, next: LsuState)

  function Control(state: LsuState, reqValid: bool, misaligned: bool, ioResp: bool): LsuControl {
    match state
    case Idle =>
      if !reqValid then LsuControl(false, false, false, Idle)
      else if ioResp then LsuControl(true, !misaligned, false, if misaligned then WaitMisTwo else Idle)
      else LsuControl(true, false, false, if misaligned then WaitMisOne else WaitOne)
    case WaitOne =>
      LsuControl(false, ioResp, false, if ioResp then Idle else WaitOne)
    case WaitMisTwo =>
      LsuControl(false, ioResp, true, if ioResp then Idle else WaitMisTwo)
    case WaitMisOne =>
      if ioResp then LsuControl(true, false, true, WaitMisTwo)
      else LsuControl(false, false, false, WaitMisOne)
  }

  /** A request as the execution unit presents it. */
  datatype Access = Access(isWrite: bool, addr: Word, data: Word, size: bv2, signed: bool)
  {
    predicate Misaligned() { Split(Offset(addr), size) }
  }

  /** One request on the data bus. */
  datatype Beat = Beat(wen: bool, mask: bv4, addr: Word, data: Word)

  function BeatOf(a: Access, second: bool): Beat {
    Beat(a.isWrite, BeatMask(a.size, Offset(a.addr), second), BeatAddr(a.addr, second),
        RotateData(a.data, Offset(a.addr)))
  }

  /** All outputs of the unit in one cycle. */
  datatype LsuOut = LsuOut(respValid: bool, rdata: Word, ioReq: bool, beat: Beat)

  function LsuOutput(r: LsuRegs, reqValid: bool, a: Access, ioResp: bool, ioData: Word): LsuOut {
    var c := Control(r.state, reqValid, a.Misaligned(), ioResp);
    var first := if r.state == WaitMisTwo && ioResp then r.firstRead else UpperBits(ioData);
    LsuOut(c.respValid,
           ExtendData(AlignData(ioData, first, Offset(a.addr)), a.size, a.signed),
           c.reqNew || r.reqHeld,
           BeatOf(a, c.secondPart))
  }

  function LsuNext(r: LsuRegs, reqValid: bool, a: Access, ioResp: bool, ioData: Word): LsuRegs {
    var c := Control(r.state, reqValid, a.Misaligned(), ioResp);
    LsuRegs(c.next, if !a.isWrite && ioResp then UpperBits(ioData) else r.firstRead, c.reqNew)
  }

  // ---------------------------------------------------------------- byte lanes

  /** Golden store mask of an access size. */
  function SizeMask(size: bv2): bv4 {
    if size == LSU_BYTE then 1 else if size == LSU_HALF then 3 else 15
  }

  // Lane `i` of the rotated data carries byte `i - offset` of the store data, modulo four.
  lemma RotatedBy1(data: Word)
    ensures ByteOf(RotateData(data, 1), 0) == ByteOf(data, 3)
    ensures ByteOf(RotateData(data, 1), 1) == ByteOf(data, 0)
    ensures ByteOf(RotateData(data, 1), 2) == ByteOf(data, 1)
    ensures ByteOf(RotateData(data, 1), 3) == ByteOf(data, 2)
  {
  }

  lemma RotatedBy2(data: Word)
    ensures ByteOf(RotateData(data, 2), 0) == ByteOf(data, 2)
    ensures ByteOf(RotateData(data, 2), 1) == ByteOf(data, 3)
    ensures ByteOf(RotateData(data, 2), 2) == ByteOf(data, 0)
    ensures ByteOf(RotateData(data, 2), 3) == ByteOf(data, 1)
  {
  }

  lemma RotatedBy3(data: Word)
    ensures ByteOf(RotateData(data, 3), 0) == ByteOf(data, 1)
    ensures ByteOf(RotateData(data, 3), 1) == ByteOf(data, 2)
    ensures ByteOf(RotateData(data, 3), 2) == ByteOf(data, 3)
    ensures ByteOf(RotateData(data, 3), 3) == ByteOf(data, 0)
  {
  }

  /** The beats of one access, put at the word `w` and the next one. */
  function PutBeats(m: Bytes, w: Word, offset: bv2, size: bv2, data: Word): Bytes {
    var r := RotateData(data, offset);
    var m1 := PutMasked(m, BeatMask(size, offset, false), w, r);
    if Split(offset, size)
    then PutMasked(m1, BeatMask(size, offset, true), w + 4, r)
    else m1
  }

  // Per byte offset: the beats against the unaligned write.
  lemma StoreAtOffset0(m: Bytes, w: Word, size: bv2, d: Word)
    requires size != LSU_EXTA
    ensures PutBeats(m, w, 0, size, d) == PutMasked(m, SizeMask(size), w, d)
  {
    hide ByteOf;
  }

  lemma StoreAt0(m: Bytes, a: Word, size: bv2, d: Word)
    requires size != LSU_EXTA && Offset(a) == 0
    ensures PutBeats(m, WordBase(a), Offset(a), size, d) == PutMasked(m, SizeMask(size), a, d)
  {
    hide PutBeats, PutMasked, SizeMask;
    assert a == WordBase(a);
    StoreAtOffset0(m, WordBase(a), size, d);
  }

  lemma LanesAtOffset1(m: Bytes, w: Word, d: Word)
    ensures var r := RotateData(d, 1);
            && PutMasked(m, 2, w, r) == PutMasked(m, 1, w + 1, d)
            && PutMasked(m, 6, w, r) == PutMasked(m, 3, w + 1, d)
            && PutMasked(PutMasked(m, 14, w, r), 1, w + 4, r) == PutMasked(m, 15, w + 1, d)
  {
    hide ByteOf, RotateData;
    RotatedBy1(d);
  }

  lemma StoreAtOffset1(m: Bytes, w: Word, size: bv2, d: Word)
    requires size != LSU_EXTA
    ensures PutBeats(m, w, 1, size, d) == PutMasked(m, SizeMask(size), w + 1, d)
  {
    hide PutMasked, RotateData;
    LanesAtOffset1(m, w, d);
  }

  lemma StoreAt1(m: Bytes, a: Word, size: bv2, d: Word)
    requires size != LSU_EXTA && Offset(a) == 1
    ensures PutBeats(m, WordBase(a), Offset(a), size, d) == PutMasked(m, SizeMask(size), a, d)
  {
    hide PutBeats, PutMasked, SizeMask;
    assert a == WordBase(a) + 1;
    StoreAtOffset1(m, WordBase(a), size, d);
  }

  lemma LanesAtOffset2(m: Bytes, w: Word, d: Word)
    ensures var r := RotateData(d, 2);
            && PutMasked(m, 4, w, r) == PutMasked(m, 1, w + 2, d)
            && PutMasked(m, 12, w, r) == PutMasked(m, 3, w + 2, d)
            && PutMasked(PutMasked(m, 12, w, r), 3, w + 4, r) == PutMasked(m, 15, w + 2, d)
  {
    hide ByteOf, RotateData;
    RotatedBy2(d);
  }

  lemma StoreAtOffset2(m: Bytes, w: Word, size: bv2, d: Word)
    requires size != LSU_EXTA
    ensures PutBeats(m, w, 2, size, d) == PutMasked(m, SizeMask(size), w + 2, d)
  {
    hide PutMasked, RotateData;
    LanesAtOffset2(m, w, d);
  }

  lemma StoreAt2(m: Bytes, a: Word, size: bv2, d: Word)
    requires size != LSU_EXTA && Offset(a) == 2
    ensures PutBeats(m, WordBase(a), Offset(a), size, d) == PutMasked(m, SizeMask(size), a, d)
  {
    hide PutBeats, PutMasked, SizeMask;
    assert a == WordBase(a) + 2;
    StoreAtOffset2(m, WordBase(a), size, d);
  }

  lemma LanesAtOffset3(m: Bytes, w: Word, d: Word)
    ensures var r := RotateData(d, 3);
            && PutMasked(m, 8, w, r) == PutMasked(m, 1, w + 3, d)
            && PutMasked(PutMasked(m, 8, w, r), 1, w + 4, r) == PutMasked(m, 3, w + 3, d)
            && PutMasked(PutMasked(m, 8, w, r), 7, w + 4, r) == PutMasked(m, 15, w + 3, d)
  {
    hide ByteOf, RotateData;
    RotatedBy3(d);
  }

  lemma StoreAtOffset3(m: Bytes, w: Word, size: bv2, d: Word)
    requires size != LSU_EXTA
    ensures PutBeats(m, w, 3, size, d) == PutMasked(m, SizeMask(size), w + 3, d)
  {
    hide PutMasked, RotateData;
    LanesAtOffset3(m, w, d);
  }

  lemma StoreAt3(m: Bytes, a: Word, size: bv2, d: Word)
    requires size != LSU_EXTA && Offset(a) == 3
    ensures PutBeats(m, WordBase(a), Offset(a), size, d) == PutMasked(m, SizeMask(size), a, d)
  {
    hide PutBeats, PutMasked, SizeMask;
    assert a == WordBase(a) + 3;
    StoreAtOffset3(m, WordBase(a), size, d);
  }

  /** The beats of an access at byte offset `a` leave what the unaligned masked write leaves. */
  lemma BeatsStore(m: Bytes, a: Word, size: bv2, d: Word)
    requires size != LSU_EXTA
    ensures PutBeats(m, WordBase(a), Offset(a), size, d) == PutMasked(m, SizeMask(size), a, d)
  {
    hide PutBeats, PutMasked, SizeMask, Offset;
    if Offset(a) == 0 {
      StoreAt0(m, a, size, d);
    } else if Offset(a) == 1 {
      StoreAt1(m, a, size, d);
    } else if Offset(a) == 2 {
      StoreAt2(m, a, size, d);
    } else {
      StoreAt3(m, a, size, d);
    }
  }

  // The held upper part of a word and the word after it, seen through the byte aligner.
  lemma AlignedAt1(b7: Byte, b6: Byte, b5: Byte, b4: Byte, b3: Byte, b2: Byte, b1: Byte, b0: Byte)
    ensures AlignData(Join(b7, b6, b5, b4), UpperBits(Join(b3, b2, b1, b0)), 1) == Join(b4, b3, b2, b1)
  {
  }

  lemma AlignedAt2(b7: Byte, b6: Byte, b5: Byte, b4: Byte, b3: Byte, b2: Byte, b1: Byte, b0: Byte)
    ensures AlignData(Join(b7, b6, b5, b4), UpperBits(Join(b3, b2, b1, b0)), 2) == Join(b5, b4, b3, b2)
  {
  }

  lemma AlignedAt3(b7: Byte, b6: Byte, b5: Byte, b4: Byte, b3: Byte, b2: Byte, b1: Byte, b0: Byte)
    ensures AlignData(Join(b7, b6, b5, b4), UpperBits(Join(b3, b2, b1, b0)), 3) == Join(b6, b5, b4, b3)
  {
  }

  lemma LowByteOfJoin(b3: Byte, b2: Byte, b1: Byte, b0: Byte, c3: Byte, c2: Byte, c1: Byte)
    ensures Join(b3, b2, b1, b0) & 0xFF == Join(c3, c2, c1, b0) & 0xFF
    ensures Join(b3, b2, b1, b0) & 0x80 == Join(c3, c2, c1, b0) & 0x80
  {
  }

  lemma LowHalfOfJoin(b3: Byte, b2: Byte, b1: Byte, b0: Byte)
    ensures Join(b3, b2, b1, b0) & 0xFFFF == Join(0, 0, b1, b0)
  {
  }

  lemma SignOfJoin(b3: Byte, b2: Byte, b1: Byte, b0: Byte, c3: Byte, c2: Byte)
    ensures Join(b3, b2, b1, b0) & 0x8000 == Join(c3, c2, b1, b0) & 0x8000
  {
  }

  // Bytes beyond the access size do not reach the result.
  lemma ExtendIgnoresBytes(b3: Byte, b2: Byte, b1: Byte, b0: Byte, c3: Byte, c2: Byte, c1: Byte, signed: bool)
    ensures ExtendData(Join(b3, b2, b1, b0), LSU_BYTE, signed) == ExtendData(Join(c3, c2, c1, b0), LSU_BYTE, signed)
  {
    hide Widen, Join;
    LowByteOfJoin(b3, b2, b1, b0, c3, c2, c1);
  }

  lemma ExtendIgnoresHalf(b3: Byte, b2: Byte, b1: Byte, b0: Byte, c3: Byte, c2: Byte, signed: bool)
    ensures ExtendData(Join(b3, b2, b1, b0), LSU_HALF, signed) == ExtendData(Join(c3, c2, b1, b0), LSU_HALF, signed)
  {
    hide Widen, Join;
    LowHalfOfJoin(b3, b2, b1, b0);
    LowHalfOfJoin(c3, c2, b1, b0);
    SignOfJoin(b3, b2, b1, b0, c3, c2);
  }

  lemma ExtendIgnores(b3: Byte, b2: Byte, b1: Byte, b0: Byte, c3: Byte, c2: Byte, c1: Byte, signed: bool)
    ensures ExtendData(Join(b3, b2, b1, b0), LSU_BYTE, signed) == ExtendData(Join(c3, c2, c1, b0), LSU_BYTE, signed)
    ensures ExtendData(Join(b3, b2, b1, b0), LSU_HALF, signed) == ExtendData(Join(c3, c2, b1, b0), LSU_HALF, signed)
  {
    hide ExtendData, Join;
    ExtendIgnoresBytes(b3, b2, b1, b0, c3, c2, c1, signed);
    ExtendIgnoresHalf(b3, b2, b1, b0, c3, c2, signed);
  }

  /** What the unit returns for a load from the word `w`: the first word, held if a second one is needed. */
  function LoadBeats(m: Bytes, w: Word, offset: bv2, size: bv2, signed: bool): Word {
    var first := WordAt(m, w);
    var last := if Split(offset, size) then WordAt(m, w + 4) else first;
    ExtendData(AlignData(last, UpperBits(first), offset), size, signed)
  }

  lemma LoadAtOffset0(m: Bytes, w: Word, size: bv2, signed: bool)
    requires size != LSU_EXTA
    ensures LoadBeats(m, w, 0, size, signed) == ExtendData(WordAt(m, w), size, signed)
  {
    hide ByteAt, Join, ExtendData, UpperBits;
  }

  lemma LoadAt0(m: Bytes, a: Word, size: bv2, signed: bool)
    requires size != LSU_EXTA && Offset(a) == 0
    ensures LoadBeats(m, WordBase(a), Offset(a), size, signed) == ExtendData(WordAt(m, a), size, signed)
  {
    hide LoadBeats, ExtendData, WordAt;
    assert a == WordBase(a);
    LoadAtOffset0(m, WordBase(a), size, signed);
  }

  lemma LoadAtOffset1(m: Bytes, w: Word, size: bv2, signed: bool)
    requires size != LSU_EXTA
    ensures LoadBeats(m, w, 1, size, signed) == ExtendData(WordAt(m, w + 1), size, signed)
  {
    hide ByteAt, Join, AlignData, ExtendData, UpperBits;
    assert WordAt(m, w + 1) == Join(ByteAt(m, w + 4), ByteAt(m, w + 3), ByteAt(m, w + 2), ByteAt(m, w + 1));
    if Split(1, size) {
      AlignedAt1(ByteAt(m, w + 7), ByteAt(m, w + 6), ByteAt(m, w + 5), ByteAt(m, w + 4),
                 ByteAt(m, w + 3), ByteAt(m, w + 2), ByteAt(m, w + 1), ByteAt(m, w));
    } else {
      AlignedAt1(ByteAt(m, w + 3), ByteAt(m, w + 2), ByteAt(m, w + 1), ByteAt(m, w),
                 ByteAt(m, w + 3), ByteAt(m, w + 2), ByteAt(m, w + 1), ByteAt(m, w));
      ExtendIgnores(ByteAt(m, w), ByteAt(m, w + 3), ByteAt(m, w + 2), ByteAt(m, w + 1),
                    ByteAt(m, w + 4), ByteAt(m, w + 3), ByteAt(m, w + 2), signed);
    }
  }

  lemma LoadAt1(m: Bytes, a: Word, size: bv2, signed: bool)
    requires size != LSU_EXTA && Offset(a) == 1
    ensures LoadBeats(m, WordBase(a), Offset(a), size, signed) == ExtendData(WordAt(m, a), size, signed)
  {
    hide LoadBeats, ExtendData, WordAt;
    assert a == WordBase(a) + 1;
    LoadAtOffset1(m, WordBase(a), size, signed);
  }

  lemma LoadAtOffset2(m: Bytes, w: Word, size: bv2, signed: bool)
    requires size != LSU_EXTA
    ensures LoadBeats(m, w, 2, size, signed) == ExtendData(WordAt(m, w + 2), size, signed)
  {
    hide ByteAt, Join, AlignData, ExtendData, UpperBits;
    assert WordAt(m, w + 2) == Join(ByteAt(m, w + 5), ByteAt(m, w + 4), ByteAt(m, w + 3), ByteAt(m, w + 2));
    if Split(2, size) {
      AlignedAt2(ByteAt(m, w + 7), ByteAt(m, w + 6), ByteAt(m, w + 5), ByteAt(m, w + 4),
                 ByteAt(m, w + 3), ByteAt(m, w + 2), ByteAt(m, w + 1), ByteAt(m, w));
    } else {
      AlignedAt2(ByteAt(m, w + 3), ByteAt(m, w + 2), ByteAt(m, w + 1), ByteAt(m, w),
                 ByteAt(m, w + 3), ByteAt(m, w + 2), ByteAt(m, w + 1), ByteAt(m, w));
      ExtendIgnores(ByteAt(m, w + 1), ByteAt(m, w), ByteAt(m, w + 3), ByteAt(m, w + 2),
                    ByteAt(m, w + 5), ByteAt(m, w + 4), ByteAt(m, w + 3), signed);
    }
  }

  lemma LoadAt2(m: Bytes, a: Word, size: bv2, signed: bool)
    requires size != LSU_EXTA && Offset(a) == 2
    ensures LoadBeats(m, WordBase(a), Offset(a), size, signed) == ExtendData(WordAt(m, a), size, signed)
  {
    hide LoadBeats, ExtendData, WordAt;
    assert a == WordBase(a) + 2;
    LoadAtOffset2(m, WordBase(a), size, signed);
  }

  lemma LoadAtOffset3(m: Bytes, w: Word, size: bv2, signed: bool)
    requires size != LSU_EXTA
    ensures LoadBeats(m, w, 3, size, signed) == ExtendData(WordAt(m, w + 3), size, signed)
  {
    hide ByteAt, Join, AlignData, ExtendData, UpperBits;
    assert WordAt(m, w + 3) == Join(ByteAt(m, w + 6), ByteAt(m, w + 5), ByteAt(m, w + 4), ByteAt(m, w + 3));
    if Split(3, size) {
      AlignedAt3(ByteAt(m, w + 7), ByteAt(m, w + 6), ByteAt(m, w + 5), ByteAt(m, w + 4),
                 ByteAt(m, w + 3), ByteAt(m, w + 2), ByteAt(m, w + 1), ByteAt(m, w));
    } else {
      AlignedAt3(ByteAt(m, w + 3), ByteAt(m, w + 2), ByteAt(m, w + 1), ByteAt(m, w),
                 ByteAt(m, w + 3), ByteAt(m, w + 2), ByteAt(m, w + 1), ByteAt(m, w));
      ExtendIgnores(ByteAt(m, w + 2), ByteAt(m, w + 1), ByteAt(m, w), ByteAt(m, w + 3),
                    ByteAt(m, w + 6), ByteAt(m, w + 5), ByteAt(m, w + 4), signed);
    }
  }

  lemma LoadAt3(m: Bytes, a: Word, size: bv2, signed: bool)
    requires size != LSU_EXTA && Offset(a) == 3
    ensures LoadBeats(m, WordBase(a), Offset(a), size, signed) == ExtendData(WordAt(m, a), size, signed)
  {
    hide LoadBeats, ExtendData, WordAt;
    assert a == WordBase(a) + 3;
    LoadAtOffset3(m, WordBase(a), size, signed);
  }

  /** A load at byte offset `a` returns the unaligned word there, cut and extended to the access size. */
  lemma BeatsLoad(m: Bytes, a: Word, size: bv2, signed: bool)
    requires size != LSU_EXTA
    ensures LoadBeats(m, WordBase(a), Offset(a), size, signed) == ExtendData(WordAt(m, a), size, signed)
  {
    hide LoadBeats, ExtendData, WordAt, Offset;
    if Offset(a) == 0 {
      LoadAt0(m, a, size, signed);
    } else if Offset(a) == 1 {
      LoadAt1(m, a, size, signed);
    } else if Offset(a) == 2 {
      LoadAt2(m, a, size, signed);
    } else {
      LoadAt3(m, a, size, signed);
    }
  }

  // ---------------------------------------------------------------- whole accesses

  function WriteBeat(m: Mem, b: Beat): Mem {
    if b.wen then BusWrite(m, b.mask, b.addr, b.data) else m
  }

  lemma BeatOffsets(addr: Word)
    requires Mapped(addr)
    ensures InRam(addr) ==> Offset(RamOffset(addr)) == Offset(addr)
    ensures InFlash(addr) ==> Offset(FlashOffset(addr)) == Offset(addr)
  {
  }

  lemma SecondBeatMapped(a: Access)
    requires Mapped(a.addr) && a.Misaligned()
    ensures InRam(a.addr) ==> InRam(BeatAddr(a.addr, true))
    ensures InFlash(a.addr) ==> InFlash(BeatAddr(a.addr, true))
  {
  }

  lemma SecondBeatOffset(addr: Word)
    ensures WordBase(RamOffset(BeatAddr(addr, true))) == WordBase(RamOffset(addr)) + 4
    ensures WordBase(FlashOffset(BeatAddr(addr, true))) == WordBase(FlashOffset(addr)) + 4
  {
  }

  /** Memory after the beats of a store. */
  function AfterStore(m: Mem, a: Access): Mem {
    var m1 := WriteBeat(m, BeatOf(a, false));
    if a.Misaligned() then WriteBeat(m1, BeatOf(a, true)) else m1
  }

  lemma StoreRefinesRam(m: Mem, a: Access)
    requires a.isWrite && a.size != LSU_EXTA && InRam(a.addr)
    ensures AfterStore(m, a) == GoldenWrite(m, SizeMask(a.size), a.addr, a.data)
  {
    hide PutMasked, RotateData, BeatMask, SizeMask, Offset, InRam, InFlash, RamOffset, FlashOffset, WordBase;
    BeatsStore(m.ram, RamOffset(a.addr), a.size, a.data);
    BeatOffsets(a.addr);
    if a.Misaligned() {
      SecondBeatMapped(a);
      SecondBeatOffset(a.addr);
    }
  }

  lemma StoreToFlashIgnored(m: Mem, a: Access)
    requires a.isWrite && InFlash(a.addr)
    ensures AfterStore(m, a) == m
  {
    hide PutMasked, RotateData, BeatMask, SizeMask, Offset, InRam, InFlash;
    RegionsDisjoint(a.addr);
    if a.Misaligned() {
      SecondBeatMapped(a);
      RegionsDisjoint(BeatAddr(a.addr, true));
    }
  }

  /** The one or two beats of a store together are the golden model's unaligned masked write. */
  lemma StoreRefines(m: Mem, a: Access)
    requires a.isWrite && a.size != LSU_EXTA && Mapped(a.addr)
    ensures AfterStore(m, a) == GoldenWrite(m, SizeMask(a.size), a.addr, a.data)
  {
    hide AfterStore, PutMasked, InRam, InFlash;
    if InRam(a.addr) {
      StoreRefinesRam(m, a);
    } else {
      StoreToFlashIgnored(m, a);
    }
  }

  /** The value a load returns from the words on the bus. */
  function BusLoad(m: Mem, a: Access): Word {
    var first := BusRead(m, BeatAddr(a.addr, false));
    var last := if a.Misaligned() then BusRead(m, BeatAddr(a.addr, true)) else first;
    ExtendData(AlignData(last, UpperBits(first), Offset(a.addr)), a.size, a.signed)
  }

  /** A load assembled from one or two words is the golden model's unaligned read, extended. */
  lemma LoadRefines(m: Mem, a: Access)
    requires a.size != LSU_EXTA && Mapped(a.addr)
    ensures BusLoad(m, a) == ExtendData(GoldenRead(m, a.addr), a.size, a.signed)
  {
    hide AlignData, ExtendData, UpperBits, WordAt, Offset, InRam, InFlash, RamOffset, FlashOffset, WordBase;
    BeatOffsets(a.addr);
    SecondBeatOffset(a.addr);
    RegionsDisjoint(a.addr);
    RegionsDisjoint(BeatAddr(a.addr, true));
    if a.Misaligned() {
      SecondBeatMapped(a);
    }
    if InFlash(a.addr) {
      BeatsLoad(m.flash, FlashOffset(a.addr), a.size, a.signed);
    } else {
      BeatsLoad(m.ram, RamOffset(a.addr), a.size, a.signed);
    }
  }

  // ---------------------------------------------------------------- registers

  class LsuUnit {
    var state: LsuState
    var firstRead: bv24
    var reqHeld: bool

    function Registers(): LsuRegs
      reads this
    {
      LsuRegs(state, firstRead, reqHeld)
    }

    constructor ()
      ensures Registers() == LSU_RESET
    {
      state, firstRead, reqHeld := Idle, 0, false;
    }

    method Reset()
      modifies this
      ensures Registers() == LSU_RESET
    {
      state, firstRead, reqHeld := Idle, 0, false;
    }

    /** The combinational block: the controller's defaults, then the case of the state. */
    method Combine(reqValid: bool, a: Access, ioResp: bool, ioData: Word) returns (out: LsuOut, c: LsuControl)
      ensures c == Control(state, reqValid, a.Misaligned(), ioResp)
      ensures out == LsuOutput(Registers(), reqValid, a, ioResp, ioData)
    {
      hide AlignData, ExtendData, UpperBits, BeatOf, Split;
      var reqNew, respValid, secondPart, first, next := false, false, false, UpperBits(ioData), Idle;
      match state {
        case Idle =>
          if reqValid {
            reqNew := true;
            if ioResp {
              respValid := !a.Misaligned();
              next := if a.Misaligned() then WaitMisTwo else Idle;
            } else {
              next := if a.Misaligned() then WaitMisOne else WaitOne;
            }
          }
        case WaitOne =>
          if ioResp {
            respValid := true;
          } else {
            next := WaitOne;
          }
        case WaitMisTwo =>
          secondPart := true;
          if ioResp {
            first := firstRead;
            respValid := true;
          } else {
            next := WaitMisTwo;
          }
        case WaitMisOne =>
          if ioResp {
            secondPart := true;
            reqNew := true;
            next := WaitMisTwo;
          } else {
            next := WaitMisOne;
          }
      }
      c := LsuControl(reqNew, respValid, secondPart, next);
      var rdata := ExtendData(AlignData(ioData, first, Offset(a.addr)), a.size, a.signed);
      out := LsuOut(respValid, rdata, reqNew || reqHeld, BeatOf(a, secondPart));
    }

    method Clock(c: LsuControl, isWrite: bool, ioResp: bool, ioData: Word)
      modifies this
      ensures Registers() == LsuRegs(c.next, if !isWrite && ioResp then UpperBits(ioData) else old(firstRead), c.reqNew)
    {
      state := c.next;
      reqHeld := c.reqNew;
      if !isWrite && ioResp {
        firstRead := UpperBits(ioData);
      }
    }
  }
}
