/** The two instruction decoders: `decode` of the golden model and the combinational part of `idu`. */
module Decode {
  import opened Words
  import opened Alu

  const OPCODE_LUI: bv7 := 0x37
  const OPCODE_AUIPC: bv7 := 0x17
  const OPCODE_JAL: bv7 := 0x6F
  const OPCODE_JALR: bv7 := 0x67
  const OPCODE_BRANCH: bv7 := 0x63
  const OPCODE_LOAD: bv7 := 0x03
  const OPCODE_STORE: bv7 := 0x23
  const OPCODE_CALC_IMM: bv7 := 0x13
  const OPCODE_CALC_REG: bv7 := 0x33
  const OPCODE_SYSTEM: bv7 := 0x73

  const FUNCT3_ADD: bv3 := 0
  const FUNCT3_SR: bv3 := 5

  function Opcode(inst: Word): bv7 { TakeBits(inst, 0, 6) as bv7 }
  function Rd(inst: Word): bv5 { TakeBits(inst, 7, 11) as bv5 }
  function Funct3(inst: Word): bv3 { TakeBits(inst, 12, 14) as bv3 }
  function Rs1(inst: Word): bv5 { TakeBits(inst, 15, 19) as bv5 }
  function Rs2(inst: Word): bv5 { TakeBits(inst, 20, 24) as bv5 }

  // ---------------------------------------------------------------- golden model

  /** Instruction classes of the golden model. */
  datatype GoldenKind =
    | Undefined
    | LoadByte | LoadHalf | LoadWord
    | StoreAny
    | Branch | Imm | Reg | Upper | Jump | JumpReg | AddUpperPc

  datatype GoldenDecoded = GoldenDecoded(
    rd: bv5, rs1: bv5, rs2: bv5,
    imm: Word,
    writeMask: bv4,
    memSigned: bool,
    aluOp: bv4,
    comOp: bv3,
    halt: bool,
    kind: GoldenKind)

  // The five immediates of the golden model: ones above the field when the sign bit is set.
  function IImm(inst: Word): Word {
    Widen(TakeBits(inst, 20, 31), TakeBit(inst, 31) == 1, 0xFFFF_F000)
  }
  function UImm(inst: Word): Word {
    TakeBits(inst, 12, 31) << 12
  }
  function SImm(inst: Word): Word {
    Widen((TakeBits(inst, 25, 31) << 5) | TakeBits(inst, 7, 11), TakeBit(inst, 31) == 1, 0xFFFF_F000)
  }
  function JImm(inst: Word): Word {
    Widen((TakeBits(inst, 12, 19) << 12) | (TakeBit(inst, 20) << 11) | (TakeBits(inst, 21, 30) << 1),
          TakeBit(inst, 31) == 1, 0xFFF0_0000)
  }
  function BImm(inst: Word): Word {
    Widen((TakeBit(inst, 7) << 11) | (TakeBits(inst, 25, 30) << 5) | (TakeBits(inst, 8, 11) << 1),
          TakeBit(inst, 31) == 1, 0xFFFF_F000)
  }

  function LoadKind(funct3: bv3): GoldenKind {
    if funct3 == 0 || funct3 == 4 then LoadByte
    else if funct3 == 1 || funct3 == 5 then LoadHalf
    else if funct3 == 2 then LoadWord
    else Undefined
  }

  function StoreMask(funct3: bv3): bv4 {
    if funct3 == 0 then 1 else if funct3 == 1 then 3 else if funct3 == 2 then 15 else 0
  }

  // The ALU operation of a calculation: bit 30 selects the alternative one.
  function AluCode(alternate: bool, funct3: bv3): bv4 {
    (if alternate then 8 else 0) | funct3 as bv4
  }

  function CalcImmOp(inst: Word): bv4 {
    AluCode(TakeBit(inst, 30) == 1 && Funct3(inst) == FUNCT3_SR, Funct3(inst))
  }

  function CalcRegOp(inst: Word): bv4 {
    AluCode(TakeBit(inst, 30) == 1 && (Funct3(inst) == FUNCT3_ADD || Funct3(inst) == FUNCT3_SR), Funct3(inst))
  }

  function GoldenDecode(inst: Word): GoldenDecoded {
    var opcode, funct3 := Opcode(inst), Funct3(inst);
    var out := GoldenDecoded(Rd(inst), Rs1(inst), Rs2(inst), 0, 0, funct3 & 4 == 0, ALU_OP_ADD, 0, false, Undefined);
    if opcode == OPCODE_CALC_IMM then
      out.(imm := IImm(inst), kind := Imm, aluOp := CalcImmOp(inst))
    else if opcode == OPCODE_CALC_REG then
      out.(kind := Reg, aluOp := CalcRegOp(inst))
    else if opcode == OPCODE_LOAD then
      out.(imm := IImm(inst),
           kind := LoadKind(funct3))
    else if opcode == OPCODE_STORE then
      out.(imm := SImm(inst), kind := StoreAny,
           writeMask := StoreMask(funct3))
    else if opcode == OPCODE_LUI then out.(imm := UImm(inst), kind := Upper)
    else if opcode == OPCODE_AUIPC then out.(imm := UImm(inst), kind := AddUpperPc)
    else if opcode == OPCODE_JALR then out.(imm := IImm(inst), kind := JumpReg)
    else if opcode == OPCODE_JAL then out.(imm := JImm(inst), kind := Jump)
    else if opcode == OPCODE_BRANCH then out.(imm := BImm(inst), kind := Branch, comOp := funct3)
    else if opcode == OPCODE_SYSTEM then out.(halt := TakeBit(inst, 20) == 1)
    else out
  }

  // ---------------------------------------------------------------- hardware

  // Bits 0-2 of a type give the base type, bit 3 enables the register write,
  // bit 4 marks a memory instruction and bit 5 a system instruction.
  const INST_EBREAK: bv6 := 0x28
  const INST_CSR: bv6 := 0x29
  const INST_CSRI: bv6 := 0x2D
  const INST_BRANCH: bv6 := 0x05
  const INST_JUMPR: bv6 := 0x09
  const INST_JUMP: bv6 := 0x0D
  const INST_REG: bv6 := 0x08
  const INST_IMM: bv6 := 0x0A
  const INST_AUIPC: bv6 := 0x0C
  const INST_UPP: bv6 := 0x0E
  const INST_LOAD: bv3 := 3
  const INST_STORE: bv3 := 2
  const INST_SYSTEM: bv3 := 5

  datatype RtlDecoded = RtlDecoded(
    rd: bv5, rs1: bv5, rs2: bv5,
    imm: Word,
    aluOp: bv4,
    comOp: bv3,
    instType: bv6)
  {
    predicate WritesRegister() { instType & 0x08 != 0 }
    predicate IsMemory() { instType & 0x10 != 0 }
    function Class(): bv3 { (instType >> 3) as bv3 }
    predicate IsLoad() { Class() == INST_LOAD }
    predicate IsStore() { Class() == INST_STORE }
    predicate IsSystem() { Class() == INST_SYSTEM }
    predicate IsCalc() { instType & 0x31 == 0 }
    predicate IsJump() { instType == INST_JUMP || instType == INST_JUMPR }
    predicate IsBranch() { instType == INST_BRANCH }
    function Size(): bv2 { (instType & 3) as bv2 }
    predicate Signed() { instType & 4 == 0 }
  }

  /** The wires `w[hi:lo]`, moved down to bit 0: what lies above is shifted out first. */
  function Slice(w: Word, hi: Word, lo: Word): Word
    requires lo <= hi < 32
  {
    (w << (31 - hi)) >> (31 - hi + lo)
  }

  /** The sign bit, replicated from bit `lo` upwards. */
  function SignAbove(inst: Word, lo: Word): Word
    requires lo < 32
  {
    if Negative(inst) then 0xFFFF_FFFF << lo else 0
  }

  // The concatenations of the five immediates, each slice shifted into its place.
  function ConcatI(sign: Word, low: Word): Word { sign | low }
  function ConcatU(high: Word): Word { high << 12 }
  function ConcatS(sign: Word, mid: Word, low: Word): Word { sign | (mid << 5) | low }
  function ConcatJ(sign: Word, high: Word, bit11: Word, low: Word): Word {
    sign | (high << 12) | (bit11 << 11) | (low << 1)
  }
  function ConcatB(sign: Word, bit11: Word, mid: Word, low: Word): Word {
    sign | (bit11 << 11) | (mid << 5) | (low << 1)
  }

  // The immediates of `idu`: slices of the instruction under its replicated sign.
  function RtlIImm(inst: Word): Word { ConcatI(SignAbove(inst, 12), Slice(inst, 31, 20)) }
  function RtlUImm(inst: Word): Word { ConcatU(Slice(inst, 31, 12)) }
  function RtlSImm(inst: Word): Word { ConcatS(SignAbove(inst, 12), Slice(inst, 31, 25), Slice(inst, 11, 7)) }
  function RtlJImm(inst: Word): Word {
    ConcatJ(SignAbove(inst, 20), Slice(inst, 19, 12), Slice(inst, 20, 20), Slice(inst, 30, 21))
  }
  function RtlBImm(inst: Word): Word {
    ConcatB(SignAbove(inst, 12), Slice(inst, 7, 7), Slice(inst, 30, 25), Slice(inst, 11, 8))
  }

  /** The type of a load or store: its class above the function code. */
  function MemoryType(base: bv3, funct3: bv3): bv6 {
    (base as bv6 << 3) | funct3 as bv6
  }

  function SystemOp(funct3: bv3): bv4 {
    (if funct3 & 1 != 0 then 8 else 0) | (if funct3 & 2 != 0 then 4 else 0) | 2
  }

  function SystemType(funct3: bv3): bv6 {
    (INST_SYSTEM as bv6 << 3) | (funct3 & 4) as bv6 | (if funct3 & 3 != 0 then 1 else 0)
  }

  /** The decoder of `idu`. */
  function RtlDecode(inst: Word): RtlDecoded {
    var opcode, funct3 := Opcode(inst), Funct3(inst);
    var out := RtlDecoded(Rd(inst), Rs1(inst), Rs2(inst), 0, ALU_OP_ADD, COM_OP_ONE, 0);
    if opcode == OPCODE_CALC_IMM then
      out.(imm := RtlIImm(inst), instType := INST_IMM, aluOp := CalcImmOp(inst))
    else if opcode == OPCODE_CALC_REG then
      out.(instType := INST_REG, aluOp := CalcRegOp(inst))
    else if opcode == OPCODE_LOAD then
      out.(imm := RtlIImm(inst), instType := MemoryType(INST_LOAD, funct3))
    else if opcode == OPCODE_STORE then
      out.(imm := RtlSImm(inst), instType := MemoryType(INST_STORE, funct3))
    else if opcode == OPCODE_LUI then out.(imm := RtlUImm(inst), aluOp := ALU_OP_RHS, instType := INST_UPP)
    else if opcode == OPCODE_AUIPC then out.(imm := RtlUImm(inst), instType := INST_AUIPC)
    else if opcode == OPCODE_JAL then out.(imm := RtlJImm(inst), instType := INST_JUMP)
    else if opcode == OPCODE_JALR then out.(imm := RtlIImm(inst), instType := INST_JUMPR)
    else if opcode == OPCODE_BRANCH then out.(imm := RtlBImm(inst), comOp := funct3, instType := INST_BRANCH)
    else if opcode == OPCODE_SYSTEM then
      out.(imm := RtlIImm(inst),
           aluOp := SystemOp(funct3), instType := SystemType(funct3))
    else out
  }

  lemma SignBit(w: Word)
    ensures (TakeBit(w, 31) == 1) == Negative(w)
  {
  }

  lemma SlicesI(inst: Word)
    ensures Slice(inst, 31, 20) == TakeBits(inst, 20, 31) && Slice(inst, 31, 12) == TakeBits(inst, 12, 31)
  {
  }

  lemma SlicesS(inst: Word)
    ensures Slice(inst, 31, 25) == TakeBits(inst, 25, 31) && Slice(inst, 11, 7) == TakeBits(inst, 7, 11)
  {
  }

  lemma SlicesJ(inst: Word)
    ensures Slice(inst, 19, 12) == TakeBits(inst, 12, 19) && Slice(inst, 20, 20) == TakeBit(inst, 20)
    ensures Slice(inst, 30, 21) == TakeBits(inst, 21, 30)
  {
  }

  lemma SlicesB(inst: Word)
    ensures Slice(inst, 7, 7) == TakeBit(inst, 7) && Slice(inst, 30, 25) == TakeBits(inst, 25, 30)
    ensures Slice(inst, 11, 8) == TakeBits(inst, 8, 11)
  {
  }

  lemma SignAbove12(inst: Word)
    ensures SignAbove(inst, 12) == if Negative(inst) then 0xFFFF_F000 else 0
  {
    hide Negative;
    assert (0xFFFF_FFFF as Word) << 12 == 0xFFFF_F000;
  }

  lemma SignAbove20(inst: Word)
    ensures SignAbove(inst, 20) == if Negative(inst) then 0xFFF0_0000 else 0
  {
    hide Negative;
    assert (0xFFFF_FFFF as Word) << 20 == 0xFFF0_0000;
  }

  // A concatenation without and with the sign.
  lemma PositiveI(a: Word)
    ensures ConcatI(0, a) == Widen(a, false, 0xFFFF_F000)
  {
  }

  lemma NegativeI(a: Word)
    ensures ConcatI(0xFFFF_F000, a) == Widen(a, true, 0xFFFF_F000)
  {
  }

  lemma PositiveS(a: Word, b: Word)
    ensures ConcatS(0, a, b) == Widen((a << 5) | b, false, 0xFFFF_F000)
  {
  }

  lemma NegativeS(a: Word, b: Word)
    ensures ConcatS(0xFFFF_F000, a, b) == Widen((a << 5) | b, true, 0xFFFF_F000)
  {
  }

  lemma PositiveJ(a: Word, b: Word, c: Word)
    ensures ConcatJ(0, a, b, c) == Widen((a << 12) | (b << 11) | (c << 1), false, 0xFFF0_0000)
  {
  }

  lemma NegativeJ(a: Word, b: Word, c: Word)
    ensures ConcatJ(0xFFF0_0000, a, b, c) == Widen((a << 12) | (b << 11) | (c << 1), true, 0xFFF0_0000)
  {
  }

  lemma PositiveB(a: Word, b: Word, c: Word)
    ensures ConcatB(0, a, b, c) == Widen((a << 11) | (b << 5) | (c << 1), false, 0xFFFF_F000)
  {
  }

  lemma NegativeB(a: Word, b: Word, c: Word)
    ensures ConcatB(0xFFFF_F000, a, b, c) == Widen((a << 11) | (b << 5) | (c << 1), true, 0xFFFF_F000)
  {
  }

  // The replicated sign is what the golden model fills in above the fields.
  lemma IExtended(inst: Word)
    ensures ConcatI(SignAbove(inst, 12), TakeBits(inst, 20, 31)) == IImm(inst)
  {
    hide TakeBits, TakeBit, Negative, SignAbove, ConcatI, Widen;
    SignBit(inst);
    SignAbove12(inst);
    if Negative(inst) {
      NegativeI(TakeBits(inst, 20, 31));
    } else {
      PositiveI(TakeBits(inst, 20, 31));
    }
  }

  lemma IImmAgrees(inst: Word)
    ensures RtlIImm(inst) == IImm(inst)
  {
    hide TakeBits, TakeBit, Slice, SignAbove, IImm, ConcatI;
    SlicesI(inst);
    IExtended(inst);
  }

  lemma SExtended(inst: Word)
    ensures ConcatS(SignAbove(inst, 12), TakeBits(inst, 25, 31), TakeBits(inst, 7, 11)) == SImm(inst)
  {
    hide TakeBits, TakeBit, Negative, SignAbove, ConcatS, Widen;
    SignBit(inst);
    SignAbove12(inst);
    if Negative(inst) {
      NegativeS(TakeBits(inst, 25, 31), TakeBits(inst, 7, 11));
    } else {
      PositiveS(TakeBits(inst, 25, 31), TakeBits(inst, 7, 11));
    }
  }

  lemma SImmAgrees(inst: Word)
    ensures RtlSImm(inst) == SImm(inst)
  {
    hide TakeBits, TakeBit, Slice, SignAbove, SImm, ConcatS;
    SlicesS(inst);
    SExtended(inst);
  }

  lemma JExtended(inst: Word)
    ensures ConcatJ(SignAbove(inst, 20), TakeBits(inst, 12, 19), TakeBit(inst, 20), TakeBits(inst, 21, 30))
        == JImm(inst)
  {
    hide TakeBits, TakeBit, Negative, SignAbove, ConcatJ, Widen;
    SignBit(inst);
    SignAbove20(inst);
    if Negative(inst) {
      NegativeJ(TakeBits(inst, 12, 19), TakeBit(inst, 20), TakeBits(inst, 21, 30));
    } else {
      PositiveJ(TakeBits(inst, 12, 19), TakeBit(inst, 20), TakeBits(inst, 21, 30));
    }
  }

  lemma JImmAgrees(inst: Word)
    ensures RtlJImm(inst) == JImm(inst)
  {
    hide TakeBits, TakeBit, Slice, SignAbove, JImm, ConcatJ;
    SlicesJ(inst);
    JExtended(inst);
  }

  lemma BExtended(inst: Word)
    ensures ConcatB(SignAbove(inst, 12), TakeBit(inst, 7), TakeBits(inst, 25, 30), TakeBits(inst, 8, 11)) == BImm(inst)
  {
    hide TakeBits, TakeBit, Negative, SignAbove, ConcatB, Widen;
    SignBit(inst);
    SignAbove12(inst);
    if Negative(inst) {
      NegativeB(TakeBit(inst, 7), TakeBits(inst, 25, 30), TakeBits(inst, 8, 11));
    } else {
      PositiveB(TakeBit(inst, 7), TakeBits(inst, 25, 30), TakeBits(inst, 8, 11));
    }
  }

  lemma BImmAgrees(inst: Word)
    ensures RtlBImm(inst) == BImm(inst)
  {
    hide TakeBits, TakeBit, Slice, SignAbove, BImm, ConcatB;
    SlicesB(inst);
    BExtended(inst);
  }

  lemma UImmAgrees(inst: Word)
    ensures RtlUImm(inst) == UImm(inst)
  {
    hide TakeBits, Slice;
    SlicesI(inst);
  }

  /** All five immediates are the same on both sides. */
  lemma ImmediatesAgree(inst: Word)
    ensures RtlIImm(inst) == IImm(inst)
    ensures RtlUImm(inst) == UImm(inst)
    ensures RtlSImm(inst) == SImm(inst)
    ensures RtlJImm(inst) == JImm(inst)
    ensures RtlBImm(inst) == BImm(inst)
  {
    hide RtlIImm, RtlUImm, RtlSImm, RtlJImm, RtlBImm, IImm, UImm, SImm, JImm, BImm;
    IImmAgrees(inst);
    UImmAgrees(inst);
    SImmAgrees(inst);
    JImmAgrees(inst);
    BImmAgrees(inst);
  }
}
