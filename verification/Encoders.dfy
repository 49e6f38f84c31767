/** The instruction encoders, and what the decoder makes of their words. */
module Encoders {
  import opened Words
  import opened Decode

  function RType(funct7: Word, rs2: Word, rs1: Word, funct3: Word, rd: Word, opcode: Word): Word {
    (funct7 << 24) | (rs2 << 20) | (rs1 << 15) | (funct3 << 12) | (rd << 7) | opcode
  }

  function IType(imm: Word, rs1: Word, funct3: Word, rd: Word, opcode: Word): Word {
    (imm << 20) | (rs1 << 15) | (funct3 << 12) | (rd << 7) | opcode
  }

  /** `s_type` and `b_type`: the low five immediate bits take the place of the destination. */
  function SType(imm: Word, rs2: Word, rs1: Word, funct3: Word, opcode: Word): Word {
    ((imm >> 5) << 25) | (rs2 << 20) | (rs1 << 15) | (funct3 << 12) | ((31 & imm) << 7) | opcode
  }

  /** `lui`, `auipc` and `jal`: a raw twenty-bit field above the destination. */
  function UType(imm: Word, rd: Word, opcode: Word): Word {
    (imm << 12) | (rd << 7) | opcode
  }

  const EBREAK: Word := 0x0010_0073

  // The encoders on fields of the proper width.
  function EncodeR(funct7: bv7, rs2: bv5, rs1: bv5, funct3: bv3, rd: bv5, opcode: bv7): Word {
    RType(funct7 as Word, rs2 as Word, rs1 as Word, funct3 as Word, rd as Word, opcode as Word)
  }
  function EncodeI(imm: bv12, rs1: bv5, funct3: bv3, rd: bv5, opcode: bv7): Word {
    IType(imm as Word, rs1 as Word, funct3 as Word, rd as Word, opcode as Word)
  }
  function EncodeS(imm: bv12, rs2: bv5, rs1: bv5, funct3: bv3, opcode: bv7): Word {
    SType(imm as Word, rs2 as Word, rs1 as Word, funct3 as Word, opcode as Word)
  }
  function EncodeU(imm: bv20, rd: bv5, opcode: bv7): Word {
    UType(imm as Word, rd as Word, opcode as Word)
  }

  /** The twenty bits of an upper immediate in their place. */
  function UpperWord(imm: bv20): Word { imm as Word << 12 }

  // ---------------------------------------------------------------- fields of an encoded word

  /** A twelve-bit field as a signed word. */
  function SignExtend(imm: bv12): Word {
    if imm & 0x800 != 0 then 0xFFFF_F000 | imm as Word else imm as Word
  }

  lemma FieldsOfI(imm: bv12, rs1: bv5, funct3: bv3, rd: bv5, opcode: bv7)
    ensures Opcode(EncodeI(imm, rs1, funct3, rd, opcode)) == opcode
    ensures Rd(EncodeI(imm, rs1, funct3, rd, opcode)) == rd
    ensures Funct3(EncodeI(imm, rs1, funct3, rd, opcode)) == funct3
    ensures Rs1(EncodeI(imm, rs1, funct3, rd, opcode)) == rs1
  {
  }

  lemma ImmOfI(imm: bv12, rs1: bv5, funct3: bv3, rd: bv5, opcode: bv7)
    ensures IImm(EncodeI(imm, rs1, funct3, rd, opcode)) == SignExtend(imm)
  {
    hide EncodeI, TakeBit, TakeBits, Widen;
    RawImmOfI(imm, rs1, funct3, rd, opcode);
    Extended(imm);
  }

  lemma RawImmOfI(imm: bv12, rs1: bv5, funct3: bv3, rd: bv5, opcode: bv7)
    ensures TakeBits(EncodeI(imm, rs1, funct3, rd, opcode), 20, 31) == imm as Word
    ensures TakeBit(EncodeI(imm, rs1, funct3, rd, opcode), 31) == 1 <==> imm & 0x800 != 0
    ensures TakeBit(EncodeI(imm, rs1, funct3, rd, opcode), 30) == 1 <==> imm & 0x400 != 0
  {
  }

  lemma Extended(imm: bv12)
    ensures Widen(imm as Word, imm & 0x800 != 0, 0xFFFF_F000) == SignExtend(imm)
  {
  }

  lemma FieldsOfS(imm: bv12, rs2: bv5, rs1: bv5, funct3: bv3, opcode: bv7)
    ensures Opcode(EncodeS(imm, rs2, rs1, funct3, opcode)) == opcode
    ensures Funct3(EncodeS(imm, rs2, rs1, funct3, opcode)) == funct3
    ensures Rs1(EncodeS(imm, rs2, rs1, funct3, opcode)) == rs1
    ensures Rs2(EncodeS(imm, rs2, rs1, funct3, opcode)) == rs2
  {
  }

  lemma ImmOfS(imm: bv12, rs2: bv5, rs1: bv5, funct3: bv3, opcode: bv7)
    ensures SImm(EncodeS(imm, rs2, rs1, funct3, opcode)) == SignExtend(imm)
  {
    hide EncodeS, TakeBit, TakeBits, Widen;
    RawImmOfS(imm, rs2, rs1, funct3, opcode);
    Extended(imm);
  }

  lemma RawImmOfS(imm: bv12, rs2: bv5, rs1: bv5, funct3: bv3, opcode: bv7)
    ensures
      var inst := EncodeS(imm, rs2, rs1, funct3, opcode);
      (TakeBits(inst, 25, 31) << 5) | TakeBits(inst, 7, 11) == imm as Word
    ensures TakeBit(EncodeS(imm, rs2, rs1, funct3, opcode), 31) == 1 <==> imm & 0x800 != 0
  {
  }

  lemma FieldsOfU(imm: bv20, rd: bv5, opcode: bv7)
    ensures Opcode(EncodeU(imm, rd, opcode)) == opcode
    ensures Rd(EncodeU(imm, rd, opcode)) == rd
    ensures UImm(EncodeU(imm, rd, opcode)) == UpperWord(imm)
  {
  }

  /**
   * The function code is shifted by 24, not 25: its lowest bit lands on the highest bit of the
   * second source, and the decoder sees the code halved.
   */
  lemma FieldsOfR(funct7: bv7, rs2: bv5, rs1: bv5, funct3: bv3, rd: bv5, opcode: bv7)
    ensures Opcode(EncodeR(funct7, rs2, rs1, funct3, rd, opcode)) == opcode
    ensures Rd(EncodeR(funct7, rs2, rs1, funct3, rd, opcode)) == rd
    ensures Funct3(EncodeR(funct7, rs2, rs1, funct3, rd, opcode)) == funct3
    ensures Rs1(EncodeR(funct7, rs2, rs1, funct3, rd, opcode)) == rs1
  {
  }

  lemma UpperFieldsOfR(funct7: bv7, rs2: bv5, rs1: bv5, funct3: bv3, rd: bv5, opcode: bv7)
    ensures Rs2(EncodeR(funct7, rs2, rs1, funct3, rd, opcode)) == rs2 | (if funct7 & 1 != 0 then 16 else 0)
    ensures TakeBits(EncodeR(funct7, rs2, rs1, funct3, rd, opcode), 25, 31) == funct7 as Word >> 1
    ensures TakeBit(EncodeR(funct7, rs2, rs1, funct3, rd, opcode), 30) == 1 <==> funct7 & 0x40 != 0
  {
  }

  /** Exactly when the R-type encoder's fields come back. */
  lemma RTypeRecovered(funct7: bv7, rs2: bv5, rs1: bv5, funct3: bv3, rd: bv5, opcode: bv7)
    ensures Rs2(EncodeR(funct7, rs2, rs1, funct3, rd, opcode)) == rs2 <==> funct7 & 1 == 0 || rs2 >= 16
    ensures TakeBits(EncodeR(funct7, rs2, rs1, funct3, rd, opcode), 25, 31) == funct7 as Word <==> funct7 == 0
  {
    hide EncodeR, Rs2, TakeBits;
    UpperFieldsOfR(funct7, rs2, rs1, funct3, rd, opcode);
  }

  // ---------------------------------------------------------------- decoding encoded words

  lemma DecodeImmediate(imm: bv12, rs1: bv5, funct3: bv3, rd: bv5)
    ensures
      var d := GoldenDecode(EncodeI(imm, rs1, funct3, rd, 0x13));
      && d.kind == Imm && d.rd == rd && d.rs1 == rs1 && d.imm == SignExtend(imm) && !d.halt
      && d.aluOp == (if funct3 == 5 && imm & 0x400 != 0 then 13 else funct3 as bv4)
  {
    hide EncodeI, Opcode, Rd, Rs1, Rs2, Funct3, IImm, SImm, UImm, JImm, BImm, TakeBit, TakeBits, SignExtend;
    FieldsOfI(imm, rs1, funct3, rd, 0x13);
    ImmOfI(imm, rs1, funct3, rd, 0x13);
    RawImmOfI(imm, rs1, funct3, rd, 0x13);
  }

  lemma DecodeRegister(alternate: bool, rs2: bv5, rs1: bv5, funct3: bv3, rd: bv5)
    ensures
      var d := GoldenDecode(EncodeR(if alternate then 0x40 else 0, rs2, rs1, funct3, rd, 0x33));
      && d.kind == Reg && d.rd == rd && d.rs1 == rs1 && d.rs2 == rs2 && !d.halt
      && d.aluOp == (if alternate && funct3 == 5 then 13
                     else if alternate && funct3 == 0 then 8
                     else funct3 as bv4)
  {
    hide EncodeR, Opcode, Rd, Rs1, Rs2, Funct3, IImm, SImm, UImm, JImm, BImm, TakeBit, TakeBits;
    FieldsOfR(if alternate then 0x40 else 0, rs2, rs1, funct3, rd, 0x33);
    UpperFieldsOfR(if alternate then 0x40 else 0, rs2, rs1, funct3, rd, 0x33);
  }

  lemma DecodeLoad(imm: bv12, rs1: bv5, funct3: bv3, rd: bv5)
    ensures
      var d := GoldenDecode(EncodeI(imm, rs1, funct3, rd, 0x03));
      && d.rd == rd && d.rs1 == rs1 && d.imm == SignExtend(imm) && d.memSigned == (funct3 < 4)
      && d.aluOp == 0
      && (d.kind == LoadByte <==> funct3 == 0 || funct3 == 4)
      && (d.kind == LoadHalf <==> funct3 == 1 || funct3 == 5)
      && (d.kind == LoadWord <==> funct3 == 2)
      && (d.kind == Undefined <==> funct3 == 3 || funct3 == 6 || funct3 == 7)
  {
    hide EncodeI, Opcode, Rd, Rs1, Rs2, Funct3, IImm, SImm, UImm, JImm, BImm, TakeBit, SignExtend;
    FieldsOfI(imm, rs1, funct3, rd, 0x03);
    ImmOfI(imm, rs1, funct3, rd, 0x03);
  }

  lemma DecodeJumpReg(imm: bv12, rs1: bv5, rd: bv5)
    ensures
      var d := GoldenDecode(EncodeI(imm, rs1, 0, rd, 0x67));
      d.kind == JumpReg && d.rd == rd && d.rs1 == rs1 && d.imm == SignExtend(imm) && d.aluOp == 0
  {
    hide EncodeI, Opcode, Rd, Rs1, Rs2, Funct3, IImm, SImm, UImm, JImm, BImm, TakeBit, SignExtend;
    FieldsOfI(imm, rs1, 0, rd, 0x67);
    ImmOfI(imm, rs1, 0, rd, 0x67);
  }

  lemma DecodeStore(imm: bv12, rs2: bv5, rs1: bv5, funct3: bv3)
    ensures
      var d := GoldenDecode(EncodeS(imm, rs2, rs1, funct3, 0x23));
      && d.kind == StoreAny && d.rs1 == rs1 && d.rs2 == rs2 && d.imm == SignExtend(imm) && d.aluOp == 0
      && d.writeMask == (if funct3 == 0 then 1 else if funct3 == 1 then 3 else if funct3 == 2 then 15 else 0)
  {
    hide EncodeS, Opcode, Rd, Rs1, Rs2, Funct3, IImm, SImm, UImm, JImm, BImm, TakeBit, SignExtend;
    FieldsOfS(imm, rs2, rs1, funct3, 0x23);
    ImmOfS(imm, rs2, rs1, funct3, 0x23);
  }

  lemma DecodeUpper(imm: bv20, rd: bv5)
    ensures
      var d := GoldenDecode(EncodeU(imm, rd, 0x37));
      d.kind == Upper && d.rd == rd && d.imm == UpperWord(imm) && !d.halt
    ensures
      var d := GoldenDecode(EncodeU(imm, rd, 0x17));
      d.kind == AddUpperPc && d.rd == rd && d.imm == UpperWord(imm) && !d.halt
  {
    hide EncodeU, Opcode, Rd, Rs1, Rs2, Funct3, IImm, SImm, UImm, JImm, BImm, TakeBit;
    FieldsOfU(imm, rd, 0x37);
    FieldsOfU(imm, rd, 0x17);
  }

  // ---------------------------------------------------------------- encoding decoded words

  /** Re-encoding the fields of any word with the I-type encoder gives the word back. */
  lemma ITypeRoundTrip(inst: Word)
    ensures IType(IImm(inst), TakeBits(inst, 15, 19), TakeBits(inst, 12, 14), TakeBits(inst, 7, 11),
        TakeBits(inst, 0, 6)) == inst
  {
  }

  lemma STypeRoundTrip(inst: Word)
    ensures SType(SImm(inst), TakeBits(inst, 20, 24), TakeBits(inst, 15, 19), TakeBits(inst, 12, 14),
        TakeBits(inst, 0, 6)) == inst
  {
  }

  lemma UTypeRoundTrip(inst: Word)
    ensures UType(UImm(inst) >> 12, TakeBits(inst, 7, 11), TakeBits(inst, 0, 6)) == inst
  {
  }

  /** The R-type encoder gives the word back only without a function code. */
  lemma RTypeRoundTrip(inst: Word)
    ensures RType(TakeBits(inst, 25, 31), TakeBits(inst, 20, 24), TakeBits(inst, 15, 19), TakeBits(inst, 12, 14),
                  TakeBits(inst, 7, 11), TakeBits(inst, 0, 6)) == inst
            <==> TakeBits(inst, 25, 31) == 0
  {
  }

  // ---------------------------------------------------------------- branch and jump offsets

  /** An even offset of thirteen signed bits, and the raw field that stands for it. */
  predicate BranchOffset(o: Word) { o & 1 == 0 && (o < 0x1000 || o >= 0xFFFF_F000) }

  function BranchField(o: Word): bv12 {
    ((TakeBit(o, 12) << 11) | (TakeBits(o, 5, 10) << 5) | (TakeBits(o, 1, 4) << 1) | TakeBit(o, 11)) as bv12
  }

  /** The offset a raw field stands for: bit 0 of the field is bit 11 of the offset. */
  function BranchValue(imm: bv12): Word {
    Widen(((imm & 1) as Word << 11) | (((imm >> 5) & 63) as Word << 5) | (((imm >> 1) & 15) as Word << 1),
          imm & 0x800 != 0, 0xFFFF_F000)
  }

  lemma RawBit7(imm: bv12, rs2: bv5, rs1: bv5, funct3: bv3, opcode: bv7)
    ensures TakeBit(EncodeS(imm, rs2, rs1, funct3, opcode), 7) == (imm & 1) as Word
  {
  }

  lemma RawBits25(imm: bv12, rs2: bv5, rs1: bv5, funct3: bv3, opcode: bv7)
    ensures TakeBits(EncodeS(imm, rs2, rs1, funct3, opcode), 25, 30) == ((imm >> 5) & 63) as Word
  {
  }

  lemma RawBits8(imm: bv12, rs2: bv5, rs1: bv5, funct3: bv3, opcode: bv7)
    ensures TakeBits(EncodeS(imm, rs2, rs1, funct3, opcode), 8, 11) == ((imm >> 1) & 15) as Word
  {
  }

  lemma BranchImmediate(imm: bv12, rs2: bv5, rs1: bv5, funct3: bv3, opcode: bv7)
    ensures BImm(EncodeS(imm, rs2, rs1, funct3, opcode)) == BranchValue(imm)
  {
    hide EncodeS, TakeBit, TakeBits, Widen;
    RawBit7(imm, rs2, rs1, funct3, opcode);
    RawBits25(imm, rs2, rs1, funct3, opcode);
    RawBits8(imm, rs2, rs1, funct3, opcode);
    RawImmOfS(imm, rs2, rs1, funct3, opcode);
  }

  // The pieces of an offset, from those of its field.
  lemma BranchBit12(imm: bv12)
    ensures TakeBit(BranchValue(imm), 12) == ((imm >> 11) & 1) as Word
  {
  }

  lemma BranchBit11(imm: bv12)
    ensures TakeBit(BranchValue(imm), 11) == (imm & 1) as Word
  {
  }

  lemma BranchBits5(imm: bv12)
    ensures TakeBits(BranchValue(imm), 5, 10) == ((imm >> 5) & 63) as Word
  {
  }

  lemma BranchBits1(imm: bv12)
    ensures TakeBits(BranchValue(imm), 1, 4) == ((imm >> 1) & 15) as Word
  {
  }

  lemma BranchPieces(imm: bv12)
    ensures ((((imm >> 11) & 1) as Word << 11) | (((imm >> 5) & 63) as Word << 5) | (((imm >> 1) & 15) as Word << 1)
             | (imm & 1) as Word) as bv12 == imm
  {
  }

  lemma BranchValueIsOffset(imm: bv12)
    ensures BranchOffset(BranchValue(imm))
  {
  }

  lemma FieldOfBranchValue(imm: bv12)
    ensures BranchOffset(BranchValue(imm)) && BranchField(BranchValue(imm)) == imm
  {
    hide TakeBit, TakeBits, BranchValue, BranchOffset;
    BranchBit12(imm);
    BranchBit11(imm);
    BranchBits5(imm);
    BranchBits1(imm);
    BranchPieces(imm);
    BranchValueIsOffset(imm);
  }

  lemma ValueOfBranchField(o: Word)
    requires BranchOffset(o)
    ensures BranchValue(BranchField(o)) == o
  {
  }

  /** Every raw field encodes an even branch offset, from which the field can be read back... */
  lemma BranchOffsetOfField(imm: bv12, rs2: bv5, rs1: bv5, funct3: bv3, opcode: bv7)
    ensures BranchOffset(BImm(EncodeS(imm, rs2, rs1, funct3, opcode)))
    ensures BranchField(BImm(EncodeS(imm, rs2, rs1, funct3, opcode))) == imm
  {
    hide EncodeS, BImm, BranchField, BranchValue;
    BranchImmediate(imm, rs2, rs1, funct3, opcode);
    FieldOfBranchValue(imm);
  }

  /** ...and every even branch offset is encoded by a raw field. */
  lemma BranchFieldOfOffset(o: Word, rs2: bv5, rs1: bv5, funct3: bv3, opcode: bv7)
    requires BranchOffset(o)
    ensures BImm(EncodeS(BranchField(o), rs2, rs1, funct3, opcode)) == o
  {
    hide EncodeS, BImm, BranchField, BranchValue;
    BranchImmediate(BranchField(o), rs2, rs1, funct3, opcode);
    ValueOfBranchField(o);
  }

  /** An even offset of twenty-one signed bits, and the raw field that stands for it. */
  predicate JumpOffset(o: Word) { o & 1 == 0 && (o < 0x10_0000 || o >= 0xFFF0_0000) }

  function JumpField(o: Word): bv20 {
    ((TakeBit(o, 20) << 19) | (TakeBits(o, 1, 10) << 9) | (TakeBit(o, 11) << 8) | TakeBits(o, 12, 19)) as bv20
  }

  function JumpValue(imm: bv20): Word {
    Widen(((imm & 0xFF) as Word << 12) | (((imm >> 8) & 1) as Word << 11) | (((imm >> 9) & 0x3FF) as Word << 1),
          imm & 0x8_0000 != 0, 0xFFF0_0000)
  }

  lemma RawJumpBits(imm: bv20, rd: bv5)
    ensures TakeBits(EncodeU(imm, rd, 0x6F), 12, 19) == (imm & 0xFF) as Word
    ensures TakeBit(EncodeU(imm, rd, 0x6F), 20) == ((imm >> 8) & 1) as Word
    ensures TakeBits(EncodeU(imm, rd, 0x6F), 21, 30) == ((imm >> 9) & 0x3FF) as Word
    ensures TakeBit(EncodeU(imm, rd, 0x6F), 31) == 1 <==> imm & 0x8_0000 != 0
  {
  }

  lemma JumpImmediate(imm: bv20, rd: bv5)
    ensures JImm(EncodeU(imm, rd, 0x6F)) == JumpValue(imm)
  {
    hide EncodeU, TakeBit, TakeBits, Widen;
    RawJumpBits(imm, rd);
  }

  lemma JumpBit20(imm: bv20)
    ensures TakeBit(JumpValue(imm), 20) == ((imm >> 19) & 1) as Word
  {
  }

  lemma JumpBits1(imm: bv20)
    ensures TakeBits(JumpValue(imm), 1, 10) == ((imm >> 9) & 0x3FF) as Word
  {
  }

  lemma JumpBit11(imm: bv20)
    ensures TakeBit(JumpValue(imm), 11) == ((imm >> 8) & 1) as Word
  {
  }

  lemma JumpBits12(imm: bv20)
    ensures TakeBits(JumpValue(imm), 12, 19) == (imm & 0xFF) as Word
  {
  }

  lemma JumpPieces(imm: bv20)
    ensures ((((imm >> 19) & 1) as Word << 19) | (((imm >> 9) & 0x3FF) as Word << 9) | (((imm >> 8) & 1) as Word << 8)
             | (imm & 0xFF) as Word) as bv20 == imm
  {
  }

  lemma JumpValueIsOffset(imm: bv20)
    ensures JumpOffset(JumpValue(imm))
  {
  }

  lemma FieldOfJumpValue(imm: bv20)
    ensures JumpOffset(JumpValue(imm)) && JumpField(JumpValue(imm)) == imm
  {
    hide TakeBit, TakeBits, JumpValue, JumpOffset;
    JumpBit20(imm);
    JumpBits1(imm);
    JumpBit11(imm);
    JumpBits12(imm);
    JumpPieces(imm);
    JumpValueIsOffset(imm);
  }

  // The pieces of a field, from those of its offset.
  lemma FieldBits0(o: Word)
    ensures (JumpField(o) & 0xFF) as Word == TakeBits(o, 12, 19)
  {
  }

  lemma FieldBit8(o: Word)
    ensures ((JumpField(o) >> 8) & 1) as Word == TakeBit(o, 11)
  {
  }

  lemma FieldBits9(o: Word)
    ensures ((JumpField(o) >> 9) & 0x3FF) as Word == TakeBits(o, 1, 10)
  {
  }

  lemma FieldBit19(o: Word)
    ensures JumpField(o) & 0x8_0000 != 0 <==> TakeBit(o, 20) == 1
  {
  }

  lemma Bits12InPlace(o: Word)
    ensures TakeBits(o, 12, 19) << 12 == o & 0xF_F000
  {
  }

  lemma Bit11InPlace(o: Word)
    ensures TakeBit(o, 11) << 11 == o & 0x800
  {
  }

  lemma Bits1InPlace(o: Word)
    ensures TakeBits(o, 1, 10) << 1 == o & 0x7FE
  {
  }

  lemma Bit20Sign(o: Word)
    requires JumpOffset(o)
    ensures TakeBit(o, 20) == 1 <==> o >= 0x8000_0000
  {
  }

  function Or3(a: Word, b: Word, c: Word): Word { a | b | c }

  lemma ThreeMasks(o: Word)
    ensures Or3(o & 0xF_F000, o & 0x800, o & 0x7FE) == o & 0xF_FFFE
  {
  }

  lemma PositiveOffset(o: Word)
    requires JumpOffset(o) && o < 0x8000_0000
    ensures o & 0xF_FFFE == o
  {
  }

  lemma NegativeOffset(o: Word)
    requires JumpOffset(o) && o >= 0x8000_0000
    ensures 0xFFF0_0000 | (o & 0xF_FFFE) == o
  {
  }

  lemma BitsTogether(o: Word)
    requires JumpOffset(o)
    ensures Widen(Or3(o & 0xF_F000, o & 0x800, o & 0x7FE), o >= 0x8000_0000, 0xFFF0_0000) == o
  {
    hide Or3, JumpOffset;
    ThreeMasks(o);
    if o >= 0x8000_0000 {
      NegativeOffset(o);
    } else {
      PositiveOffset(o);
    }
  }

  lemma OffsetPieces(o: Word)
    requires JumpOffset(o)
    ensures
      Widen(Or3(TakeBits(o, 12, 19) << 12, TakeBit(o, 11) << 11, TakeBits(o, 1, 10) << 1),
            TakeBit(o, 20) == 1, 0xFFF0_0000) == o
  {
    hide TakeBit, TakeBits, JumpOffset, Or3, Widen;
    Bits12InPlace(o);
    Bit11InPlace(o);
    Bits1InPlace(o);
    Bit20Sign(o);
    BitsTogether(o);
  }

  lemma ValueOfJumpField(o: Word)
    requires JumpOffset(o)
    ensures JumpValue(JumpField(o)) == o
  {
    hide TakeBit, TakeBits, JumpField, Widen;
    FieldBits0(o);
    FieldBit8(o);
    FieldBits9(o);
    FieldBit19(o);
    OffsetPieces(o);
  }

  /** Every raw field of `jal` encodes an even jump offset, from which the field can be read back... */
  lemma JumpOffsetOfField(imm: bv20, rd: bv5)
    ensures JumpOffset(JImm(EncodeU(imm, rd, 0x6F)))
    ensures JumpField(JImm(EncodeU(imm, rd, 0x6F))) == imm
  {
    hide EncodeU, JImm, JumpField, JumpValue;
    JumpImmediate(imm, rd);
    FieldOfJumpValue(imm);
  }

  /** ...and every even jump offset is encoded by a raw field. */
  lemma JumpFieldOfOffset(o: Word, rd: bv5)
    requires JumpOffset(o)
    ensures JImm(EncodeU(JumpField(o), rd, 0x6F)) == o
  {
    hide EncodeU, JImm, JumpField, JumpValue;
    JumpImmediate(JumpField(o), rd);
    ValueOfJumpField(o);
  }
}
