/** The two datapaths, instruction word by instruction word. */
module Datapath {
  import opened Words
  import opened Alu
  import opened Decode
  import opened Lsu
  import opened Exu
  import Golden

  datatype RegisterWrite = NoWrite | Write(r: bv5, data: Word)

  /** The write a register file performs: register 0 and registers outside the file take none. */
  function Effective(enable: bool, r: bv5, data: Word): RegisterWrite {
    if enable && r != 0 && r < 16 then Write(r, data) else NoWrite
  }

  /**
   * Both datapaths do the same with an instruction: the same register write, next pc, halt flag
   * and memory access, given the operands `r1` and `r2`, the counter register `csr` and the word
   * `read` at the accessed address.
   */
  predicate SameEffect(inst: Word, pc: Word, r1: Word, r2: Word, csr: Word, read: Word) {
    var d, e := RtlDecode(inst), GoldenDecode(inst);
    var a := AluResult(d, pc, r1, r2);
    var b := GoldenAlu(e.aluOp, Golden.GoldenLhs(e, pc, r1), Golden.GoldenRhs(e, r2));
    var out := Golden.Execute(e, pc, b, GoldenCompare(e.comOp, r1, r2), read);
    var loaded := ExtendData(read, d.Size(), d.Signed());
    && Effective(d.WritesRegister(), d.rd, Writeback(d, pc, a, loaded, csr))
       == Effective(out.regWrite, e.rd, out.regData)
    && PcNext(d, pc, a, r1, r2) == (if out.jump then out.target else pc + 4)
    && (d.instType == INST_EBREAK) == e.halt
    && d.IsMemory() == Golden.IsMemOp(e.kind)
    && d.IsStore() == out.memWrite
    && (d.IsMemory() ==> a == b && d.Size() != LSU_EXTA)
    && (d.IsStore() ==> SizeMask(d.Size()) == e.writeMask)
  }

  /**
   * The words on which the two decoders agree. Left out are undefined load and store widths, the
   * branch condition that only the hardware knows (unless it branches to the next instruction
   * anyway), and system instructions that write a register in hardware or halt on one side only.
   */
  predicate Supported(inst: Word) {
    var opcode, funct3, rd := Opcode(inst), Funct3(inst), Rd(inst);
    if opcode == OPCODE_LOAD then funct3 != 3 && funct3 != 6 && funct3 != 7
    else if opcode == OPCODE_STORE then funct3 < 3
    else if opcode == OPCODE_BRANCH then funct3 != 2 || BImm(inst) == 4
    else if opcode == OPCODE_SYSTEM then
      (rd == 0 || rd >= 16) && ((funct3 == 0) == (TakeBit(inst, 20) == 1))
    else true
  }

  // ---------------------------------------------------------------- pieces

  lemma LowByte(w: Word)
    ensures TakeBits(w, 0, 7) == w & 0xFF
    ensures (TakeBit(w, 7) == 1) == (w & 0x80 != 0)
  {
  }

  lemma LowHalf(w: Word)
    ensures TakeBits(w, 0, 15) == w & 0xFFFF
    ensures (TakeBit(w, 15) == 1) == (w & 0x8000 != 0)
  {
  }

  lemma ExtensionsAgree(read: Word, signed: bool)
    ensures ExtendData(read, LSU_BYTE, signed) == Golden.ExtendByte(read, signed)
    ensures ExtendData(read, LSU_HALF, signed) == Golden.ExtendHalf(read, signed)
    ensures ExtendData(read, LSU_WORD, signed) == read
  {
    hide TakeBits, TakeBit, Widen;
    LowByte(read);
    LowHalf(read);
  }

  // What the decoders say about each class of instructions, beside the register fields.

  function RtlFields(inst: Word, imm: Word, aluOp: bv4, comOp: bv3, instType: bv6): RtlDecoded {
    RtlDecoded(Rd(inst), Rs1(inst), Rs2(inst), imm, aluOp, comOp, instType)
  }

  function GoldenFields(inst: Word, imm: Word, writeMask: bv4, aluOp: bv4, comOp: bv3, halt: bool, kind: GoldenKind)
    : GoldenDecoded
  {
    GoldenDecoded(Rd(inst), Rs1(inst), Rs2(inst), imm, writeMask, Funct3(inst) & 4 == 0, aluOp, comOp, halt, kind)
  }

  lemma LoadDecoded(inst: Word)
    requires Opcode(inst) == OPCODE_LOAD
    ensures RtlDecode(inst)
        == RtlFields(inst, IImm(inst), ALU_OP_ADD, COM_OP_ONE, MemoryType(INST_LOAD, Funct3(inst)))
    ensures GoldenDecode(inst) == GoldenFields(inst, IImm(inst), 0, ALU_OP_ADD, 0, false, LoadKind(Funct3(inst)))
  {
    hide TakeBits, TakeBit, Opcode, Funct3, Rd, Rs1, Rs2, IImm, UImm, SImm, JImm, BImm, AluCode, RtlIImm, RtlUImm,
      RtlSImm, RtlJImm, RtlBImm;
    ImmediatesAgree(inst);
  }

  lemma StoreDecoded(inst: Word)
    requires Opcode(inst) == OPCODE_STORE
    ensures RtlDecode(inst)
        == RtlFields(inst, SImm(inst), ALU_OP_ADD, COM_OP_ONE, MemoryType(INST_STORE, Funct3(inst)))
    ensures GoldenDecode(inst)
        == GoldenFields(inst, SImm(inst), StoreMask(Funct3(inst)), ALU_OP_ADD, 0, false, StoreAny)
  {
    hide TakeBits, TakeBit, Opcode, Funct3, Rd, Rs1, Rs2, IImm, UImm, SImm, JImm, BImm, AluCode, RtlIImm, RtlUImm,
      RtlSImm, RtlJImm, RtlBImm;
    ImmediatesAgree(inst);
  }

  lemma CalcImmDecoded(inst: Word)
    requires Opcode(inst) == OPCODE_CALC_IMM
    ensures RtlDecode(inst) == RtlFields(inst, IImm(inst), CalcImmOp(inst), COM_OP_ONE, INST_IMM)
    ensures GoldenDecode(inst) == GoldenFields(inst, IImm(inst), 0, CalcImmOp(inst), 0, false, Imm)
  {
    hide TakeBits, TakeBit, Opcode, Funct3, Rd, Rs1, Rs2, IImm, UImm, SImm, JImm, BImm, AluCode, RtlIImm, RtlUImm,
      RtlSImm, RtlJImm, RtlBImm;
    ImmediatesAgree(inst);
  }

  lemma CalcRegDecoded(inst: Word)
    requires Opcode(inst) == OPCODE_CALC_REG
    ensures RtlDecode(inst) == RtlFields(inst, 0, CalcRegOp(inst), COM_OP_ONE, INST_REG)
    ensures GoldenDecode(inst) == GoldenFields(inst, 0, 0, CalcRegOp(inst), 0, false, Reg)
  {
    hide TakeBits, TakeBit, Opcode, Funct3, Rd, Rs1, Rs2, IImm, UImm, SImm, JImm, BImm, AluCode, RtlIImm, RtlUImm,
      RtlSImm, RtlJImm, RtlBImm;
    ImmediatesAgree(inst);
  }

  lemma LuiDecoded(inst: Word)
    requires Opcode(inst) == OPCODE_LUI
    ensures RtlDecode(inst) == RtlFields(inst, UImm(inst), ALU_OP_RHS, COM_OP_ONE, INST_UPP)
    ensures GoldenDecode(inst) == GoldenFields(inst, UImm(inst), 0, ALU_OP_ADD, 0, false, Upper)
  {
    hide TakeBits, TakeBit, Opcode, Funct3, Rd, Rs1, Rs2, IImm, UImm, SImm, JImm, BImm, AluCode, RtlIImm, RtlUImm,
      RtlSImm, RtlJImm, RtlBImm;
    ImmediatesAgree(inst);
  }

  lemma AuipcDecoded(inst: Word)
    requires Opcode(inst) == OPCODE_AUIPC
    ensures RtlDecode(inst) == RtlFields(inst, UImm(inst), ALU_OP_ADD, COM_OP_ONE, INST_AUIPC)
    ensures GoldenDecode(inst) == GoldenFields(inst, UImm(inst), 0, ALU_OP_ADD, 0, false, AddUpperPc)
  {
    hide TakeBits, TakeBit, Opcode, Funct3, Rd, Rs1, Rs2, IImm, UImm, SImm, JImm, BImm, AluCode, RtlIImm, RtlUImm,
      RtlSImm, RtlJImm, RtlBImm;
    ImmediatesAgree(inst);
  }

  lemma JalDecoded(inst: Word)
    requires Opcode(inst) == OPCODE_JAL
    ensures RtlDecode(inst) == RtlFields(inst, JImm(inst), ALU_OP_ADD, COM_OP_ONE, INST_JUMP)
    ensures GoldenDecode(inst) == GoldenFields(inst, JImm(inst), 0, ALU_OP_ADD, 0, false, Jump)
  {
    hide TakeBits, TakeBit, Opcode, Funct3, Rd, Rs1, Rs2, IImm, UImm, SImm, JImm, BImm, AluCode, RtlIImm, RtlUImm,
      RtlSImm, RtlJImm, RtlBImm;
    ImmediatesAgree(inst);
  }

  lemma JalrDecoded(inst: Word)
    requires Opcode(inst) == OPCODE_JALR
    ensures RtlDecode(inst) == RtlFields(inst, IImm(inst), ALU_OP_ADD, COM_OP_ONE, INST_JUMPR)
    ensures GoldenDecode(inst) == GoldenFields(inst, IImm(inst), 0, ALU_OP_ADD, 0, false, JumpReg)
  {
    hide TakeBits, TakeBit, Opcode, Funct3, Rd, Rs1, Rs2, IImm, UImm, SImm, JImm, BImm, AluCode, RtlIImm, RtlUImm,
      RtlSImm, RtlJImm, RtlBImm;
    ImmediatesAgree(inst);
  }

  lemma BranchDecoded(inst: Word)
    requires Opcode(inst) == OPCODE_BRANCH
    ensures RtlDecode(inst) == RtlFields(inst, BImm(inst), ALU_OP_ADD, Funct3(inst), INST_BRANCH)
    ensures GoldenDecode(inst) == GoldenFields(inst, BImm(inst), 0, ALU_OP_ADD, Funct3(inst), false, Branch)
  {
    hide TakeBits, TakeBit, Opcode, Funct3, Rd, Rs1, Rs2, IImm, UImm, SImm, JImm, BImm, AluCode, RtlIImm, RtlUImm,
      RtlSImm, RtlJImm, RtlBImm;
    ImmediatesAgree(inst);
  }

  lemma SystemDecoded(inst: Word)
    requires Opcode(inst) == OPCODE_SYSTEM
    ensures RtlDecode(inst) == RtlFields(inst, IImm(inst), SystemOp(Funct3(inst)), COM_OP_ONE, SystemType(Funct3(inst)))
    ensures GoldenDecode(inst) == GoldenFields(inst, 0, 0, ALU_OP_ADD, 0, TakeBit(inst, 20) == 1, Undefined)
  {
    hide TakeBits, TakeBit, Opcode, Funct3, Rd, Rs1, Rs2, IImm, UImm, SImm, JImm, BImm, AluCode, RtlIImm, RtlUImm,
      RtlSImm, RtlJImm, RtlBImm;
    ImmediatesAgree(inst);
  }

  lemma UndefinedDecoded(inst: Word)
    requires Opcode(inst) !in {OPCODE_LOAD, OPCODE_STORE, OPCODE_CALC_IMM, OPCODE_CALC_REG, OPCODE_LUI, OPCODE_AUIPC,
                               OPCODE_JAL, OPCODE_JALR, OPCODE_BRANCH, OPCODE_SYSTEM}
    ensures RtlDecode(inst) == RtlFields(inst, 0, ALU_OP_ADD, COM_OP_ONE, 0)
    ensures GoldenDecode(inst) == GoldenFields(inst, 0, 0, ALU_OP_ADD, 0, false, Undefined)
  {
    hide TakeBits, TakeBit, Opcode, Funct3, Rd, Rs1, Rs2, IImm, UImm, SImm, JImm, BImm, AluCode, RtlIImm, RtlUImm,
      RtlSImm, RtlJImm, RtlBImm;
  }

  // Class by class, the same effect.

  lemma CodesShared(inst: Word)
    ensures CalcImmOp(inst) != ALU_OP_LHS && CalcImmOp(inst) != ALU_OP_RHS && CalcImmOp(inst) != ALU_OP_ANDN
    ensures CalcRegOp(inst) != ALU_OP_LHS && CalcRegOp(inst) != ALU_OP_RHS && CalcRegOp(inst) != ALU_OP_ANDN
  {
    hide TakeBit, Funct3;
  }

  lemma RhsPasses(lhs: Word, rhs: Word)
    ensures RtlAlu(ALU_OP_RHS, lhs, rhs) == rhs
  {
  }

  lemma AddIsAdd(lhs: Word, rhs: Word)
    ensures GoldenAlu(ALU_OP_ADD, lhs, rhs) == lhs + rhs
  {
  }

  lemma CompareAgrees(op: bv3, lhs: Word, rhs: Word)
    ensures op != COM_OP_ONE ==> RtlCompare(op, lhs, rhs) == GoldenCompare(op, lhs, rhs)
    ensures RtlCompare(COM_OP_ONE, lhs, rhs) && !GoldenCompare(COM_OP_ONE, lhs, rhs)
  {
    hide SignedLess;
  }

  // What the type of a load or store selects.

  lemma LoadSelects(d: RtlDecoded, funct3: bv3)
    requires d.instType == MemoryType(INST_LOAD, funct3)
    ensures d.IsMemory() && d.IsLoad() && !d.IsStore() && d.WritesRegister() && d.instType != INST_EBREAK
    ensures d.Size() == (funct3 & 3) as bv2 && d.Signed() == (funct3 & 4 == 0)
  {
  }

  lemma LoadPath(d: RtlDecoded, funct3: bv3, pc: Word, a: Word, r1: Word, r2: Word, loaded: Word, csr: Word)
    requires d.instType == MemoryType(INST_LOAD, funct3)
    ensures AluLhs(d, pc, r1) == r1 && AluRhs(d, r2) == d.imm && PcNext(d, pc, a, r1, r2) == pc + 4
    ensures funct3 != 3 && funct3 < 6 ==> Writeback(d, pc, a, loaded, csr) == loaded
  {
    hide RtlCompare;
  }

  lemma StoreSelects(d: RtlDecoded, funct3: bv3)
    requires d.instType == MemoryType(INST_STORE, funct3)
    ensures d.IsMemory() && d.IsStore() && !d.IsLoad() && !d.WritesRegister() && d.instType != INST_EBREAK
    ensures d.Size() == (funct3 & 3) as bv2
  {
  }

  lemma StorePath(d: RtlDecoded, funct3: bv3, pc: Word, a: Word, r1: Word, r2: Word)
    requires d.instType == MemoryType(INST_STORE, funct3)
    ensures AluLhs(d, pc, r1) == r1 && AluRhs(d, r2) == d.imm && PcNext(d, pc, a, r1, r2) == pc + 4
  {
    hide RtlCompare;
  }

  lemma LoadAgrees(inst: Word, pc: Word, r1: Word, r2: Word, csr: Word, read: Word)
    requires Opcode(inst) == OPCODE_LOAD && Supported(inst)
    ensures SameEffect(inst, pc, r1, r2, csr, read)
  {
    hide RtlDecode, GoldenDecode, Opcode, Funct3, Rd, Rs1, Rs2, TakeBit, IImm, UImm, SImm, JImm, BImm, RtlAlu,
      GoldenAlu, RtlCompare, GoldenCompare, ExtendData, Golden.ExtendByte, Golden.ExtendHalf, MemoryType, Writeback,
      PcNext, AluLhs, AluRhs, RtlDecoded.IsMemory, RtlDecoded.IsLoad, RtlDecoded.IsStore, RtlDecoded.WritesRegister,
      RtlDecoded.Size, RtlDecoded.Signed;
    LoadDecoded(inst);
    var d, f := RtlDecode(inst), Funct3(inst);
    AlusAgree(ALU_OP_ADD, r1, IImm(inst));
    ExtensionsAgree(read, f & 4 == 0);
    LoadSelects(d, f);
    LoadPath(d, f, pc, AluResult(d, pc, r1, r2), r1, r2, ExtendData(read, d.Size(), d.Signed()), csr);
  }

  lemma StoreAgrees(inst: Word, pc: Word, r1: Word, r2: Word, csr: Word, read: Word)
    requires Opcode(inst) == OPCODE_STORE && Supported(inst)
    ensures SameEffect(inst, pc, r1, r2, csr, read)
  {
    hide RtlDecode, GoldenDecode, Opcode, Funct3, Rd, Rs1, Rs2, TakeBit, IImm, UImm, SImm, JImm, BImm, RtlAlu,
      GoldenAlu, RtlCompare, GoldenCompare, ExtendData, Golden.ExtendByte, Golden.ExtendHalf, MemoryType, Writeback,
      PcNext, AluLhs, AluRhs, RtlDecoded.IsMemory, RtlDecoded.IsLoad, RtlDecoded.IsStore, RtlDecoded.WritesRegister,
      RtlDecoded.Size, RtlDecoded.Signed;
    StoreDecoded(inst);
    var d, f := RtlDecode(inst), Funct3(inst);
    AlusAgree(ALU_OP_ADD, r1, SImm(inst));
    StoreSelects(d, f);
    StorePath(d, f, pc, AluResult(d, pc, r1, r2), r1, r2);
  }

  lemma CalcImmAgrees(inst: Word, pc: Word, r1: Word, r2: Word, csr: Word, read: Word)
    requires Opcode(inst) == OPCODE_CALC_IMM && Supported(inst)
    ensures SameEffect(inst, pc, r1, r2, csr, read)
  {
    hide RtlDecode, GoldenDecode, Opcode, Funct3, Rd, Rs1, Rs2, TakeBit, IImm, UImm, SImm, JImm, BImm, RtlAlu,
      GoldenAlu, RtlCompare, GoldenCompare, ExtendData, Golden.ExtendByte, Golden.ExtendHalf, CalcImmOp;
    CalcImmDecoded(inst);
    CodesShared(inst);
    AlusAgree(CalcImmOp(inst), r1, IImm(inst));
  }

  lemma CalcRegAgrees(inst: Word, pc: Word, r1: Word, r2: Word, csr: Word, read: Word)
    requires Opcode(inst) == OPCODE_CALC_REG && Supported(inst)
    ensures SameEffect(inst, pc, r1, r2, csr, read)
  {
    hide RtlDecode, GoldenDecode, Opcode, Funct3, Rd, Rs1, Rs2, TakeBit, IImm, UImm, SImm, JImm, BImm, RtlAlu,
      GoldenAlu, RtlCompare, GoldenCompare, ExtendData, Golden.ExtendByte, Golden.ExtendHalf, CalcRegOp;
    CalcRegDecoded(inst);
    CodesShared(inst);
    AlusAgree(CalcRegOp(inst), r1, r2);
  }

  lemma LuiAgrees(inst: Word, pc: Word, r1: Word, r2: Word, csr: Word, read: Word)
    requires Opcode(inst) == OPCODE_LUI && Supported(inst)
    ensures SameEffect(inst, pc, r1, r2, csr, read)
  {
    hide RtlDecode, GoldenDecode, Opcode, Funct3, Rd, Rs1, Rs2, TakeBit, IImm, UImm, SImm, JImm, BImm, RtlAlu,
      GoldenAlu, RtlCompare, GoldenCompare, ExtendData, Golden.ExtendByte, Golden.ExtendHalf;
    LuiDecoded(inst);
    assert RtlAlu(ALU_OP_RHS, r1, UImm(inst)) == UImm(inst) by { RhsPasses(r1, UImm(inst)); }
  }

  lemma AuipcAgrees(inst: Word, pc: Word, r1: Word, r2: Word, csr: Word, read: Word)
    requires Opcode(inst) == OPCODE_AUIPC && Supported(inst)
    ensures SameEffect(inst, pc, r1, r2, csr, read)
  {
    hide RtlDecode, GoldenDecode, Opcode, Funct3, Rd, Rs1, Rs2, TakeBit, IImm, UImm, SImm, JImm, BImm, RtlAlu,
      GoldenAlu, RtlCompare, GoldenCompare, ExtendData, Golden.ExtendByte, Golden.ExtendHalf;
    AuipcDecoded(inst);
    AlusAgree(ALU_OP_ADD, pc, UImm(inst));
  }

  lemma JalAgrees(inst: Word, pc: Word, r1: Word, r2: Word, csr: Word, read: Word)
    requires Opcode(inst) == OPCODE_JAL && Supported(inst)
    ensures SameEffect(inst, pc, r1, r2, csr, read)
  {
    hide RtlDecode, GoldenDecode, Opcode, Funct3, Rd, Rs1, Rs2, TakeBit, IImm, UImm, SImm, JImm, BImm, RtlAlu,
      GoldenAlu, RtlCompare, GoldenCompare, ExtendData, Golden.ExtendByte, Golden.ExtendHalf;
    JalDecoded(inst);
    AlusAgree(ALU_OP_ADD, pc, JImm(inst));
  }

  lemma JalrAgrees(inst: Word, pc: Word, r1: Word, r2: Word, csr: Word, read: Word)
    requires Opcode(inst) == OPCODE_JALR && Supported(inst)
    ensures SameEffect(inst, pc, r1, r2, csr, read)
  {
    hide RtlDecode, GoldenDecode, Opcode, Funct3, Rd, Rs1, Rs2, TakeBit, IImm, UImm, SImm, JImm, BImm, RtlAlu,
      GoldenAlu, RtlCompare, GoldenCompare, ExtendData, Golden.ExtendByte, Golden.ExtendHalf;
    JalrDecoded(inst);
    AlusAgree(ALU_OP_ADD, r1, IImm(inst));
  }

  lemma BranchAgrees(inst: Word, pc: Word, r1: Word, r2: Word, csr: Word, read: Word)
    requires Opcode(inst) == OPCODE_BRANCH && Supported(inst)
    ensures SameEffect(inst, pc, r1, r2, csr, read)
  {
    hide RtlDecode, GoldenDecode, Opcode, Funct3, Rd, Rs1, Rs2, TakeBit, IImm, UImm, SImm, JImm, BImm, RtlAlu,
      GoldenAlu, RtlCompare, GoldenCompare, ExtendData, Golden.ExtendByte, Golden.ExtendHalf;
    BranchDecoded(inst);
    AlusAgree(ALU_OP_ADD, pc, BImm(inst));
    CompareAgrees(Funct3(inst), r1, r2);
    AddIsAdd(pc, BImm(inst));
  }

  lemma SystemAgrees(inst: Word, pc: Word, r1: Word, r2: Word, csr: Word, read: Word)
    requires Opcode(inst) == OPCODE_SYSTEM && Supported(inst)
    ensures SameEffect(inst, pc, r1, r2, csr, read)
  {
    hide RtlDecode, GoldenDecode, Opcode, Funct3, Rd, Rs1, Rs2, TakeBit, IImm, UImm, SImm, JImm, BImm, RtlAlu,
      GoldenAlu, RtlCompare, GoldenCompare, ExtendData, Golden.ExtendByte, Golden.ExtendHalf;
    SystemDecoded(inst);
  }

  lemma UndefinedAgrees(inst: Word, pc: Word, r1: Word, r2: Word, csr: Word, read: Word)
    requires Opcode(inst) !in {OPCODE_LOAD, OPCODE_STORE, OPCODE_CALC_IMM, OPCODE_CALC_REG, OPCODE_LUI, OPCODE_AUIPC,
                               OPCODE_JAL, OPCODE_JALR, OPCODE_BRANCH, OPCODE_SYSTEM}
    ensures SameEffect(inst, pc, r1, r2, csr, read)
  {
    hide RtlDecode, GoldenDecode, Opcode, Funct3, Rd, Rs1, Rs2, TakeBit, IImm, UImm, SImm, JImm, BImm, RtlAlu,
      GoldenAlu, RtlCompare, GoldenCompare, ExtendData, Golden.ExtendByte, Golden.ExtendHalf;
    UndefinedDecoded(inst);
  }

  /** On every supported word, for all operands, the two datapaths do the same. */
  lemma SupportedAgrees(inst: Word, pc: Word, r1: Word, r2: Word, csr: Word, read: Word)
    requires Supported(inst)
    ensures SameEffect(inst, pc, r1, r2, csr, read)
  {
    hide SameEffect, Supported, Opcode;
    if Opcode(inst) == OPCODE_LOAD {
      LoadAgrees(inst, pc, r1, r2, csr, read);
    } else if Opcode(inst) == OPCODE_STORE {
      StoreAgrees(inst, pc, r1, r2, csr, read);
    } else if Opcode(inst) == OPCODE_CALC_IMM {
      CalcImmAgrees(inst, pc, r1, r2, csr, read);
    } else if Opcode(inst) == OPCODE_CALC_REG {
      CalcRegAgrees(inst, pc, r1, r2, csr, read);
    } else if Opcode(inst) == OPCODE_LUI {
      LuiAgrees(inst, pc, r1, r2, csr, read);
    } else if Opcode(inst) == OPCODE_AUIPC {
      AuipcAgrees(inst, pc, r1, r2, csr, read);
    } else if Opcode(inst) == OPCODE_JAL {
      JalAgrees(inst, pc, r1, r2, csr, read);
    } else if Opcode(inst) == OPCODE_JALR {
      JalrAgrees(inst, pc, r1, r2, csr, read);
    } else if Opcode(inst) == OPCODE_BRANCH {
      BranchAgrees(inst, pc, r1, r2, csr, read);
    } else if Opcode(inst) == OPCODE_SYSTEM {
      SystemAgrees(inst, pc, r1, r2, csr, read);
    } else {
      UndefinedAgrees(inst, pc, r1, r2, csr, read);
    }
  }

  // Outside the supported words the two sides differ, already with all operands zero.

  lemma LoadDiffers(inst: Word)
    requires Opcode(inst) == OPCODE_LOAD && !Supported(inst)
    ensures !SameEffect(inst, 0, 0, 0, 0, 0)
  {
    hide RtlDecode, GoldenDecode, Opcode, Funct3, Rd, Rs1, Rs2, TakeBit, IImm, UImm, SImm, JImm, BImm, RtlAlu,
      GoldenAlu, RtlCompare, GoldenCompare, ExtendData, Golden.ExtendByte, Golden.ExtendHalf;
    LoadDecoded(inst);
  }

  lemma StoreDiffers(inst: Word)
    requires Opcode(inst) == OPCODE_STORE && !Supported(inst)
    ensures !SameEffect(inst, 0, 0, 0, 0, 0)
  {
    hide RtlDecode, GoldenDecode, Opcode, Funct3, Rd, Rs1, Rs2, TakeBit, IImm, UImm, SImm, JImm, BImm, RtlAlu,
      GoldenAlu, RtlCompare, GoldenCompare, ExtendData, Golden.ExtendByte, Golden.ExtendHalf;
    StoreDecoded(inst);
  }

  lemma BranchDiffers(inst: Word)
    requires Opcode(inst) == OPCODE_BRANCH && !Supported(inst)
    ensures !SameEffect(inst, 0, 0, 0, 0, 0)
  {
    hide RtlDecode, GoldenDecode, Opcode, Funct3, Rd, Rs1, Rs2, TakeBit, IImm, UImm, SImm, JImm, BImm, RtlAlu,
      GoldenAlu, RtlCompare, GoldenCompare, ExtendData, Golden.ExtendByte, Golden.ExtendHalf;
    BranchDecoded(inst);
    AlusAgree(ALU_OP_ADD, 0, BImm(inst));
    CompareAgrees(Funct3(inst), 0, 0);
    AddIsAdd(0, BImm(inst));
  }

  lemma SystemDiffers(inst: Word)
    requires Opcode(inst) == OPCODE_SYSTEM && !Supported(inst)
    ensures !SameEffect(inst, 0, 0, 0, 0, 0)
  {
    hide RtlDecode, GoldenDecode, Opcode, Funct3, Rd, Rs1, Rs2, TakeBit, IImm, UImm, SImm, JImm, BImm, RtlAlu,
      GoldenAlu, RtlCompare, GoldenCompare, ExtendData, Golden.ExtendByte, Golden.ExtendHalf;
    SystemDecoded(inst);
  }

  /** The supported words are exactly those on which the datapaths agree for all operands. */
  lemma SupportedIsExact(inst: Word)
    ensures Supported(inst) <==> forall pc, r1, r2, csr, read :: SameEffect(inst, pc, r1, r2, csr, read)
  {
    hide SameEffect, Opcode;
    if Supported(inst) {
      forall pc, r1, r2, csr, read ensures SameEffect(inst, pc, r1, r2, csr, read) {
        SupportedAgrees(inst, pc, r1, r2, csr, read);
      }
    } else if Opcode(inst) == OPCODE_LOAD {
      LoadDiffers(inst);
    } else if Opcode(inst) == OPCODE_STORE {
      StoreDiffers(inst);
    } else if Opcode(inst) == OPCODE_BRANCH {
      BranchDiffers(inst);
    } else {
      SystemDiffers(inst);
    }
  }
}
