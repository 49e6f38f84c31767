/**
 * What one step of the golden model does, instruction by instruction: the word is cut into numbers
 * at literal positions, and the registers, the pc and memory afterwards are described by numbers.
 */
module Execution {
  import opened Arithmetic
  import opened Words
  import opened WordArithmetic
  import opened Alu
  import opened Decode
  import opened Memory
  import opened Golden
  import opened Fields
  import opened Isa
  import opened MemoryMeaning

  // ---------------------------------------------------------------- fields of the decoder as numbers

  lemma SevenBits(w: Word)
    requires Value(w) < 128
    ensures (w as bv7) as int == Value(w)
  {
    hide Value, ByteOf, Digit;
    SmallPowers();
    SmallDigits();
    FitsByValue(w, 7);
    LowestByte(w);
    ByteValue(w);
  }

  lemma LowestByte(w: Word)
    requires Fits(w, 7)
    ensures ByteOf(w, 0) == (w as bv7) as bv8 && ByteOf(w, 1) == 0 && ByteOf(w, 2) == 0 && ByteOf(w, 3) == 0
    ensures w < 128
  {
  }

  lemma ByteValue(w: Word)
    requires w < 128 && ByteOf(w, 0) == (w as bv7) as bv8
    requires ByteOf(w, 1) == 0 && ByteOf(w, 2) == 0 && ByteOf(w, 3) == 0
    ensures Value(w) == (w as bv7) as int
  {
    hide ByteOf;
    WidenedByte(w as bv7);
  }

  lemma WidenedByte(b: bv7)
    ensures (b as bv8) as int == b as int
  {
  }

  lemma FiveOfSeven(w: Word)
    requires w < 32
    ensures (w as bv5) as int == (w as bv7) as int
  {
  }

  lemma ThreeOfSeven(w: Word)
    requires w < 8
    ensures (w as bv3) as int == (w as bv7) as int
  {
  }

  lemma Below32(w: Word)
    requires Value(w) < 32
    ensures w < 32
  {
    hide Value, Digit;
    SmallPowers();
    SmallDigits();
    FitsByValue(w, 5);
    FitsIn5(w);
  }

  lemma FitsIn5(w: Word)
    requires Fits(w, 5)
    ensures w < 32
  {
  }

  lemma Below8(w: Word)
    requires Value(w) < 8
    ensures w < 8
  {
    hide Value, Digit;
    SmallPowers();
    SmallDigits();
    FitsByValue(w, 3);
    FitsIn3(w);
  }

  lemma FitsIn3(w: Word)
    requires Fits(w, 3)
    ensures w < 8
  {
  }

  /** The decoder's fields are the numbers in the instruction's bits. */
  lemma FieldNumbers(inst: Word)
    ensures Opcode(inst) as int == Bits(inst, 0, 7)
    ensures Rd(inst) as int == Bits(inst, 7, 5)
    ensures Funct3(inst) as int == Bits(inst, 12, 3)
    ensures Rs1(inst) as int == Bits(inst, 15, 5)
    ensures Rs2(inst) as int == Bits(inst, 20, 5)
    ensures TakeBit(inst, 30) == 1 <==> Bits(inst, 30, 1) == 1
    ensures TakeBit(inst, 20) == 1 <==> Bits(inst, 20, 1) == 1
  {
    OpcodeNumber(inst);
    RdNumber(inst);
    Funct3Number(inst);
    Rs1Number(inst);
    Rs2Number(inst);
    hide Value, TakeBit, Bits, Opcode, Rd, Rs1, Rs2, Funct3;
    Bit30(inst);
    Bit20(inst);
    BitIsOne(inst, 30);
    BitIsOne(inst, 20);
  }

  lemma OpcodeNumber(inst: Word)
    ensures Opcode(inst) as int == Bits(inst, 0, 7)
  {
    hide Value, TakeBits, Bits, Pow2;
    SmallPowers();
    Slice0To6(inst);
    SevenBits(TakeBits(inst, 0, 6));
  }

  lemma FiveBits(w: Word)
    requires Value(w) < 32
    ensures w < 32 && (w as bv5) as int == Value(w)
  {
    hide Value;
    Below32(w);
    SevenBits(w);
    FiveOfSeven(w);
  }

  lemma RdNumber(inst: Word)
    ensures Rd(inst) as int == Bits(inst, 7, 5)
  {
    hide Value, TakeBits, Bits, Pow2;
    SmallPowers();
    Slice7To11(inst);
    FiveBits(TakeBits(inst, 7, 11));
  }

  lemma Rs1Number(inst: Word)
    ensures Rs1(inst) as int == Bits(inst, 15, 5)
  {
    hide Value, TakeBits, Bits, Pow2;
    SmallPowers();
    Slice15To19(inst);
    FiveBits(TakeBits(inst, 15, 19));
  }

  lemma Rs2Number(inst: Word)
    ensures Rs2(inst) as int == Bits(inst, 20, 5)
  {
    hide Value, TakeBits, Bits, Pow2;
    SmallPowers();
    Slice20To24(inst);
    FiveBits(TakeBits(inst, 20, 24));
  }

  lemma Funct3Number(inst: Word)
    ensures Funct3(inst) as int == Bits(inst, 12, 3)
  {
    hide Value, TakeBits, Bits, Pow2;
    SmallPowers();
    Slice12To14(inst);
    Below8(TakeBits(inst, 12, 14));
    SevenBits(TakeBits(inst, 12, 14));
    ThreeOfSeven(TakeBits(inst, 12, 14));
  }

  // ---------------------------------------------------------------- registers and operands

  /** Register number `n`; there are sixteen, and the others read as zero. */
  function X(g: Machine, n: nat): Word { if n < 16 then g.regs[n] else 0 }

  lemma IndexNumber(r: bv5)
    requires r as int < 16
    ensures r < 16 && RegIndex(r) == r as int
  {
  }

  lemma BeyondTheFile(r: bv5)
    requires r as int >= 16
    ensures r >= 16
  {
  }

  lemma ReadsNumber(g: Machine, r: bv5)
    ensures RegRead(g.regs, r) == X(g, r as int)
  {
    hide RegIndex;
    if r as int < 16 {
      IndexNumber(r);
    } else {
      BeyondTheFile(r);
    }
  }

  lemma ZeroNumber(r: bv5)
    ensures r == 0 <==> r as int == 0
  {
  }

  /** A write reaches exactly the registers 1 to 15. */
  lemma WritesNumber(regs: Regs, r: bv5, data: Word)
    ensures RegWrite(regs, true, r, data) == if 0 < r as int < 16 then regs[r as int := data] else regs
  {
    hide RegIndex;
    ZeroNumber(r);
    if r as int < 16 {
      IndexNumber(r);
    } else {
      BeyondTheFile(r);
    }
  }

  // The numbers of an instruction.
  function OpcodeOf(g: Machine): nat { Bits(InstOf(g), 0, 7) }
  function RdOf(g: Machine): nat { Bits(InstOf(g), 7, 5) }
  function Funct3Of(g: Machine): nat { Bits(InstOf(g), 12, 3) }
  function Source1(g: Machine): Word { X(g, Bits(InstOf(g), 15, 5)) }
  function Source2(g: Machine): Word { X(g, Bits(InstOf(g), 20, 5)) }

  lemma Sources(g: Machine)
    ensures DecodedOf(g).rs1 == Rs1(InstOf(g)) && DecodedOf(g).rs2 == Rs2(InstOf(g)) && DecodedOf(g).rd == Rd(InstOf(g))
    ensures Operand1(g) == Source1(g) && Operand2(g) == Source2(g)
  {
    hide InstOf, Bits, RegRead, X, GoldenDecode, Rd, Rs1, Rs2, Opcode, Funct3;
    DecodedRegisters(InstOf(g));
    FieldNumbers(InstOf(g));
    ReadsNumber(g, Rs1(InstOf(g)));
    ReadsNumber(g, Rs2(InstOf(g)));
  }

  lemma DecodedRegisters(inst: Word)
    ensures
      var d := GoldenDecode(inst);
      d.rd == Rd(inst) && d.rs1 == Rs1(inst) && d.rs2 == Rs2(inst)
  {
    hide Opcode, Funct3, Rd, Rs1, Rs2, IImm, SImm, UImm, JImm, BImm, TakeBit, CalcImmOp, CalcRegOp, LoadKind,
      StoreMask;
  }

  /** The registers afterwards: only register `rd` may have changed, and only if it is one of x1 to x15. */
  predicate WritesOnly(g: Machine, g': Machine, rd: nat, data: Word) {
    g'.regs == if 0 < rd < 16 then g.regs[rd := data] else g.regs
  }

  /** The register numbers that can be written. */
  predicate Writes(rd: nat) { 0 < rd < 16 }

  predicate KeepsOthers(g: Machine, g': Machine, rd: nat) {
    g'.regs == if Writes(rd) then g.regs[rd := g'.regs[rd]] else g.regs
  }

  lemma WritesThat(g: Machine, g': Machine, rd: nat, data: Word)
    requires WritesOnly(g, g', rd, data)
    ensures KeepsOthers(g, g', rd) && (Writes(rd) ==> g'.regs[rd] == data)
  {
  }

  /** The next pc is `n` bytes on. */
  predicate Moves(g: Machine, g': Machine, n: int) {
    Value(g'.pc) == (Value(g.pc) + n) % 0x1_0000_0000
  }

  lemma FollowingValue(pc: Word)
    ensures Value(Following(pc)) == (Value(pc) + 4) % 0x1_0000_0000
  {
    hide Value, Sum;
    FollowingIsSum(pc);
    ValueOfFour();
    SumValue(pc, 4);
  }

  lemma MovesOn(g: Machine, g': Machine)
    requires g'.pc == Following(g.pc)
    ensures Moves(g, g', 4)
  {
    hide Value, Following;
    FollowingValue(g.pc);
  }

  lemma MovesBy(g: Machine, g': Machine, offset: Word, n: int)
    requires g'.pc == Sum(g.pc, offset) && Signed(offset) == n
    ensures Moves(g, g', n)
  {
    hide Value, Sum, Signed;
    SignedSum(g.pc, offset);
  }

  lemma FollowingIsSum(pc: Word)
    ensures Following(pc) == Sum(pc, 4)
  {
  }

  lemma ValueOfFour()
    ensures Value(4) == 4
  {
  }

  lemma PcUpdates(pc: Word, jump: bool, target: Word)
    ensures PcUpdate(pc, jump, target) == if jump then target else Following(pc)
  {
  }

  lemma ModuloSigned(a: nat, v: nat, s: int)
    requires v == s || v == s + 0x1_0000_0000
    ensures (a + v) % 0x1_0000_0000 == (a + s) % 0x1_0000_0000
  {
  }

  /** Adding a word adds its signed number. */
  lemma SignedSum(a: Word, b: Word)
    ensures Value(Sum(a, b)) == (Value(a) + Signed(b)) % 0x1_0000_0000
  {
    hide Value, Sum, Negative;
    SumValue(a, b);
    ModuloSigned(Value(a), Value(b), Signed(b));
  }

  // ---------------------------------------------------------------- calculations

  lemma CodeOf(funct3: bv3, alternate: bool)
    requires alternate ==> funct3 == 0 || funct3 == 5
    ensures AluCode(alternate, funct3) == if alternate then (if funct3 == 0 then 8 else 13) else funct3 as bv4
  {
  }

  lemma Bv3Literals(f: bv3)
    ensures (f == 0 <==> f as int == 0) && (f == 1 <==> f as int == 1) && (f == 2 <==> f as int == 2)
    ensures (f == 3 <==> f as int == 3) && (f == 4 <==> f as int == 4) && (f == 5 <==> f as int == 5)
    ensures (f == 6 <==> f as int == 6) && (f == 7 <==> f as int == 7)
  {
  }

  lemma OpcodeLiterals(c: bv7)
    ensures (c == 0x33 <==> c as int == 0x33) && (c == 0x13 <==> c as int == 0x13) && (c == 0x63 <==> c as int == 0x63)
    ensures (c == 0x37 <==> c as int == 0x37) && (c == 0x17 <==> c as int == 0x17) && (c == 0x6F <==> c as int == 0x6F)
    ensures (c == 0x67 <==> c as int == 0x67) && (c == 0x03 <==> c as int == 0x03) && (c == 0x23 <==> c as int == 0x23)
    ensures c == 0x73 <==> c as int == 0x73
  {
  }

  /** Bit 30 turns an addition or a right shift into its alternative. */
  predicate Alternate(g: Machine) { Bits(InstOf(g), 30, 1) == 1 }

  lemma DecodesRegister(inst: Word)
    requires Opcode(inst) == 0x33
    ensures
      var d := GoldenDecode(inst);
      && d.kind == Reg && !d.halt
      && d.aluOp == AluCode(TakeBit(inst, 30) == 1 && (Funct3(inst) == 0 || Funct3(inst) == 5), Funct3(inst))
  {
    hide Opcode, Funct3, Rd, Rs1, Rs2, TakeBit, AluCode;
  }

  lemma DecodesImmediate(inst: Word)
    requires Opcode(inst) == 0x13
    ensures
      var d := GoldenDecode(inst);
      d.kind == Imm && d.imm == IImm(inst) && !d.halt
      && d.aluOp == AluCode(TakeBit(inst, 30) == 1 && Funct3(inst) == 5, Funct3(inst))
  {
    hide Opcode, Funct3, Rd, Rs1, Rs2, TakeBit, AluCode, IImm;
  }

  // One step of an instruction that writes a register, part by part.
  lemma FollowingIs(pc: Word)
    ensures Following(pc) == pc + 4
  {
  }

  lemma JumpOutcome(d: GoldenDecoded, pc: Word, aluRes: Word, taken: bool, read: Word)
    requires d.kind == Jump || d.kind == JumpReg
    ensures Execute(d, pc, aluRes, taken, read) == Outcome(true, pc + 4, false, true, aluRes)
  {
    hide ExtendByte, ExtendHalf;
  }

  lemma FollowingByKind(g: Machine)
    requires DecodedOf(g).kind == Jump || DecodedOf(g).kind == JumpReg
    ensures OutcomeOf(g) == Outcome(true, Following(g.pc), false, true, AddressOf(g))
  {
    hide DecodedOf, AddressOf, Following, GoldenCompare, ReadOf, Operand1, Operand2, Execute;
    var d := DecodedOf(g);
    JumpOutcome(d, g.pc, AddressOf(g), GoldenCompare(d.comOp, Operand1(g), Operand2(g)), ReadOf(g));
    FollowingIs(g.pc);
  }

  lemma ResultByKind(g: Machine)
    requires DecodedOf(g).kind in {Reg, Imm, AddUpperPc, Upper}
    ensures
      var d, a := DecodedOf(g), AddressOf(g);
      OutcomeOf(g) == Outcome(true, if d.kind == Upper then d.imm else a, false, false, a)
  {
    hide DecodedOf, AddressOf, GoldenCompare, ReadOf, Operand1, Operand2, ExtendByte, ExtendHalf;
  }

  lemma LoadedByKind(g: Machine)
    requires DecodedOf(g).kind in {LoadByte, LoadHalf, LoadWord}
    ensures
      var d, w := DecodedOf(g), GoldenRead(g.mem, AddressOf(g));
      OutcomeOf(g)
      == Outcome(true,
                 if d.kind == LoadByte then ExtendByte(w, d.memSigned)
                 else if d.kind == LoadHalf then ExtendHalf(w, d.memSigned) else w,
                 false, false, AddressOf(g))
  {
    hide DecodedOf, AddressOf, GoldenCompare, GoldenRead, ExtendByte, ExtendHalf, Operand1, Operand2;
  }

  lemma AddressByKind(g: Machine)
    ensures
      var d := DecodedOf(g);
      d.kind != Upper ==>
        AddressOf(g) == GoldenAlu(d.aluOp, if d.kind in {Jump, AddUpperPc, Branch} then g.pc else Source1(g),
                                  if d.kind == Reg then Source2(g) else d.imm)
  {
    Sources(g);
    hide DecodedOf, Operand1, Operand2, GoldenAlu, Source1, Source2, InstOf, Rd, Rs1, Rs2;
  }

  lemma RegisterEffect(g: Machine)
    requires OutcomeOf(g).regWrite && !OutcomeOf(g).memWrite
    ensures
      var g', o := CpuEval(g), OutcomeOf(g);
      && WritesOnly(g, g', RdOf(g), o.regData) && g'.mem == g.mem && g'.halt == DecodedOf(g).halt
      && g'.pc == (if o.jump then AddressOf(g) else Following(g.pc))
  {
    Sources(g);
    FieldNumbers(InstOf(g));
    hide CpuEval, DecodedOf, AddressOf, OutcomeOf, InstOf, Bits, RegWrite, PcUpdate, Following, Operand1, Operand2,
      Source1, Source2, Rd, Rs1, Rs2, Opcode, Funct3, TakeBit, ReadFaults, WriteFaults, WordBase;
    EvalUnfolds(g);
    WritesNumber(g.regs, Rd(InstOf(g)), OutcomeOf(g).regData);
    PcUpdates(g.pc, OutcomeOf(g).jump, AddressOf(g));
  }

  /** A calculation writes the result of its unit and moves on. */
  lemma CalculationStep(g: Machine)
    requires DecodedOf(g).kind == Reg || DecodedOf(g).kind == Imm
    ensures WritesOnly(g, CpuEval(g), RdOf(g), AddressOf(g)) && Moves(g, CpuEval(g), 4) && CpuEval(g).mem == g.mem
    ensures
      var d := DecodedOf(g);
      AddressOf(g) == GoldenAlu(d.aluOp, Source1(g), if d.kind == Reg then Source2(g) else d.imm)
  {
    hide DecodedOf, AddressOf, OutcomeOf, GoldenAlu, Bits, Value, WritesOnly, Following, Source1, Source2, CpuEval,
      InstOf, GoldenRead, ExtendByte, ExtendHalf;
    ResultByKind(g);
    AddressByKind(g);
    RegisterEffect(g);
    MovesOn(g, CpuEval(g));
  }

  /** Register operations. */
  lemma RegisterOperation(g: Machine)
    requires OpcodeOf(g) == 0x33
    ensures
      var g', f := CpuEval(g), Funct3Of(g);
      && Moves(g, g', 4) && g'.mem == g.mem && !g'.halt
      && KeepsOthers(g, g', RdOf(g))
      && (Writes(RdOf(g)) ==> Yields(f, Alternate(g) && (f == 0 || f == 5), Source1(g), Source2(g), g'.regs[RdOf(g)]))
  {
    hide CpuEval, InstOf, GoldenDecode, Bits, Value, GoldenAlu, Funct3, Opcode, TakeBit, Yields, Source1, Source2,
      Moves, WritesOnly, KeepsOthers, AluCode;
    var inst := InstOf(g);
    FieldNumbers(inst);
    OpcodeLiterals(Opcode(inst));
    Bv3Literals(Funct3(inst));
    DecodesRegister(inst);
    CalculationStep(g);
    EvalUnfolds(g);
    var alternate := TakeBit(inst, 30) == 1 && (Funct3(inst) == 0 || Funct3(inst) == 5);
    CodeOf(Funct3(inst), alternate);
    AluYields(Funct3(inst), alternate, Source1(g), Source2(g));
    WritesThat(g, CpuEval(g), RdOf(g), AddressOf(g));
  }

  /** Operations with an immediate. */
  lemma ImmediateOperation(g: Machine)
    requires OpcodeOf(g) == 0x13
    ensures
      var g', f := CpuEval(g), Funct3Of(g);
      && Moves(g, g', 4) && g'.mem == g.mem && !g'.halt
      && KeepsOthers(g, g', RdOf(g)) && Signed(IImm(InstOf(g))) == NumberI(InstOf(g))
      && (Writes(RdOf(g)) ==> Yields(f, Alternate(g) && f == 5, Source1(g), IImm(InstOf(g)), g'.regs[RdOf(g)]))
  {
    hide CpuEval, InstOf, GoldenDecode, Bits, Value, GoldenAlu, Funct3, Opcode, TakeBit, Yields, Source1, Source2,
      Moves, WritesOnly, KeepsOthers, AluCode, Signed, IImm;
    var inst := InstOf(g);
    FieldNumbers(inst);
    OpcodeLiterals(Opcode(inst));
    Bv3Literals(Funct3(inst));
    DecodesImmediate(inst);
    ImmediateI(inst);
    CalculationStep(g);
    EvalUnfolds(g);
    var alternate := TakeBit(inst, 30) == 1 && Funct3(inst) == 5;
    CodeOf(Funct3(inst), alternate);
    AluYields(Funct3(inst), alternate, Source1(g), IImm(inst));
    WritesThat(g, CpuEval(g), RdOf(g), AddressOf(g));
  }

  // ---------------------------------------------------------------- upper immediates and jumps

  lemma DecodesUpper(inst: Word)
    ensures
      var d := GoldenDecode(inst);
      && (Opcode(inst) == 0x37 ==> d.kind == Upper && d.imm == UImm(inst) && !d.halt)
      && (Opcode(inst) == 0x17 ==> d.kind == AddUpperPc && d.imm == UImm(inst) && d.aluOp == 0 && !d.halt)
  {
    hide Opcode, Funct3, Rd, Rs1, Rs2, TakeBit, AluCode, UImm;
  }

  lemma DecodesJump(inst: Word)
    ensures
      var d := GoldenDecode(inst);
      && (Opcode(inst) == 0x6F ==> d.kind == Jump && d.imm == JImm(inst) && d.aluOp == 0 && !d.halt)
      && (Opcode(inst) == 0x67 ==> d.kind == JumpReg && d.imm == IImm(inst) && d.aluOp == 0 && !d.halt)
  {
    hide Opcode, Funct3, Rd, Rs1, Rs2, TakeBit, AluCode, IImm, JImm;
  }

  lemma AluSums(a: Word, b: Word)
    ensures GoldenAlu(0, a, b) == Sum(a, b)
  {
    hide GoldenAlu, Sum;
    AddUnfolds(a, b);
    SumIs(a, b);
  }

  // What the kinds that write a register and touch no memory do.
  lemma UpperStep(g: Machine)
    requires DecodedOf(g).kind == Upper
    ensures
      var g' := CpuEval(g);
      && WritesOnly(g, g', RdOf(g), DecodedOf(g).imm)
      && g'.pc == Following(g.pc) && g'.mem == g.mem && g'.halt == DecodedOf(g).halt
  {
    hide DecodedOf, AddressOf, OutcomeOf, GoldenAlu, Bits, Value, WritesOnly, Following, Source1, Source2, CpuEval,
      InstOf, GoldenRead, ExtendByte, ExtendHalf;
    ResultByKind(g);
    AddressByKind(g);
    RegisterEffect(g);
  }

  lemma AddUpperStep(g: Machine)
    requires DecodedOf(g).kind == AddUpperPc
    ensures
      var g' := CpuEval(g);
      && WritesOnly(g, g', RdOf(g), AddressOf(g))
      && g'.pc == Following(g.pc) && g'.mem == g.mem && g'.halt == DecodedOf(g).halt
      && AddressOf(g) == GoldenAlu(DecodedOf(g).aluOp, g.pc, DecodedOf(g).imm)
  {
    hide DecodedOf, AddressOf, OutcomeOf, GoldenAlu, Bits, Value, WritesOnly, Following, Source1, Source2, CpuEval,
      InstOf, GoldenRead, ExtendByte, ExtendHalf;
    ResultByKind(g);
    AddressByKind(g);
    RegisterEffect(g);
  }

  lemma JumpStep(g: Machine)
    requires DecodedOf(g).kind == Jump
    ensures
      var g' := CpuEval(g);
      && WritesOnly(g, g', RdOf(g), Following(g.pc))
      && g'.pc == AddressOf(g) && g'.mem == g.mem && g'.halt == DecodedOf(g).halt
      && AddressOf(g) == GoldenAlu(DecodedOf(g).aluOp, g.pc, DecodedOf(g).imm)
  {
    hide DecodedOf, AddressOf, OutcomeOf, GoldenAlu, Bits, Value, WritesOnly, Following, Source1, Source2, CpuEval,
      InstOf, GoldenRead, ExtendByte, ExtendHalf;
    FollowingByKind(g);
    AddressByKind(g);
    RegisterEffect(g);
  }

  lemma JumpRegisterStep(g: Machine)
    requires DecodedOf(g).kind == JumpReg
    ensures
      var g' := CpuEval(g);
      && WritesOnly(g, g', RdOf(g), Following(g.pc))
      && g'.pc == AddressOf(g) && g'.mem == g.mem && g'.halt == DecodedOf(g).halt
      && AddressOf(g) == GoldenAlu(DecodedOf(g).aluOp, Source1(g), DecodedOf(g).imm)
  {
    hide DecodedOf, AddressOf, OutcomeOf, GoldenAlu, Bits, Value, WritesOnly, Following, Source1, Source2, CpuEval,
      InstOf, GoldenRead, ExtendByte, ExtendHalf;
    FollowingByKind(g);
    AddressByKind(g);
    RegisterEffect(g);
  }

  /** `lui` writes the upper immediate. */
  lemma LoadUpperImmediate(g: Machine)
    requires OpcodeOf(g) == 0x37
    ensures
      var g' := CpuEval(g);
      && Moves(g, g', 4) && g'.mem == g.mem && !g'.halt && KeepsOthers(g, g', RdOf(g))
      && (Writes(RdOf(g)) ==> Value(g'.regs[RdOf(g)]) == NumberU(InstOf(g)))
  {
    hide Moves, AddressOf, NumberU;
    hide CpuEval, InstOf, GoldenDecode, Bits, Value, GoldenAlu, Opcode, Source1, WritesOnly, KeepsOthers, Following,
      UImm;
    var inst := InstOf(g);
    FieldNumbers(inst);
    OpcodeLiterals(Opcode(inst));
    DecodesUpper(inst);
    ImmediateU(inst);
    UpperStep(g);
    WritesThat(g, CpuEval(g), RdOf(g), UImm(inst));
    MovesOn(g, CpuEval(g));
  }

  /** `auipc` adds it to the pc. */
  lemma AddUpperImmediate(g: Machine)
    requires OpcodeOf(g) == 0x17
    ensures
      var g' := CpuEval(g);
      && Moves(g, g', 4) && g'.mem == g.mem && !g'.halt && KeepsOthers(g, g', RdOf(g))
      && (Writes(RdOf(g)) ==>
            Value(g'.regs[RdOf(g)]) == (Value(g.pc) + NumberU(InstOf(g))) % 0x1_0000_0000)
  {
    hide Moves, AddressOf, NumberU;
    hide CpuEval, InstOf, GoldenDecode, Bits, Value, GoldenAlu, Opcode, Source1, WritesOnly, KeepsOthers, Following,
      UImm, Sum;
    var inst := InstOf(g);
    FieldNumbers(inst);
    OpcodeLiterals(Opcode(inst));
    DecodesUpper(inst);
    ImmediateU(inst);
    AddUpperStep(g);
    AluSums(g.pc, UImm(inst));
    SumValue(g.pc, UImm(inst));
    WritesThat(g, CpuEval(g), RdOf(g), Sum(g.pc, UImm(inst)));
    MovesOn(g, CpuEval(g));
  }

  /** `jal` jumps relative to the pc and links. */
  lemma JumpAndLink(g: Machine)
    requires OpcodeOf(g) == 0x6F
    ensures
      var g' := CpuEval(g);
      && Moves(g, g', NumberJ(InstOf(g))) && g'.mem == g.mem && !g'.halt && KeepsOthers(g, g', RdOf(g))
      && (Writes(RdOf(g)) ==> Value(g'.regs[RdOf(g)]) == (Value(g.pc) + 4) % 0x1_0000_0000)
  {
    hide Moves, AddressOf;
    hide CpuEval, InstOf, GoldenDecode, Bits, Value, Signed, GoldenAlu, Opcode, Source1, WritesOnly, KeepsOthers,
      Following, JImm, Sum, NumberJ;
    var inst := InstOf(g);
    FieldNumbers(inst);
    OpcodeLiterals(Opcode(inst));
    DecodesJump(inst);
    ImmediateJ(inst);
    JumpStep(g);
    AluSums(g.pc, JImm(inst));
    MovesBy(g, CpuEval(g), JImm(inst), NumberJ(inst));
    WritesThat(g, CpuEval(g), RdOf(g), Following(g.pc));
    FollowingValue(g.pc);
  }

  /** `jalr` jumps relative to a register and links; bit 0 of the target is kept. */
  lemma JumpRegisterAndLink(g: Machine)
    requires OpcodeOf(g) == 0x67
    ensures
      var g' := CpuEval(g);
      && Value(g'.pc) == (Value(Source1(g)) + NumberI(InstOf(g))) % 0x1_0000_0000
      && g'.mem == g.mem && !g'.halt && KeepsOthers(g, g', RdOf(g))
      && (Writes(RdOf(g)) ==> Value(g'.regs[RdOf(g)]) == (Value(g.pc) + 4) % 0x1_0000_0000)
  {
    hide Moves, AddressOf;
    hide CpuEval, InstOf, GoldenDecode, Bits, Value, Signed, GoldenAlu, Opcode, Source1, WritesOnly, KeepsOthers,
      Following, IImm, Sum, NumberI;
    var inst := InstOf(g);
    FieldNumbers(inst);
    OpcodeLiterals(Opcode(inst));
    DecodesJump(inst);
    ImmediateI(inst);
    JumpRegisterStep(g);
    AluSums(Source1(g), IImm(inst));
    SignedSum(Source1(g), IImm(inst));
    WritesThat(g, CpuEval(g), RdOf(g), Following(g.pc));
    FollowingValue(g.pc);
  }

  // ---------------------------------------------------------------- branches

  lemma DecodesBranch(inst: Word)
    requires Opcode(inst) == 0x63
    ensures
      var d := GoldenDecode(inst);
      d.kind == Branch && d.imm == BImm(inst) && d.aluOp == 0 && d.comOp == Funct3(inst) && !d.halt
  {
    hide Opcode, Funct3, Rd, Rs1, Rs2, TakeBit, AluCode, BImm;
  }

  lemma BranchStep(g: Machine)
    requires DecodedOf(g).kind == Branch
    ensures
      var g' := CpuEval(g);
      && g'.regs == g.regs && g'.mem == g.mem && g'.halt == DecodedOf(g).halt
      && AddressOf(g) == GoldenAlu(DecodedOf(g).aluOp, g.pc, DecodedOf(g).imm)
      && g'.pc == (if GoldenCompare(DecodedOf(g).comOp, Source1(g), Source2(g)) then AddressOf(g) else Following(g.pc))
  {
    hide CpuEval, InstOf, GoldenDecode, Bits, Value, RegRead, X, GoldenAlu, GoldenCompare, Rd, Rs1, Rs2,
      ExtendByte, ExtendHalf, GoldenRead, GoldenWrite, PcUpdate, Source1, Source2;
    EvalUnfolds(g);
    Sources(g);
    NoWrite(g.regs, DecodedOf(g).rd, OutcomeOf(g).regData);
    PcUpdates(g.pc, OutcomeOf(g).jump, AddressOf(g));
  }

  lemma NoWrite(regs: Regs, r: bv5, data: Word)
    ensures RegWrite(regs, false, r, data) == regs
  {
  }

  /** A branch is taken exactly if its condition holds of the operands. */
  lemma BranchOperation(g: Machine)
    requires OpcodeOf(g) == 0x63
    ensures
      var g' := CpuEval(g);
      && Moves(g, g', if Holds(Funct3Of(g), Source1(g), Source2(g)) then NumberB(InstOf(g)) else 4)
      && g'.regs == g.regs && g'.mem == g.mem && !g'.halt
  {
    hide CpuEval, InstOf, GoldenDecode, Bits, Value, Signed, GoldenAlu, GoldenCompare, Opcode, Funct3, Source1,
      Source2, Following, BImm, Sum, NumberB, Holds;
    var inst := InstOf(g);
    FieldNumbers(inst);
    OpcodeLiterals(Opcode(inst));
    DecodesBranch(inst);
    ImmediateB(inst);
    BranchStep(g);
    CompareHolds(Funct3(inst), Source1(g), Source2(g));
    AluSums(g.pc, BImm(inst));
    SignedSum(g.pc, BImm(inst));
    FollowingValue(g.pc);
  }

  // ---------------------------------------------------------------- system instructions

  lemma DecodesSystem(inst: Word)
    requires Opcode(inst) == 0x73
    ensures GoldenDecode(inst).kind == Undefined && GoldenDecode(inst).halt == (TakeBit(inst, 20) == 1)
  {
    hide Opcode, Funct3, Rd, Rs1, Rs2, TakeBit, AluCode;
  }

  lemma UndefinedStep(g: Machine)
    requires DecodedOf(g).kind == Undefined
    ensures
      var g' := CpuEval(g);
      g'.regs == g.regs && g'.mem == g.mem && g'.halt == DecodedOf(g).halt && g'.pc == Following(g.pc)
  {
    hide CpuEval, InstOf, GoldenDecode, Bits, Value, RegRead, X, GoldenAlu, GoldenCompare, Rd, Rs1, Rs2,
      ExtendByte, ExtendHalf, GoldenRead, GoldenWrite, PcUpdate;
    EvalUnfolds(g);
    NoWrite(g.regs, DecodedOf(g).rd, OutcomeOf(g).regData);
    PcUpdates(g.pc, OutcomeOf(g).jump, AddressOf(g));
  }

  /** A system instruction does nothing but stop, if bit 20 says so. */
  lemma SystemOperation(g: Machine)
    requires OpcodeOf(g) == 0x73
    ensures
      var g' := CpuEval(g);
      && Moves(g, g', 4) && g'.regs == g.regs && g'.mem == g.mem
      && (g'.halt <==> Bits(InstOf(g), 20, 1) == 1)
  {
    hide CpuEval, InstOf, GoldenDecode, Bits, Value, Opcode, TakeBit, Following;
    var inst := InstOf(g);
    FieldNumbers(inst);
    OpcodeLiterals(Opcode(inst));
    DecodesSystem(inst);
    UndefinedStep(g);
    FollowingValue(g.pc);
  }

  // ---------------------------------------------------------------- loads and stores

  lemma DecodesLoad(inst: Word)
    requires Opcode(inst) == 0x03
    ensures
      var d, f := GoldenDecode(inst), Funct3(inst);
      && d.imm == IImm(inst) && d.aluOp == 0 && !d.halt && d.memSigned == (f & 4 == 0)
      && (d.kind == LoadByte <==> f == 0 || f == 4) && (d.kind == LoadHalf <==> f == 1 || f == 5)
      && (d.kind == LoadWord <==> f == 2) && (d.kind == Undefined <==> f == 3 || f == 6 || f == 7)
      && (d.kind == LoadByte || d.kind == LoadHalf || d.kind == LoadWord || d.kind == Undefined)
  {
    hide Opcode, Funct3, Rd, Rs1, Rs2, TakeBit, AluCode, IImm;
  }

  lemma SignedCodes(f: bv3)
    ensures (f == 0 || f == 1 || f == 2 ==> f & 4 == 0) && (f == 4 || f == 5 ==> f & 4 != 0)
  {
  }

  lemma LoadStep(g: Machine)
    requires DecodedOf(g).kind in {LoadByte, LoadHalf, LoadWord}
    ensures
      var d, g', w := DecodedOf(g), CpuEval(g), GoldenRead(g.mem, AddressOf(g));
      && WritesOnly(g, g', RdOf(g),
                    if d.kind == LoadByte then ExtendByte(w, d.memSigned)
                    else if d.kind == LoadHalf then ExtendHalf(w, d.memSigned) else w)
      && g'.pc == Following(g.pc) && g'.mem == g.mem && g'.halt == d.halt
      && AddressOf(g) == GoldenAlu(d.aluOp, Source1(g), d.imm)
  {
    hide DecodedOf, AddressOf, OutcomeOf, GoldenAlu, Bits, Value, WritesOnly, Following, Source1, Source2, CpuEval,
      InstOf, GoldenRead, ExtendByte, ExtendHalf;
    LoadedByKind(g);
    AddressByKind(g);
    RegisterEffect(g);
  }

  /** A load writes what it makes of the word at its address. */
  lemma LoadOperation(g: Machine)
    requires OpcodeOf(g) == 0x03 && Funct3Of(g) in {0, 1, 2, 4, 5}
    ensures
      var g', a := CpuEval(g), AddressOf(g);
      && Value(a) == (Value(Source1(g)) + NumberI(InstOf(g))) % 0x1_0000_0000
      && Moves(g, g', 4) && g'.mem == g.mem && !g'.halt && KeepsOthers(g, g', RdOf(g))
      && (Writes(RdOf(g)) ==> Loads(Funct3Of(g), GoldenRead(g.mem, a), g'.regs[RdOf(g)]))
  {
    hide CpuEval, InstOf, GoldenDecode, Bits, Value, Signed, GoldenAlu, Opcode, Funct3, Source1, WritesOnly,
      KeepsOthers, Following, IImm, Sum, NumberI, Moves, AddressOf, GoldenRead, ExtendByte, ExtendHalf, Digit;
    var inst, f := InstOf(g), Funct3(InstOf(g));
    FieldNumbers(inst);
    OpcodeLiterals(Opcode(inst));
    Bv3Literals(f);
    SignedCodes(f);
    DecodesLoad(inst);
    ImmediateI(inst);
    LoadStep(g);
    AluSums(Source1(g), IImm(inst));
    SignedSum(Source1(g), IImm(inst));
    var w := GoldenRead(g.mem, AddressOf(g));
    ByteExtends(w);
    HalfExtends(w);
    var d := DecodedOf(g);
    WritesThat(g, CpuEval(g), RdOf(g),
               if d.kind == LoadByte then ExtendByte(w, d.memSigned)
               else if d.kind == LoadHalf then ExtendHalf(w, d.memSigned) else w);
    MovesOn(g, CpuEval(g));
  }

  lemma DecodesStore(inst: Word)
    requires Opcode(inst) == 0x23
    ensures
      var d, f := GoldenDecode(inst), Funct3(inst);
      && d.kind == StoreAny && d.imm == SImm(inst) && d.aluOp == 0 && !d.halt
      && d.writeMask == (if f == 0 then 1 else if f == 1 then 3 else if f == 2 then 15 else 0)
  {
    hide Opcode, Funct3, Rd, Rs1, Rs2, TakeBit, AluCode, SImm;
  }

  lemma MaskOfWidth(f: bv3)
    ensures MaskFor(if f == 0 then 1 else if f == 1 then 3 else if f == 2 then 15 else 0, StoreWidth(f as int))
  {
    MaskBits();
    Bv3Literals(f);
  }

  lemma StoreStep(g: Machine)
    requires DecodedOf(g).kind == StoreAny
    ensures
      var d, g' := DecodedOf(g), CpuEval(g);
      && g'.regs == g.regs && g'.pc == Following(g.pc) && g'.halt == d.halt
      && g'.mem == GoldenWrite(g.mem, d.writeMask, AddressOf(g), Source2(g))
      && AddressOf(g) == GoldenAlu(d.aluOp, Source1(g), d.imm)
  {
    hide CpuEval, InstOf, GoldenDecode, Bits, Value, RegRead, X, GoldenAlu, GoldenCompare, Rd, Rs1, Rs2,
      ExtendByte, ExtendHalf, GoldenRead, GoldenWrite, PcUpdate, Following, Source1, Source2;
    EvalUnfolds(g);
    Sources(g);
    NoWrite(g.regs, DecodedOf(g).rd, OutcomeOf(g).regData);
    PcUpdates(g.pc, OutcomeOf(g).jump, AddressOf(g));
  }

  /** A store writes the lowest bytes of its second source from its address on, if that is in RAM. */
  lemma StoreOperation(g: Machine)
    requires OpcodeOf(g) == 0x23
    ensures
      var g', a := CpuEval(g), AddressOf(g);
      && Value(a) == (Value(Source1(g)) + NumberS(InstOf(g))) % 0x1_0000_0000
      && Moves(g, g', 4) && g'.regs == g.regs && !g'.halt && g'.mem.flash == g.mem.flash
      && if 0x8000_0000 <= Value(a) < 0x81FF_FFFD
         then forall j: Word ::
                ByteAt(g'.mem.ram, j)
                == StoredByte(g.mem.ram, Value(a) - 0x8000_0000, StoreWidth(Funct3Of(g)), Source2(g), j)
         else g'.mem == g.mem
  {
    hide CpuEval, InstOf, GoldenDecode, Bits, Value, Signed, GoldenAlu, Opcode, Funct3, Source1, Source2, Following,
      SImm, Sum, NumberS, Moves, AddressOf, GoldenWrite, ByteAt, StoredByte, MaskFor, StoreWidth;
    var inst, f := InstOf(g), Funct3(InstOf(g));
    FieldNumbers(inst);
    OpcodeLiterals(Opcode(inst));
    DecodesStore(inst);
    MaskOfWidth(f);
    ImmediateS(inst);
    StoreStep(g);
    AluSums(Source1(g), SImm(inst));
    SignedSum(Source1(g), SImm(inst));
    WriteMeans(g.mem, DecodedOf(g).writeMask, StoreWidth(f as int), AddressOf(g), Source2(g));
    MovesOn(g, CpuEval(g));
  }

  // ---------------------------------------------------------------- instructions nobody defined

  /** The opcodes with a meaning. */
  predicate Known(opcode: nat) { opcode in {0x33, 0x13, 0x03, 0x23, 0x37, 0x17, 0x6F, 0x67, 0x63, 0x73} }

  /** The instructions the golden model does not implement: it flags them, system instructions included. */
  predicate NotImplemented(g: Machine) {
    !Known(OpcodeOf(g)) || OpcodeOf(g) == 0x73 || (OpcodeOf(g) == 0x03 && Funct3Of(g) in {3, 6, 7})
  }

  lemma DecodesUnknown(inst: Word)
    requires Opcode(inst) !in {0x33, 0x13, 0x03, 0x23, 0x37, 0x17, 0x6F, 0x67, 0x63, 0x73}
    ensures GoldenDecode(inst).kind == Undefined && !GoldenDecode(inst).halt
  {
    hide Opcode, Funct3, Rd, Rs1, Rs2, TakeBit, AluCode;
  }

  /** What the kinds stand for. */
  lemma KindNumbers(g: Machine)
    ensures DecodedOf(g).kind == Undefined <==> NotImplemented(g)
    ensures IsMemOp(DecodedOf(g).kind) <==> !NotImplemented(g) && (OpcodeOf(g) == 0x03 || OpcodeOf(g) == 0x23)
    ensures DecodedOf(g).kind == StoreAny <==> OpcodeOf(g) == 0x23
  {
    hide InstOf, GoldenDecode, Bits, Opcode, Funct3, TakeBit, IImm, SImm, BImm, UImm, JImm, AluCode;
    var inst := InstOf(g);
    FieldNumbers(inst);
    OpcodeLiterals(Opcode(inst));
    Bv3Literals(Funct3(inst));
    if OpcodeOf(g) == 0x33 {
      DecodesRegister(inst);
    } else if OpcodeOf(g) == 0x13 {
      DecodesImmediate(inst);
    } else if OpcodeOf(g) == 0x03 {
      DecodesLoad(inst);
    } else if OpcodeOf(g) == 0x23 {
      DecodesStore(inst);
    } else if OpcodeOf(g) == 0x37 || OpcodeOf(g) == 0x17 {
      DecodesUpper(inst);
    } else if OpcodeOf(g) == 0x6F || OpcodeOf(g) == 0x67 {
      DecodesJump(inst);
    } else if OpcodeOf(g) == 0x63 {
      DecodesBranch(inst);
    } else if OpcodeOf(g) == 0x73 {
      DecodesSystem(inst);
    } else {
      DecodesUnknown(inst);
    }
  }

  /** Apart from stopping, an instruction that is not implemented does nothing. */
  lemma UnknownOperation(g: Machine)
    requires NotImplemented(g)
    ensures Moves(g, CpuEval(g), 4) && CpuEval(g).regs == g.regs && CpuEval(g).mem == g.mem
  {
    hide InstOf, DecodedOf, CpuEval, Moves, Following, NotImplemented;
    KindNumbers(g);
    UndefinedStep(g);
    MovesOn(g, CpuEval(g));
  }

  // ---------------------------------------------------------------- the error flag

  /** An address outside flash, RAM and the device registers. */
  predicate Nowhere(a: nat) {
    && !(0x3000_0000 <= a < 0x30FF_FFFD) && !(0x8000_0000 <= a < 0x81FF_FFFD) && !(0x1000_0000 <= a < 0x1000_0FFF)
  }

  /** The pc without its last two bits. */
  function FetchAddress(g: Machine): nat { Value(g.pc) - Value(g.pc) % 4 }

  /** The address of a load or store, as a number. */
  function DataAddress(g: Machine): nat {
    var offset := if OpcodeOf(g) == 0x23 then NumberS(InstOf(g)) else NumberI(InstOf(g));
    (Value(Source1(g)) + offset) % 0x1_0000_0000
  }

  /** This instruction is flagged: it is not implemented, or it is fetched from, reads or writes where nothing is. */
  predicate Flagged(g: Machine) {
    || Nowhere(FetchAddress(g))
    || NotImplemented(g)
    || (OpcodeOf(g) in {0x03, 0x23} && Nowhere(DataAddress(g)))
    || (OpcodeOf(g) == 0x23 && 0x3000_0000 <= DataAddress(g) < 0x30FF_FFFD)
  }

  lemma FaultsByNumber(a: Word)
    ensures ReadFaults(a) <==> Nowhere(Value(a))
    ensures WriteFaults(a) <==> Nowhere(Value(a)) || 0x3000_0000 <= Value(a) < 0x30FF_FFFD
  {
    hide Value, InFlash, InRam, InUart;
    Regions(a);
  }

  lemma RoundedValue(pc: Word)
    ensures Value(WordBase(pc)) == Value(pc) - Value(pc) % 4
  {
    hide Value, Difference, Low;
    RoundedIsDifference(pc);
    DifferenceValue(pc, Low(pc, 2));
    TwoBits(pc);
  }

  lemma RoundedIsDifference(pc: Word)
    ensures WordBase(pc) == Difference(pc, Low(pc, 2))
  {
  }

  lemma TwoBits(pc: Word)
    ensures Value(Low(pc, 2)) == Value(pc) % 4
  {
    hide Value, Low, Digit;
    LowValue(pc, 2);
    DigitOfTwo();
    assert Pow2(2) == 4;
  }

  lemma DigitOfTwo()
    ensures Digit(2, 0) == 2
  {
  }

  lemma AddressNumber(g: Machine)
    requires OpcodeOf(g) == 0x23 || (OpcodeOf(g) == 0x03 && !NotImplemented(g))
    ensures Value(AddressOf(g)) == DataAddress(g)
  {
    hide InstOf, Bits, Value, Source1, NumberS, NumberI, CpuEval, AddressOf, Moves, KeepsOthers, Loads, StoredByte;
    if OpcodeOf(g) == 0x23 {
      StoreOperation(g);
    } else {
      Funct3Below8(g);
      LoadOperation(g);
    }
  }

  lemma Funct3Below8(g: Machine)
    ensures Funct3Of(g) < 8
  {
    hide InstOf, Value;
    SmallPowers();
  }

  lemma StoresWrite(g: Machine)
    ensures OutcomeOf(g).memWrite <==> DecodedOf(g).kind == StoreAny
  {
    hide DecodedOf, AddressOf, ReadOf, GoldenCompare, Operand1, Operand2, Execute;
    var d := DecodedOf(g);
    OnlyStoresWrite(d, g.pc, AddressOf(g), GoldenCompare(d.comOp, Operand1(g), Operand2(g)), ReadOf(g));
  }

  /** The record of a store: whether the instruction was one, and the address of the last one. */
  lemma StoreRecord(g: Machine)
    ensures CpuEval(g).isMemWrite <==> OpcodeOf(g) == 0x23
    ensures Value(CpuEval(g).writtenAddress) == if OpcodeOf(g) == 0x23 then DataAddress(g) else Value(g.writtenAddress)
  {
    hide InstOf, DecodedOf, Bits, Value, CpuEval, AddressOf, OutcomeOf, ReadFaults, WriteFaults, WordBase, DataAddress;
    EvalUnfolds(g);
    StoresWrite(g);
    KindNumbers(g);
    if OpcodeOf(g) == 0x23 {
      AddressNumber(g);
    }
  }

  /** One step sets the error flag exactly if its instruction is flagged; it never clears it. */
  lemma FlagStep(g: Machine)
    ensures CpuEval(g).notMapped <==> g.notMapped || Flagged(g)
  {
    hide InstOf, DecodedOf, Bits, Value, Source1, NumberS, NumberI, CpuEval, AddressOf, OutcomeOf, ReadFaults,
      WriteFaults, WordBase, Nowhere, DataAddress;
    EvalUnfolds(g);
    StoresWrite(g);
    KindNumbers(g);
    RoundedValue(g.pc);
    FaultsByNumber(WordBase(g.pc));
    FaultsByNumber(AddressOf(g));
    if OpcodeOf(g) == 0x23 || (OpcodeOf(g) == 0x03 && !NotImplemented(g)) {
      AddressNumber(g);
    }
  }

  /** After any number of instructions the flag is set exactly if one of them was flagged. */
  lemma {:induction false} FlagOfRun(m: Mem, k: nat)
    ensures
      GoldenRun(Golden.Reset(m), k).notMapped
      <==> exists j: nat :: j < k && Flagged(GoldenRun(Golden.Reset(m), j))
  {
    hide CpuEval, Flagged;
    if k == 0 {
    } else {
      FlagOfRun(m, k - 1);
      FlagStep(GoldenRun(Golden.Reset(m), k - 1));
    }
  }
}
