/** The random program generator: what it can produce, and the register preamble that it always starts with. */
module Generator {
  import opened Words
  import opened WordArithmetic
  import opened Alu
  import opened Decode
  import opened Memory
  import opened Golden
  import opened Datapath
  import opened Encoders

  // ---------------------------------------------------------------- random instructions

  /** The random numbers drawn for one instruction, by opcode. A `pick` selects from a list of function codes. */
  datatype Draw =
    | DrawLui(imm: bv20, rd: bv4)
    | DrawAuipc(imm: bv20, rd: bv4)
    | DrawJal(imm: bv20, rd: bv4)
    | DrawJalr(offset: bv12, rs1: bv4, rd: bv4)
    | DrawBranch(offset: bv12, rs2: bv4, rs1: bv4, pick: nat)
    | DrawLoad(offset: bv12, rs1: bv4, rd: bv4, pick: nat)
    | DrawStore(offset: bv12, rs2: bv4, rs1: bv4, pick: nat)
    | DrawImmediate(offset: bv12, rs1: bv4, funct3: bv3, rd: bv4)
    | DrawRegister(rs2: bv4, rs1: bv4, alternate: bool, funct3: bv3, rd: bv4)
    | DrawEbreak
    | DrawNothing // no class of instructions is enabled

  const BRANCH_TYPES: seq<bv3> := [0, 1, 4, 5, 6, 7]
  const LOAD_TYPES: seq<bv3> := [0, 1, 2, 4, 5]
  const STORE_TYPES: seq<bv3> := [0, 1, 2]

  /** The ranges of the draws: the last branch type is never picked, and a base register is never x0. */
  predicate InRange(d: Draw) {
    match d
    case DrawBranch(_, _, _, pick) => pick < 5
    case DrawLoad(_, rs1, _, pick) => rs1 > 0 && pick < 5
    case DrawStore(_, _, rs1, pick) => rs1 > 0 && pick < 3
    case _ => true
  }

  /** A register drawn among the sixteen. */
  function Wide(r: bv4): bv5 { r as bv5 }

  /** `random_instruction` */
  function RandomInstruction(d: Draw): Word
    requires InRange(d)
  {
    match d
    case DrawLui(imm, rd) => EncodeU(imm, Wide(rd), OPCODE_LUI)
    case DrawAuipc(imm, rd) => EncodeU(imm, Wide(rd), OPCODE_AUIPC)
    case DrawJal(imm, rd) => EncodeU(imm, Wide(rd), OPCODE_JAL)
    case DrawJalr(offset, rs1, rd) => EncodeI(offset, Wide(rs1), 0, Wide(rd), OPCODE_JALR)
    case DrawBranch(offset, rs2, rs1, pick) =>
        EncodeS(offset, Wide(rs2), Wide(rs1), BRANCH_TYPES[pick], OPCODE_BRANCH)
    case DrawLoad(offset, rs1, rd, pick) => EncodeI(offset, Wide(rs1), LOAD_TYPES[pick], Wide(rd), OPCODE_LOAD)
    case DrawStore(offset, rs2, rs1, pick) => EncodeS(offset, Wide(rs2), Wide(rs1), STORE_TYPES[pick], OPCODE_STORE)
    case DrawImmediate(offset, rs1, funct3, rd) => EncodeI(offset, Wide(rs1), funct3, Wide(rd), OPCODE_CALC_IMM)
    case DrawRegister(rs2, rs1, alternate, funct3, rd) =>
      EncodeR(if alternate then 0x40 else 0, Wide(rs2), Wide(rs1), funct3, Wide(rd), OPCODE_CALC_REG)
    case DrawEbreak => EBREAK
    case DrawNothing => 0
  }

  lemma EbreakFields()
    ensures Opcode(EBREAK) == OPCODE_SYSTEM && Funct3(EBREAK) == 0 && Rd(EBREAK) == 0 && TakeBit(EBREAK, 20) == 1
  {
  }

  lemma ZeroFields()
    ensures Opcode(0) == 0
  {
  }

  // What makes the words of one encoder supported.
  lemma SupportedI(imm: bv12, rs1: bv5, funct3: bv3, rd: bv5, opcode: bv7)
    requires opcode == OPCODE_JALR || opcode == OPCODE_CALC_IMM || (opcode == OPCODE_LOAD && funct3 != 3 && funct3 < 6)
    ensures Supported(EncodeI(imm, rs1, funct3, rd, opcode))
  {
    hide EncodeI, Opcode, Rd, Funct3, BImm, TakeBit;
    FieldsOfI(imm, rs1, funct3, rd, opcode);
  }

  lemma SupportedS(imm: bv12, rs2: bv5, rs1: bv5, funct3: bv3, opcode: bv7)
    requires (opcode == OPCODE_BRANCH && funct3 != 2) || (opcode == OPCODE_STORE && funct3 < 3)
    ensures Supported(EncodeS(imm, rs2, rs1, funct3, opcode))
  {
    hide EncodeS, Opcode, Rd, Funct3, BImm, TakeBit;
    FieldsOfS(imm, rs2, rs1, funct3, opcode);
  }

  lemma SupportedU(imm: bv20, rd: bv5, opcode: bv7)
    requires opcode == OPCODE_LUI || opcode == OPCODE_AUIPC || opcode == OPCODE_JAL
    ensures Supported(EncodeU(imm, rd, opcode))
  {
    hide EncodeU, Opcode, Rd, Funct3, BImm, TakeBit;
    FieldsOfU(imm, rd, opcode);
  }

  lemma SupportedR(funct7: bv7, rs2: bv5, rs1: bv5, funct3: bv3, rd: bv5)
    ensures Supported(EncodeR(funct7, rs2, rs1, funct3, rd, OPCODE_CALC_REG))
  {
    hide EncodeR, Opcode, Rd, Funct3, BImm, TakeBit;
    FieldsOfR(funct7, rs2, rs1, funct3, rd, OPCODE_CALC_REG);
  }

  lemma SupportedOthers()
    ensures Supported(EBREAK) && Supported(0)
  {
    hide Opcode, Rd, Funct3, BImm, TakeBit;
    EbreakFields();
    ZeroFields();
  }

  /** Everything the generator produces is an instruction on which the processor and the golden model agree. */
  lemma GeneratedIsSupported(d: Draw)
    requires InRange(d)
    ensures Supported(RandomInstruction(d))
  {
    hide EncodeI, EncodeS, EncodeU, EncodeR, Supported, Wide;
    match d
    case DrawLui(imm, rd) => SupportedU(imm, Wide(rd), OPCODE_LUI);
    case DrawAuipc(imm, rd) => SupportedU(imm, Wide(rd), OPCODE_AUIPC);
    case DrawJal(imm, rd) => SupportedU(imm, Wide(rd), OPCODE_JAL);
    case DrawJalr(offset, rs1, rd) => SupportedI(offset, Wide(rs1), 0, Wide(rd), OPCODE_JALR);
    case DrawBranch(offset, rs2, rs1, pick) =>
        SupportedS(offset, Wide(rs2), Wide(rs1), BRANCH_TYPES[pick], OPCODE_BRANCH);
    case DrawLoad(offset, rs1, rd, pick) => SupportedI(offset, Wide(rs1), LOAD_TYPES[pick], Wide(rd), OPCODE_LOAD);
    case DrawStore(offset, rs2, rs1, pick) =>
        SupportedS(offset, Wide(rs2), Wide(rs1), STORE_TYPES[pick], OPCODE_STORE);
    case DrawImmediate(offset, rs1, funct3, rd) => SupportedI(offset, Wide(rs1), funct3, Wide(rd), OPCODE_CALC_IMM);
    case DrawRegister(rs2, rs1, alternate, funct3, rd) =>
      SupportedR(if alternate then 0x40 else 0, Wide(rs2), Wide(rs1), funct3, Wide(rd));
    case DrawEbreak => SupportedOthers();
    case DrawNothing => SupportedOthers();
  }

  // ---------------------------------------------------------------- what a draw decodes to

  lemma WideNumber(r: bv4)
    ensures Wide(r) as int == r as int && (Wide(r) == 0 <==> r == 0)
  {
  }

  /** The opcode each draw is meant for. */
  function OpcodeOfDraw(d: Draw): bv7 {
    match d
    case DrawLui(_, _) => 0x37
    case DrawAuipc(_, _) => 0x17
    case DrawJal(_, _) => 0x6F
    case DrawJalr(_, _, _) => 0x67
    case DrawBranch(_, _, _, _) => 0x63
    case DrawLoad(_, _, _, _) => 0x03
    case DrawStore(_, _, _, _) => 0x23
    case DrawImmediate(_, _, _, _) => 0x13
    case DrawRegister(_, _, _, _, _) => 0x33
    case DrawEbreak => 0x73
    case DrawNothing => 0
  }

  /** The registers, function code and immediate that the decoder finds in the word of a draw. */
  predicate DecodesAs(d: Draw, inst: Word)
    requires InRange(d)
  {
    && Opcode(inst) == OpcodeOfDraw(d)
    && match d
       case DrawLui(imm, rd) => Rd(inst) == Wide(rd) && UImm(inst) == UpperWord(imm)
       case DrawAuipc(imm, rd) => Rd(inst) == Wide(rd) && UImm(inst) == UpperWord(imm)
       case DrawJal(imm, rd) => Rd(inst) == Wide(rd) && JImm(inst) == JumpValue(imm)
       case DrawJalr(offset, rs1, rd) =>
         Rd(inst) == Wide(rd) && Rs1(inst) == Wide(rs1) && Funct3(inst) == 0 && IImm(inst) == SignExtend(offset)
       case DrawBranch(offset, rs2, rs1, pick) =>
         && Rs1(inst) == Wide(rs1) && Rs2(inst) == Wide(rs2) && BImm(inst) == BranchValue(offset)
         && Funct3(inst) == [0, 1, 4, 5, 6][pick]
       case DrawLoad(offset, rs1, rd, pick) =>
         && Rd(inst) == Wide(rd) && Rs1(inst) == Wide(rs1) && IImm(inst) == SignExtend(offset)
         && Rs1(inst) != 0
         && Funct3(inst) == [0, 1, 2, 4, 5][pick]
       case DrawStore(offset, rs2, rs1, pick) =>
         && Rs1(inst) == Wide(rs1) && Rs2(inst) == Wide(rs2) && SImm(inst) == SignExtend(offset)
         && Rs1(inst) != 0
         && Funct3(inst) == [0, 1, 2][pick]
       case DrawImmediate(offset, rs1, funct3, rd) =>
         Rd(inst) == Wide(rd) && Rs1(inst) == Wide(rs1) && Funct3(inst) == funct3 && IImm(inst) == SignExtend(offset)
       case DrawRegister(rs2, rs1, alternate, funct3, rd) =>
         && Rd(inst) == Wide(rd) && Rs1(inst) == Wide(rs1) && Rs2(inst) == Wide(rs2) && Funct3(inst) == funct3
         && (TakeBit(inst, 30) == 1 <==> alternate)
       case DrawEbreak => Funct3(inst) == 0 && Rd(inst) == 0 && TakeBit(inst, 20) == 1
       case DrawNothing => true
  }

  lemma UpperDecodes(d: Draw)
    requires InRange(d) && (d.DrawLui? || d.DrawAuipc?)
    ensures DecodesAs(d, RandomInstruction(d))
  {
    hide EncodeI, EncodeS, EncodeU, EncodeR, Wide, Opcode, Rd, Rs1, Rs2, Funct3, TakeBit, IImm, SImm, BImm, UImm,
      JImm, SignExtend, BranchValue, JumpValue, UpperWord;
    match d
    case DrawLui(imm, rd) => FieldsOfU(imm, Wide(rd), 0x37);
    case DrawAuipc(imm, rd) => FieldsOfU(imm, Wide(rd), 0x17);
  }

  lemma JumpDecodes(d: Draw)
    requires InRange(d) && (d.DrawJal? || d.DrawJalr?)
    ensures DecodesAs(d, RandomInstruction(d))
  {
    hide EncodeI, EncodeS, EncodeU, EncodeR, Wide, Opcode, Rd, Rs1, Rs2, Funct3, TakeBit, IImm, SImm, BImm, UImm,
      JImm, SignExtend, BranchValue, JumpValue, UpperWord;
    match d
    case DrawJal(imm, rd) =>
      FieldsOfU(imm, Wide(rd), 0x6F);
      JumpImmediate(imm, Wide(rd));
    case DrawJalr(offset, rs1, rd) =>
      FieldsOfI(offset, Wide(rs1), 0, Wide(rd), 0x67);
      ImmOfI(offset, Wide(rs1), 0, Wide(rd), 0x67);
  }

  lemma BranchDecodes(d: Draw)
    requires InRange(d) && d.DrawBranch?
    ensures DecodesAs(d, RandomInstruction(d))
  {
    hide EncodeI, EncodeS, EncodeU, EncodeR, Wide, Opcode, Rd, Rs1, Rs2, Funct3, TakeBit, IImm, SImm, BImm, UImm,
      JImm, SignExtend, BranchValue, JumpValue, UpperWord;
    FieldsOfS(d.offset, Wide(d.rs2), Wide(d.rs1), BRANCH_TYPES[d.pick], 0x63);
    BranchImmediate(d.offset, Wide(d.rs2), Wide(d.rs1), BRANCH_TYPES[d.pick], 0x63);
  }

  lemma LoadDecodes(d: Draw)
    requires InRange(d) && d.DrawLoad?
    ensures DecodesAs(d, RandomInstruction(d))
  {
    hide EncodeI, EncodeS, EncodeU, EncodeR, Wide, Opcode, Rd, Rs1, Rs2, Funct3, TakeBit, IImm, SImm, BImm, UImm,
      JImm, SignExtend, BranchValue, JumpValue, UpperWord;
    FieldsOfI(d.offset, Wide(d.rs1), LOAD_TYPES[d.pick], Wide(d.rd), 0x03);
    ImmOfI(d.offset, Wide(d.rs1), LOAD_TYPES[d.pick], Wide(d.rd), 0x03);
    WideNumber(d.rs1);
  }

  lemma StoreDecodes(d: Draw)
    requires InRange(d) && d.DrawStore?
    ensures DecodesAs(d, RandomInstruction(d))
  {
    hide EncodeI, EncodeS, EncodeU, EncodeR, Wide, Opcode, Rd, Rs1, Rs2, Funct3, TakeBit, IImm, SImm, BImm, UImm,
      JImm, SignExtend, BranchValue, JumpValue, UpperWord;
    FieldsOfS(d.offset, Wide(d.rs2), Wide(d.rs1), STORE_TYPES[d.pick], 0x23);
    ImmOfS(d.offset, Wide(d.rs2), Wide(d.rs1), STORE_TYPES[d.pick], 0x23);
    WideNumber(d.rs1);
  }

  lemma ImmediateDecodes(d: Draw)
    requires InRange(d) && d.DrawImmediate?
    ensures DecodesAs(d, RandomInstruction(d))
  {
    hide EncodeI, EncodeS, EncodeU, EncodeR, Wide, Opcode, Rd, Rs1, Rs2, Funct3, TakeBit, IImm, SImm, BImm, UImm,
      JImm, SignExtend, BranchValue, JumpValue, UpperWord;
    FieldsOfI(d.offset, Wide(d.rs1), d.funct3, Wide(d.rd), 0x13);
    ImmOfI(d.offset, Wide(d.rs1), d.funct3, Wide(d.rd), 0x13);
  }

  lemma RegisterDecodes(d: Draw)
    requires InRange(d) && d.DrawRegister?
    ensures DecodesAs(d, RandomInstruction(d))
  {
    hide EncodeI, EncodeS, EncodeU, EncodeR, Wide, Opcode, Rd, Rs1, Rs2, Funct3, TakeBit, IImm, SImm, BImm, UImm,
      JImm, SignExtend, BranchValue, JumpValue, UpperWord;
    FieldsOfR(if d.alternate then 0x40 else 0, Wide(d.rs2), Wide(d.rs1), d.funct3, Wide(d.rd), 0x33);
    UpperFieldsOfR(if d.alternate then 0x40 else 0, Wide(d.rs2), Wide(d.rs1), d.funct3, Wide(d.rd), 0x33);
  }

  lemma OtherDecodes(d: Draw)
    requires InRange(d) && (d.DrawEbreak? || d.DrawNothing?)
    ensures DecodesAs(d, RandomInstruction(d))
  {
    hide EncodeI, EncodeS, EncodeU, EncodeR, Wide, Opcode, Rd, Rs1, Rs2, Funct3, TakeBit, IImm, SImm, BImm, UImm,
      JImm, SignExtend, BranchValue, JumpValue, UpperWord;
    EbreakFields();
    ZeroFields();
  }

  /** Every draw comes back from the decoder; in particular no load or store has x0 as its base. */
  lemma DrawDecodes(d: Draw)
    requires InRange(d)
    ensures DecodesAs(d, RandomInstruction(d))
  {
    hide DecodesAs, RandomInstruction, InRange;
    match d
    case DrawLui(_, _) => UpperDecodes(d);
    case DrawAuipc(_, _) => UpperDecodes(d);
    case DrawJal(_, _) => JumpDecodes(d);
    case DrawJalr(_, _, _) => JumpDecodes(d);
    case DrawBranch(_, _, _, _) => BranchDecodes(d);
    case DrawLoad(_, _, _, _) => LoadDecodes(d);
    case DrawStore(_, _, _, _) => StoreDecodes(d);
    case DrawImmediate(_, _, _, _) => ImmediateDecodes(d);
    case DrawRegister(_, _, _, _, _) => RegisterDecodes(d);
    case DrawEbreak => OtherDecodes(d);
    case DrawNothing => OtherDecodes(d);
  }

  // ---------------------------------------------------------------- the preamble

  /** What the preamble draws for one register: the region, and the offset from its middle. */
  datatype Base = Base(ram: bool, offset: bv12)

  /** The upper twenty bits of the middle of the region. */
  function UpperBase(b: Base): bv20 {
    var start := if b.ram then MEM_START >> 12 else FLASH_START >> 12;
    var size := if b.ram then MEM_END - MEM_START else FLASH_END - FLASH_START;
    (start + (size >> 12) / 2) as bv20
  }

  function Middle(b: Base): Word {
    if b.ram then MEM_START + 0x100_0000 else FLASH_START + 0x80_0000
  }

  lemma UpperBaseIsMiddle(b: Base)
    ensures UpperWord(UpperBase(b)) == Middle(b)
  {
  }

  /** The middles of flash and RAM, as numbers. */
  lemma MiddleNumbers(b: Base)
    ensures Value(Middle(b)) == if b.ram then 0x8100_0000 else 0x3080_0000
  {
  }

  /** The register number `n`. */
  function RegNumber(n: nat): bv5
    requires n < N_REGS
  {
    n as bv5
  }

  lemma RegIndexOf(n: nat)
    requires n < N_REGS
    ensures RegNumber(n) < 16 && RegIndex(RegNumber(n)) == n && (n > 0 ==> RegNumber(n) != 0)
  {
  }

  /** Instructions `2 (rd - 1)` and `2 (rd - 1) + 1` load register `rd`. */
  function LoadUpper(b: Base, rd: nat): Word
    requires rd < N_REGS
  {
    EncodeU(UpperBase(b), RegNumber(rd), OPCODE_LUI)
  }

  function AddOffset(b: Base, rd: nat): Word
    requires rd < N_REGS
  {
    EncodeI(b.offset, RegNumber(rd), FUNCT3_ADD, RegNumber(rd), OPCODE_CALC_IMM)
  }

  /** The buffer starts with the preamble for `bases`. */
  predicate PreambleWritten(insts: seq<Word>, bases: seq<Base>)
    requires 2 * (N_REGS - 1) <= |insts|
  {
    && |bases| == N_REGS - 1
    && forall k :: 0 <= k < |bases| ==>
      insts[2 * k] == LoadUpper(bases[k], k + 1) && insts[2 * k + 1] == AddOffset(bases[k], k + 1)
  }

  /** The loop of `test_random` that writes the preamble into the instruction buffer. */
  method WritePreamble(insts: array<Word>, bases: seq<Base>)
    requires |bases| == N_REGS - 1 && insts.Length >= 2 * (N_REGS - 1)
    modifies insts
    ensures PreambleWritten(insts[..], bases)
    ensures forall i :: 2 * |bases| <= i < insts.Length ==> insts[i] == old(insts[i])
  {
    hide LoadUpper, AddOffset;
    var count := 0;
    for rd := 1 to N_REGS
      invariant count == 2 * (rd - 1)
      invariant forall k :: 0 <= k < rd - 1 ==> insts[2 * k] == LoadUpper(bases[k], k + 1)
      invariant forall k :: 0 <= k < rd - 1 ==> insts[2 * k + 1] == AddOffset(bases[k], k + 1)
      invariant forall i :: count <= i < insts.Length ==> insts[i] == old(insts[i])
    {
      insts[count] := LoadUpper(bases[rd - 1], rd);
      insts[count + 1] := AddOffset(bases[rd - 1], rd);
      count := count + 2;
    }
  }

  /** The address of instruction `i` of the program. */
  function PcAt(i: nat): Word {
    if i == 0 then INITIAL_PC else Following(PcAt(i - 1))
  }

  /** The preamble for `bases` is in memory, from the first instruction on. */
  predicate PreambleLoaded(m: Mem, bases: seq<Base>)
    requires |bases| == N_REGS - 1
  {
    forall k :: 0 <= k < |bases| ==>
      GoldenRead(m, PcAt(2 * k)) == LoadUpper(bases[k], k + 1)
          && GoldenRead(m, PcAt(2 * k + 1)) == AddOffset(bases[k], k + 1)
  }

  lemma {:induction false} PcIsAligned(i: nat)
    ensures WordBase(PcAt(i)) == PcAt(i)
  {
    hide WordBase, Following;
    if i == 0 {
      StartIsAligned();
    } else {
      PcIsAligned(i - 1);
      StaysAligned(PcAt(i - 1));
    }
  }

  lemma StaysAligned(pc: Word)
    requires WordBase(pc) == pc
    ensures WordBase(Following(pc)) == Following(pc)
  {
  }

  lemma StartIsAligned()
    ensures WordBase(INITIAL_PC) == INITIAL_PC
  {
  }

  // ---------------------------------------------------------------- running it

  /** `lui` puts its immediate into the register. */
  lemma UpperStep(g: Machine, rd: nat, imm: bv20)
    requires 0 < rd < N_REGS && InstOf(g) == EncodeU(imm, RegNumber(rd), OPCODE_LUI)
    ensures CpuEval(g).pc == Following(g.pc) && CpuEval(g).mem == g.mem
    ensures CpuEval(g).regs == g.regs[rd := UpperWord(imm)]
  {
    hide EncodeU, GoldenDecode, CpuEval, RegNumber, RegIndex, InstOf, AddressOf, GoldenWrite, ExtendByte, ExtendHalf,
      GoldenCompare;
    EvalUnfolds(g);
    DecodeUpper(imm, RegNumber(rd));
    RegIndexOf(rd);
  }

  lemma AluAdds(a: Word, b: Word)
    ensures GoldenAlu(ALU_OP_ADD, a, b) == Sum(a, b)
  {
  }

  lemma AddResult(g: Machine, rd: nat, imm: bv12)
    requires 0 < rd < N_REGS && InstOf(g) == EncodeI(imm, RegNumber(rd), FUNCT3_ADD, RegNumber(rd), OPCODE_CALC_IMM)
    ensures AddressOf(g) == Sum(g.regs[rd], SignExtend(imm))
  {
    hide EncodeI, GoldenDecode, RegNumber, RegIndex, InstOf, SignExtend, GoldenAlu, Sum;
    DecodeImmediate(imm, RegNumber(rd), FUNCT3_ADD, RegNumber(rd));
    RegIndexOf(rd);
    AluAdds(g.regs[rd], SignExtend(imm));
  }

  /** `addi` from a register to itself adds the signed offset. */
  lemma AddStep(g: Machine, rd: nat, imm: bv12)
    requires 0 < rd < N_REGS && InstOf(g) == EncodeI(imm, RegNumber(rd), FUNCT3_ADD, RegNumber(rd), OPCODE_CALC_IMM)
    ensures CpuEval(g).pc == Following(g.pc) && CpuEval(g).mem == g.mem
    ensures CpuEval(g).regs == g.regs[rd := Sum(g.regs[rd], SignExtend(imm))]
  {
    hide EncodeI, GoldenDecode, CpuEval, RegNumber, RegIndex, InstOf, AddressOf, GoldenWrite, ExtendByte, ExtendHalf,
      GoldenCompare, SignExtend, Sum;
    EvalUnfolds(g);
    DecodeImmediate(imm, RegNumber(rd), FUNCT3_ADD, RegNumber(rd));
    AddResult(g, rd, imm);
    RegIndexOf(rd);
  }

  /** Register `k + 1` after its two instructions. */
  function BaseValue(b: Base): Word { Sum(Middle(b), SignExtend(b.offset)) }

  /** After `2 k` instructions the first `k` registers are loaded. */
  predicate Loaded(g: Machine, m: Mem, bases: seq<Base>, k: nat)
    requires k <= |bases| == N_REGS - 1
  {
    && g.pc == PcAt(2 * k) && g.mem == m
    && forall j :: 0 <= j < k ==> g.regs[j + 1] == BaseValue(bases[j])
  }

  lemma LoadOne(g: Machine, m: Mem, bases: seq<Base>, k: nat)
    requires |bases| == N_REGS - 1 && k < |bases|
    requires PreambleLoaded(m, bases) && Loaded(g, m, bases, k)
    ensures Loaded(CpuEval(CpuEval(g)), m, bases, k + 1)
  {
    hide CpuEval, EncodeU, EncodeI, UpperBase, Middle, SignExtend, GoldenRead, RegNumber, WordBase, Sum, Following;
    var b, h := bases[k], CpuEval(g);
    PcIsAligned(2 * k);
    PcIsAligned(2 * k + 1);
    UpperStep(g, k + 1, UpperBase(b));
    UpperBaseIsMiddle(b);
    assert PcAt(2 * k + 1) == Following(PcAt(2 * k));
    assert PcAt(2 * k + 2) == Following(PcAt(2 * k + 1));
    AddStep(h, k + 1, b.offset);
  }

  lemma {:induction false} PreambleRuns(m: Mem, bases: seq<Base>, k: nat)
    requires k <= |bases| == N_REGS - 1 && PreambleLoaded(m, bases)
    ensures Loaded(GoldenRun(Golden.Reset(m), 2 * k), m, bases, k)
  {
    hide CpuEval, PreambleLoaded, BaseValue;
    if k == 0 {
    } else {
      PreambleRuns(m, bases, k - 1);
      LoadOne(GoldenRun(Golden.Reset(m), 2 * (k - 1)), m, bases, k - 1);
    }
  }

  /** A signed twelve-bit offset from the middle, plus another one, stays inside the region. */
  lemma TwoOffsetsMapped(b: Base, offset: bv12)
    ensures Mapped(Sum(BaseValue(b), SignExtend(offset)))
  {
  }

  /**
   * After the thirty instructions of the preamble, for every draw, each of x1 to x15 lies within
   * 2048 bytes of the middle of flash or RAM, and every load or store relative to it is mapped.
   */
  lemma PreambleReachesMemory(m: Mem, bases: seq<Base>, n: nat, offset: bv12)
    requires |bases| == N_REGS - 1 && PreambleLoaded(m, bases) && 0 < n < N_REGS
    ensures
      var g := GoldenRun(Golden.Reset(m), 30);
      && g.mem == m && g.pc == PcAt(30)
      && g.regs[n] == Sum(Middle(bases[n - 1]), SignExtend(bases[n - 1].offset))
      && Mapped(Sum(g.regs[n], SignExtend(offset)))
  {
    hide Middle, SignExtend, CpuEval, Mapped, PreambleLoaded, GoldenRun, PcAt, Sum;
    PreambleRuns(m, bases, 15);
    TwoOffsetsMapped(bases[n - 1], offset);
  }
}
