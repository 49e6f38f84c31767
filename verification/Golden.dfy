/** The golden model: one whole instruction per call of `CpuEval`. */
module Golden {
  import opened Words
  import opened Alu
  import opened Decode
  import opened Memory

  const INITIAL_PC: Word := 0x3000_0000
  const N_REGS := 16

  type Regs = r: seq<Word> | |r| == N_REGS witness [0, 0, 0, 0, 0, 0, 0, 0, 0, 0, 0, 0, 0, 0, 0, 0]

  const ZERO_REGS: Regs := [0, 0, 0, 0, 0, 0, 0, 0, 0, 0, 0, 0, 0, 0, 0, 0]

  datatype Machine = Machine(
    pc: Word,
    regs: Regs,
    mem: Mem,
    halt: bool,
    notMapped: bool,
    isMemWrite: bool,
    writtenAddress: Word)

  /** `g_reset`: memory is kept. */
  function Reset(mem: Mem): Machine {
    Machine(INITIAL_PC, ZERO_REGS, mem, false, false, false, 0)
  }

  /** `rf_read`: registers outside the file read as zero. */
  function RegRead(regs: Regs, r: bv5): Word {
    if r < 16 then regs[RegIndex(r)] else 0
  }

  function RegIndex(r: bv5): (i: nat)
    ensures i < N_REGS
  {
    ((r & 15) as bv4) as int
  }

  /** `rf_write`: writes to register 0 or outside the file are dropped. */
  function RegWrite(regs: Regs, enable: bool, r: bv5, data: Word): Regs {
    if enable && r != 0 && r < 16 then regs[RegIndex(r) := data] else regs
  }

  /** The parts of `cpu_eval` between the register reads and the state updates. */
  datatype Outcome = Outcome(regWrite: bool, regData: Word, memWrite: bool, jump: bool, target: Word)

  predicate IsMemOp(kind: GoldenKind) {
    kind == LoadByte || kind == LoadHalf || kind == LoadWord || kind == StoreAny
  }

  function GoldenLhs(d: GoldenDecoded, pc: Word, r1: Word): Word {
    if d.kind == Jump || d.kind == AddUpperPc || d.kind == Branch then pc else r1
  }

  function GoldenRhs(d: GoldenDecoded, r2: Word): Word {
    if d.kind == Reg then r2 else if d.kind == Upper then 0 else d.imm
  }

  function ExtendByte(w: Word, signed: bool): Word {
    Widen(TakeBits(w, 0, 7), TakeBit(w, 7) == 1 && signed, 0xFFFF_FF00)
  }

  function ExtendHalf(w: Word, signed: bool): Word {
    Widen(TakeBits(w, 0, 15), TakeBit(w, 15) == 1 && signed, 0xFFFF_0000)
  }

  /** `aluRes` and `taken` are the results of the two units, `read` the word read for a memory instruction. */
  function Execute(d: GoldenDecoded, pc: Word, aluRes: Word, taken: bool, read: Word): Outcome {
    match d.kind
    case LoadByte => Outcome(true, ExtendByte(read, d.memSigned), false, false, aluRes)
    case LoadHalf => Outcome(true, ExtendHalf(read, d.memSigned), false, false, aluRes)
    case LoadWord => Outcome(true, read, false, false, aluRes)
    case Upper => Outcome(true, d.imm, false, false, aluRes)
    case Jump => Outcome(true, pc + 4, false, true, aluRes)
    case JumpReg => Outcome(true, pc + 4, false, true, aluRes)
    case AddUpperPc => Outcome(true, aluRes, false, false, aluRes)
    case Reg => Outcome(true, aluRes, false, false, aluRes)
    case Imm => Outcome(true, aluRes, false, false, aluRes)
    case StoreAny => Outcome(false, 0, true, false, aluRes)
    case Branch => Outcome(false, 0, false, taken, aluRes)
    case Undefined => Outcome(false, 0, false, false, aluRes)
  }

  predicate ReadFaults(addr: Word) { !Mapped(addr) && !InUart(addr) }

  predicate WriteFaults(addr: Word) { !InRam(addr) && !InUart(addr) }

  /** `cpu_eval`: fetch, decode, execute and update the whole state at once. */
  function CpuEval(g: Machine): Machine {
    var fetchAddr := WordBase(g.pc);
    var d := GoldenDecode(GoldenRead(g.mem, fetchAddr));
    var r1, r2 := RegRead(g.regs, d.rs1), RegRead(g.regs, d.rs2);
    var aluRes := GoldenAlu(d.aluOp, GoldenLhs(d, g.pc, r1), GoldenRhs(d, r2));
    var read := if IsMemOp(d.kind) then GoldenRead(g.mem, aluRes) else 0;
    var out := Execute(d, g.pc, aluRes, GoldenCompare(d.comOp, r1, r2), read);
    Machine(
      if out.jump then out.target else g.pc + 4,
      RegWrite(g.regs, out.regWrite, d.rd, out.regData),
      if out.memWrite then GoldenWrite(g.mem, d.writeMask, aluRes, r2) else g.mem,
      d.halt,
      g.notMapped || ReadFaults(fetchAddr) || d.kind == Undefined
      || (IsMemOp(d.kind) && ReadFaults(aluRes)) || (out.memWrite && WriteFaults(aluRes)),
      out.memWrite,
      if out.memWrite then aluRes else g.writtenAddress)
  }

  // ---------------------------------------------------------------- one step, part by part

  // The instruction about to be executed, its operands, its ALU result, the word it reads, and its outcome.
  function InstOf(g: Machine): Word { GoldenRead(g.mem, WordBase(g.pc)) }
  function DecodedOf(g: Machine): GoldenDecoded { GoldenDecode(InstOf(g)) }
  function Operand1(g: Machine): Word { RegRead(g.regs, DecodedOf(g).rs1) }
  function Operand2(g: Machine): Word { RegRead(g.regs, DecodedOf(g).rs2) }

  function AddressOf(g: Machine): Word {
    var d := DecodedOf(g);
    GoldenAlu(d.aluOp, GoldenLhs(d, g.pc, Operand1(g)), GoldenRhs(d, Operand2(g)))
  }

  function ReadOf(g: Machine): Word {
    if IsMemOp(DecodedOf(g).kind) then GoldenRead(g.mem, AddressOf(g)) else 0
  }

  function OutcomeOf(g: Machine): Outcome {
    Execute(DecodedOf(g), g.pc, AddressOf(g), GoldenCompare(DecodedOf(g).comOp, Operand1(g), Operand2(g)), ReadOf(g))
  }

  /** The address of the instruction after the one at `pc`. */
  function Following(pc: Word): Word { pc + 4 }

  function PcUpdate(pc: Word, jump: bool, target: Word): Word {
    if jump then target else pc + 4
  }

  lemma TargetIsAluResult(d: GoldenDecoded, pc: Word, aluRes: Word, taken: bool, read: Word)
    ensures Execute(d, pc, aluRes, taken, read).target == aluRes
  {
    hide TakeBit, TakeBits, Widen;
  }

  lemma OnlyStoresWrite(d: GoldenDecoded, pc: Word, aluRes: Word, taken: bool, read: Word)
    ensures Execute(d, pc, aluRes, taken, read).memWrite == (d.kind == StoreAny)
  {
    hide ExtendByte, ExtendHalf;
  }

  lemma EvalUnfolds(g: Machine)
    ensures CpuEval(g).pc == PcUpdate(g.pc, OutcomeOf(g).jump, AddressOf(g))
    ensures CpuEval(g).regs == RegWrite(g.regs, OutcomeOf(g).regWrite, DecodedOf(g).rd, OutcomeOf(g).regData)
    ensures CpuEval(g).mem == if OutcomeOf(g).memWrite
        then GoldenWrite(g.mem, DecodedOf(g).writeMask, AddressOf(g), Operand2(g)) else g.mem
    ensures CpuEval(g).halt == DecodedOf(g).halt
    ensures CpuEval(g).notMapped == (g.notMapped || ReadFaults(WordBase(g.pc)) || DecodedOf(g).kind == Undefined
      || (IsMemOp(DecodedOf(g).kind) && ReadFaults(AddressOf(g)))
          || (OutcomeOf(g).memWrite && WriteFaults(AddressOf(g))))
    ensures CpuEval(g).isMemWrite == OutcomeOf(g).memWrite
    ensures CpuEval(g).writtenAddress == if OutcomeOf(g).memWrite then AddressOf(g) else g.writtenAddress
    ensures OutcomeOf(g).target == AddressOf(g)
  {
    hide GoldenDecode, GoldenAlu, GoldenCompare, GoldenRead, GoldenWrite, Execute, RegRead, RegWrite;
    hide ReadFaults, WriteFaults, WordBase, GoldenLhs, GoldenRhs;
    TargetIsAluResult(DecodedOf(g), g.pc, AddressOf(g), GoldenCompare(DecodedOf(g).comOp, Operand1(g), Operand2(g)),
        ReadOf(g));
  }

  /** The machine after `k` instructions. */
  function GoldenRun(g: Machine, k: nat): Machine {
    if k == 0 then g else CpuEval(GoldenRun(g, k - 1))
  }
}
