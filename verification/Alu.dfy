/** The two arithmetic units: the golden model's and the hardware's. */
module Alu {
  import opened Words

  // Operation codes shared by both sides.
  const ALU_OP_ADD: bv4 := 0
  const ALU_OP_SLL: bv4 := 1
  const ALU_OP_SLT: bv4 := 2
  const ALU_OP_SLTU: bv4 := 3
  const ALU_OP_XOR: bv4 := 4
  const ALU_OP_SRL: bv4 := 5
  const ALU_OP_OR: bv4 := 6
  const ALU_OP_AND: bv4 := 7
  const ALU_OP_SUB: bv4 := 8
  const ALU_OP_SRA: bv4 := 13
  // Codes only the hardware has.
  const ALU_OP_LHS: bv4 := 10
  const ALU_OP_RHS: bv4 := 11
  const ALU_OP_ANDN: bv4 := 15

  const COM_OP_EQ: bv3 := 0
  const COM_OP_NE: bv3 := 1
  const COM_OP_ONE: bv3 := 2
  const COM_OP_LT: bv3 := 4
  const COM_OP_GE: bv3 := 5
  const COM_OP_LTU: bv3 := 6
  const COM_OP_GEU: bv3 := 7

  function Bit(b: bool): Word { if b then 1 else 0 }

  /** Arithmetic right shift of the golden model: shift, then fill with ones if negative. */
  function Sra32(u: Word, shift: Word): Word
    requires shift < 32
  {
    if shift == 0 then u
    else
      var shifted := u >> shift;
      if Negative(u) then shifted | (0xFFFF_FFFF << (32 - shift)) else shifted
  }

  /** `alu_eval`: unknown codes give zero. */
  function GoldenAlu(op: bv4, lhs: Word, rhs: Word): Word {
    var shamt := TakeBits(rhs, 0, 4);
    if op == ALU_OP_ADD then lhs + rhs
    else if op == ALU_OP_SUB then lhs - rhs
    else if op == ALU_OP_XOR then lhs ^ rhs
    else if op == ALU_OP_AND then lhs & rhs
    else if op == ALU_OP_OR then lhs | rhs
    else if op == ALU_OP_SLL then lhs << shamt
    else if op == ALU_OP_SRL then lhs >> shamt
    else if op == ALU_OP_SRA then Sra32(lhs, shamt)
    else if op == ALU_OP_SLT then Bit(SignedLess(lhs, rhs))
    else if op == ALU_OP_SLTU then Bit(lhs < rhs)
    else 0
  }

  /** The hardware's `>>>` on a signed operand: the vacated positions take the sign bit. */
  function ShiftRightArithmetic(lhs: Word, shamt: Word): Word
    requires shamt < 32
  {
    var vacated := !(0xFFFF_FFFF >> shamt);
    if Negative(lhs) then (lhs >> shamt) | vacated else lhs >> shamt
  }

  /** The `alu` module. */
  function RtlAlu(op: bv4, lhs: Word, rhs: Word): Word {
    var shamt := TakeBits(rhs, 0, 4);
    if op == ALU_OP_ADD then lhs + rhs
    else if op == ALU_OP_SUB then lhs - rhs
    else if op == ALU_OP_XOR then lhs ^ rhs
    else if op == ALU_OP_AND then lhs & rhs
    else if op == ALU_OP_ANDN then lhs & !rhs
    else if op == ALU_OP_OR then lhs | rhs
    else if op == ALU_OP_SLL then lhs << shamt
    else if op == ALU_OP_SRL then lhs >> shamt
    else if op == ALU_OP_SRA then ShiftRightArithmetic(lhs, shamt)
    else if op == ALU_OP_SLT then Bit(SignedLess(lhs, rhs))
    else if op == ALU_OP_SLTU then Bit(lhs < rhs)
    else if op == ALU_OP_LHS then lhs
    else if op == ALU_OP_RHS then rhs
    else 0
  }

  /** `compare`: unknown codes are false. */
  predicate GoldenCompare(op: bv3, lhs: Word, rhs: Word) {
    if op == COM_OP_EQ then lhs == rhs
    else if op == COM_OP_NE then lhs != rhs
    else if op == COM_OP_LT then SignedLess(lhs, rhs)
    else if op == COM_OP_GE then !SignedLess(lhs, rhs)
    else if op == COM_OP_LTU then lhs < rhs
    else if op == COM_OP_GEU then lhs >= rhs
    else false
  }

  /** The `com` module: the hardware's extra code is constantly true. */
  predicate RtlCompare(op: bv3, lhs: Word, rhs: Word) {
    if op == COM_OP_EQ then lhs == rhs
    else if op == COM_OP_NE then lhs != rhs
    else if op == COM_OP_LT then SignedLess(lhs, rhs)
    else if op == COM_OP_GE then !SignedLess(lhs, rhs)
    else if op == COM_OP_LTU then lhs < rhs
    else if op == COM_OP_GEU then lhs >= rhs
    else op == COM_OP_ONE
  }

  lemma FillMask(shamt: Word)
    requires 0 < shamt < 32
    ensures (0xFFFF_FFFF as Word) << (32 - shamt) == !((0xFFFF_FFFF as Word) >> shamt)
  {
  }

  /** Both arithmetic right shifts are the same function. */
  lemma ShiftsAgree(u: Word, shamt: Word)
    requires shamt < 32
    ensures ShiftRightArithmetic(u, shamt) == Sra32(u, shamt)
  {
    if shamt == 0 {
      assert (0xFFFF_FFFF as Word) >> shamt == 0xFFFF_FFFF;
    } else {
      FillMask(shamt);
    }
  }

  lemma AlusAgree(op: bv4, lhs: Word, rhs: Word)
    requires op != ALU_OP_LHS && op != ALU_OP_RHS && op != ALU_OP_ANDN
    ensures RtlAlu(op, lhs, rhs) == GoldenAlu(op, lhs, rhs)
  {
    ShiftsAgree(lhs, TakeBits(rhs, 0, 4));
  }
}
