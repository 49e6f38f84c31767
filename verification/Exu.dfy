/** The execution unit: its controller and the selection of operands and results. */
module Exu {
  import opened Words
  import opened Alu
  import opened Decode

  // ---------------------------------------------------------------- controller

  datatype ExuState = ExuReset | ExuStart | ExuExecute | ExuStallIdu | ExuStallLsu

  function ExuNext(state: ExuState, reqValid: bool, isLsu: bool, lsuResp: bool): ExuState {
    var lsuOrExec := if isLsu && !lsuResp then ExuStallLsu else ExuExecute;
    match state
    case ExuReset => ExuStart
    case ExuStart => if reqValid then lsuOrExec else ExuStallIdu
    case ExuStallIdu => if reqValid then lsuOrExec else ExuStallIdu
    case ExuStallLsu => if lsuResp then ExuExecute else ExuStallLsu
    case ExuExecute => if reqValid then lsuOrExec else ExuStallIdu
  }

  // ---------------------------------------------------------------- datapath

  function AluLhs(d: RtlDecoded, pc: Word, r1: Word): Word {
    if d.instType == INST_JUMP || d.instType == INST_AUIPC || d.instType == INST_BRANCH then pc else r1
  }

  function AluRhs(d: RtlDecoded, r2: Word): Word {
    if d.instType == INST_REG then r2 else d.imm
  }

  function AluResult(d: RtlDecoded, pc: Word, r1: Word, r2: Word): Word {
    RtlAlu(d.aluOp, AluLhs(d, pc, r1), AluRhs(d, r2))
  }

  /** `rf_wdata`: anything not listed writes zero. */
  function Writeback(d: RtlDecoded, pc: Word, aluRes: Word, loaded: Word, csr: Word): Word {
    if d.IsJump() then pc + 4
    else if d.instType == INST_UPP || d.instType == INST_AUIPC || d.instType == INST_REG || d.instType == INST_IMM
    then aluRes
    else if d.instType == INST_CSR || d.instType == INST_CSRI then csr
    else if d.IsLoad() && (d.instType & 7 == 0 || d.instType & 7 == 1 || d.instType & 7 == 2
                           || d.instType & 7 == 4 || d.instType & 7 == 5)
    then loaded
    else 0
  }

  predicate BranchTaken(d: RtlDecoded, r1: Word, r2: Word) {
    d.IsBranch() && RtlCompare(d.comOp, r1, r2)
  }

  function PcNext(d: RtlDecoded, pc: Word, aluRes: Word, r1: Word, r2: Word): Word {
    if d.IsJump() || BranchTaken(d, r1, r2) then aluRes else pc + 4
  }

  // ---------------------------------------------------------------- registers

  class ExuUnit {
    var state: ExuState

    constructor ()
      ensures state == ExuReset
    {
      state := ExuReset;
    }

    method Reset()
      modifies this
      ensures state == ExuReset
    {
      state := ExuReset;
    }

    /** The next state; the instruction retires when it is `ExuExecute`. */
    method Combine(reqValid: bool, isLsu: bool, lsuResp: bool) returns (next: ExuState)
      ensures next == ExuNext(state, reqValid, isLsu, lsuResp)
    {
      var lsuOrExec := if isLsu && !lsuResp then ExuStallLsu else ExuExecute;
      next := state;
      match state {
        case ExuReset => next := ExuStart;
        case ExuStart =>
          next := ExuStallIdu;
          if reqValid {
            next := lsuOrExec;
          }
        case ExuStallIdu =>
          if reqValid {
            next := lsuOrExec;
          }
        case ExuStallLsu =>
          if lsuResp {
            next := ExuExecute;
          }
        case ExuExecute =>
          next := ExuStallIdu;
          if reqValid {
            next := lsuOrExec;
          }
      }
    }

    method Clock(next: ExuState)
      modifies this
      ensures state == next
    {
      state := next;
    }
  }
}
