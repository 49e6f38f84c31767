/** The hardware register file. */
module Rf {
  import opened Words
  import Golden

  /** Operand reads of `rf`: register 0 and registers outside the file are zero. */
  function ReadPort(regs: Golden.Regs, r: bv5): Word {
    if r == 0 || r >= 16 then 0 else regs[Golden.RegIndex(r)]
  }

  class RegisterFile {
    const regs: array<Word>

    ghost predicate Valid() {
      regs.Length == Golden.N_REGS
    }

    ghost function Contents(): Golden.Regs
      requires Valid()
      reads regs
    {
      regs[..]
    }

    function Read(r: bv5): (data: Word)
      requires Valid()
      reads regs
      ensures data == ReadPort(Contents(), r)
    {
      if r == 0 || r >= 16 then 0 else regs[Golden.RegIndex(r)]
    }

    constructor ()
      ensures Valid() && fresh(regs)
    {
      regs := new Word[Golden.N_REGS](_ => 0);
    }

    method Reset()
      requires Valid()
      modifies regs
      ensures Contents() == Golden.ZERO_REGS
    {
      for i := 0 to Golden.N_REGS
        invariant forall k :: 0 <= k < i ==> regs[k] == 0
      {
        regs[i] := 0;
      }
    }

    method Clock(wen: bool, rd: bv5, wdata: Word)
      requires Valid()
      modifies regs
      ensures Contents() == Golden.RegWrite(old(Contents()), wen, rd, wdata)
    {
      if wen && rd != 0 && rd < 16 {
        regs[Golden.RegIndex(rd)] := wdata;
      }
    }
  }
}
