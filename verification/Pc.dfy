/** The program counter register. */
module Pc {
  import opened Words
  import Golden

  class ProgramCounter {
    var value: Word

    constructor ()
      ensures value == Golden.INITIAL_PC
    {
      value := Golden.INITIAL_PC;
    }

    method Reset()
      modifies this
      ensures value == Golden.INITIAL_PC
    {
      value := Golden.INITIAL_PC;
    }

    method Clock(wen: bool, wdata: Word)
      modifies this
      ensures value == if wen then wdata else old(value)
    {
      if wen {
        value := wdata;
      }
    }
  }
}
