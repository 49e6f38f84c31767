/** The decoder's registers; its combinational part is `Decode.RtlDecode`. */
module Idu {
  import opened Words

  class IduUnit {
    var inst: Word
    var respValid: bool

    /** Powering up; reset itself touches neither register. */
    constructor (initial: Word)
      ensures inst == initial && !respValid
    {
      inst := initial;
      respValid := false;
    }

    method Clock(reqValid: bool, instIn: Word)
      modifies this
      ensures respValid == reqValid
      ensures inst == if reqValid then instIn else old(inst)
    {
      if reqValid {
        inst := instIn;
        respValid := true;
      } else {
        respValid := false;
      }
    }
  }
}
