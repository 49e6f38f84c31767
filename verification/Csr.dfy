/** The control and status registers: two identification constants and the cycle counter. */
module Csr {
  import opened Words

  const MARCHID: Word := 0x0531_8008
  const MVENDORID: Word := 0x616B_6562 // "akeb"

  const WRAP64: nat := 0x1_0000_0000_0000_0000

  /** A 64-bit counter register. */
  type Counter64 = n: nat | n < WRAP64

  function CsrRead(mcycle: Counter64, addr: Word): Word {
    if addr == 0xF12 then MARCHID
    else if addr == 0xF11 then MVENDORID
    else if addr == 0xB00 then (mcycle % 0x1_0000_0000) as Word
    else if addr == 0xB80 then (mcycle / 0x1_0000_0000) as Word
    else 0
  }

  class CsrUnit {
    var mcycle: Counter64

    constructor ()
      ensures mcycle == 0
    {
      mcycle := 0;
    }

    method Reset()
      modifies this
      ensures mcycle == 0
    {
      mcycle := 0;
    }

    method Clock()
      modifies this
      ensures mcycle == (old(mcycle) + 1) % WRAP64
    {
      mcycle := if mcycle == WRAP64 - 1 then 0 else mcycle + 1;
    }
  }
}
