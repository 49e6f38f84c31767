/** The golden model in its own form: registers and memory updated in place. */
module Gcpu {
  import opened Words
  import opened Alu
  import opened Decode
  import opened Memory
  import opened ByteArrays
  import opened Golden

  class Gcpu {
    var pc: Word
    const regs: array<Word>
    const store: ByteArrays
    var halt: bool
    var notMapped: bool
    var isMemWrite: bool
    var writtenAddress: Word

    ghost predicate Valid()
      reads this, store, store.mem, store.flash
    {
      regs.Length == N_REGS && store.Valid()
    }

    /** A machine just after it was allocated, with every memory byte zero. */
    constructor ()
      ensures Valid() && fresh(store) && fresh(store.mem) && fresh(store.flash) && fresh(regs)
      ensures View() == Golden.Reset(Mem(map[], map[]))
    {
      pc := INITIAL_PC;
      regs := new Word[N_REGS](_ => 0);
      store := new ByteArrays();
      halt := false;
      notMapped := false;
      isMemWrite := false;
      writtenAddress := 0;
      new;
      assert regs[..] == ZERO_REGS;
    }

    /** The machine this object represents. */
    ghost function View(): Machine
      requires Valid()
      reads this, store, store.mem, store.flash, regs
    {
      Machine(pc, regs[..], store.contents, halt, notMapped, isMemWrite, writtenAddress)
    }

    /** `g_flash_init` */
    method FlashInit(data: seq<Byte>, size: Word)
      requires Valid() && Value(size) <= |data| && Value(size) <= store.flash.Length
      modifies store`contents, store.flash
      ensures Valid() && View() == old(View()).(mem := store.contents) && store.contents.ram == old(store.contents.ram)
      ensures Flashed(old(store.contents.flash), store.contents.flash, data, Value(size))
    {
      hide Value, Holds, Flashed;
      store.FlashInit(data, size);
    }

    /** `g_mem_write` */
    method MemWrite(wen: bool, mask: bv4, addr: Word, wdata: Word)
      requires Valid()
      modifies this`isMemWrite, this`writtenAddress, this`notMapped, store, store.mem
      ensures Valid()
      ensures isMemWrite == wen
      ensures store.contents == if wen then GoldenWrite(old(store.contents), mask, addr, wdata) else old(store.contents)
      ensures writtenAddress == if wen then addr else old(writtenAddress)
      ensures notMapped == (old(notMapped) || (wen && WriteFaults(addr)))
    {
      hide Value, Holds, WordInside, PutMasked, InRam, InFlash, InUart, RamOffset;
      RegionsDisjoint(addr);
      UartApart(addr);
      isMemWrite := wen;
      if wen {
        writtenAddress := addr;
        if InFlash(addr) {
          notMapped := true;
        } else if InUart(addr) {
        } else if InRam(addr) {
          RamBytes(addr);
          store.PutBytes(mask, RamOffset(addr), wdata);
        } else {
          notMapped := true;
        }
      }
    }

    /** `g_mem_read` */
    method MemRead(addr: Word) returns (result: Word)
      requires Valid()
      modifies this`notMapped
      ensures Valid()
      ensures result == GoldenRead(store.contents, addr)
      ensures notMapped == (old(notMapped) || ReadFaults(addr))
    {
      hide Value, Holds, WordInside, WordAt, InRam, InFlash, InUart, RamOffset, FlashOffset;
      RegionsDisjoint(addr);
      UartApart(addr);
      result := 0;
      if InFlash(addr) {
        FlashBytes(addr);
        result := store.FlashWord(FlashOffset(addr));
      } else if InUart(addr) {
      } else if InRam(addr) {
        RamBytes(addr);
        result := store.RamWord(RamOffset(addr));
      } else {
        notMapped := true;
      }
    }

    /** `rf_write` */
    method RfWrite(enable: bool, rd: bv5, data: Word)
      requires Valid()
      modifies regs
      ensures Valid()
      ensures regs[..] == RegWrite(old(regs[..]), enable, rd, data)
    {
      if enable && rd != 0 && rd < 16 {
        regs[RegIndex(rd)] := data;
      }
    }

    /** `rf_read`, one port. */
    method RfRead(r: bv5) returns (data: Word)
      requires Valid()
      ensures data == RegRead(regs[..], r)
    {
      data := 0;
      if r < 16 {
        data := regs[RegIndex(r)];
      }
    }

    /** `pc_write` */
    method PcWrite(addr: Word, jump: bool)
      requires Valid()
      modifies this`pc
      ensures Valid()
      ensures pc == PcUpdate(old(pc), jump, addr)
    {
      if jump {
        pc := addr;
      } else {
        pc := pc + 4;
      }
    }

    /** `g_reset` */
    method Reset()
      requires Valid()
      modifies this`pc, this`halt, this`notMapped, this`isMemWrite, this`writtenAddress, regs
      ensures Valid()
      ensures View() == Golden.Reset(old(View()).mem)
    {
      hide Holds;
      pc := INITIAL_PC;
      halt := false;
      for i := 0 to N_REGS
        invariant pc == INITIAL_PC && !halt
        invariant forall j :: 0 <= j < i ==> regs[j] == 0
      {
        regs[i] := 0;
      }
      notMapped := false;
      isMemWrite := false;
      writtenAddress := 0;
      assert regs[..] == ZERO_REGS;
    }

    /** The updates at the end of `cpu_eval`. */
    method Commit(d: GoldenDecoded, out: Outcome, aluRes: Word, wdata: Word)
      requires Valid()
      modifies this, store, store.mem, regs
      ensures Valid()
      ensures pc == PcUpdate(old(pc), out.jump, aluRes)
      ensures regs[..] == RegWrite(old(regs[..]), out.regWrite, d.rd, out.regData)
      ensures store.contents == if out.memWrite then GoldenWrite(old(store.contents), d.writeMask, aluRes, wdata)
          else old(store.contents)
      ensures halt == d.halt
      ensures notMapped == (old(notMapped) || (out.memWrite && WriteFaults(aluRes)))
      ensures isMemWrite == out.memWrite
      ensures writtenAddress == if out.memWrite then aluRes else old(writtenAddress)
    {
      hide Holds, GoldenWrite, RegWrite, WriteFaults, PcUpdate;
      RfWrite(out.regWrite, d.rd, out.regData);
      MemWrite(out.memWrite, d.writeMask, aluRes, wdata);
      PcWrite(aluRes, out.jump);
      halt := d.halt;
    }

    method ReadIf(enable: bool, addr: Word) returns (read: Word)
      requires Valid()
      modifies this`notMapped
      ensures Valid()
      ensures read == if enable then GoldenRead(store.contents, addr) else 0
      ensures notMapped == (old(notMapped) || (enable && ReadFaults(addr)))
    {
      hide Holds, GoldenRead, ReadFaults;
      read := 0;
      if enable {
        read := MemRead(addr);
      }
    }

    /** The start of `cpu_eval`: an undefined instruction is marked as not mapped. */
    method FetchAndDecode() returns (d: GoldenDecoded)
      requires Valid()
      modifies this`notMapped
      ensures Valid()
      ensures d == DecodedOf(old(View()))
      ensures notMapped == (old(notMapped) || ReadFaults(WordBase(pc)) || d.kind == Undefined)
    {
      hide Holds, GoldenDecode, GoldenRead, WordBase, ReadFaults;
      var inst := MemRead(WordBase(pc));
      d := GoldenDecode(inst);
      if d.kind == Undefined {
        notMapped := true;
      }
    }

    /** Everything `cpu_eval` computes before it updates the state. */
    method Compute() returns (d: GoldenDecoded, aluRes: Word, r2: Word, out: Outcome)
      requires Valid()
      modifies this`notMapped
      ensures Valid()
      ensures d == DecodedOf(old(View()))
      ensures r2 == Operand2(old(View()))
      ensures aluRes == AddressOf(old(View()))
      ensures out == OutcomeOf(old(View()))
      ensures notMapped == (old(notMapped) || ReadFaults(WordBase(pc)) || d.kind == Undefined
        || (IsMemOp(d.kind) && ReadFaults(aluRes)))
    {
      hide Holds, DecodedOf, GoldenAlu, GoldenCompare, GoldenRead, Execute, RegRead, WordBase, ReadFaults, GoldenLhs,
        GoldenRhs;
      hide IsMemOp;
      d := FetchAndDecode();
      var r1 := RfRead(d.rs1);
      r2 := RfRead(d.rs2);
      aluRes := GoldenAlu(d.aluOp, GoldenLhs(d, pc, r1), GoldenRhs(d, r2));
      var taken := GoldenCompare(d.comOp, r1, r2);
      var read := ReadIf(IsMemOp(d.kind), aluRes);
      out := Execute(d, pc, aluRes, taken, read);
    }

    /** `cpu_eval` */
    method Eval() returns (stop: bool)
      requires Valid()
      modifies this, store, store.mem, regs
      ensures Valid()
      ensures View() == CpuEval(old(View()))
      ensures stop == halt
    {
      hide Holds, Operand2, RegWrite, CpuEval, PcUpdate, DecodedOf, AddressOf, OutcomeOf, GoldenWrite, ReadFaults,
        WriteFaults;
      hide WordBase;
      var d, aluRes, r2, out := Compute();
      EvalUnfolds(old(View()));
      Commit(d, out, aluRes, r2);
      stop := halt;
    }
  }
}
