/** The multi-cycle processor: its registers, its wires in one cycle, and the registers after the clock edge. */
module Cpu {
  import opened Words
  import opened Decode
  import opened Icache
  import opened Ifu
  import opened Rf
  import opened Csr
  import opened Exu
  import opened Lsu
  import opened Pc
  import opened Idu
  import Golden

  /** All registers of the processor. `decoded` is the decoder's response pulse. */
  datatype CpuState = CpuState(
    pc: Word,
    regs: Golden.Regs,
    fetchReq: bool,
    isStart: bool,
    ifu: IfuState,
    lines: Lines,
    writeValid: bool,
    inst: Word,
    decoded: bool,
    exu: ExuState,
    lsu: LsuRegs,
    mcycle: Counter64)

  /** The bus inputs of one cycle. */
  datatype BusIn = BusIn(fetchResp: bool, fetchData: Word, dataResp: bool, dataRead: Word)

  /** The wires of one cycle that other parts look at. */
  datatype Wires = Wires(
    fetch: IfuControl,
    fetchAddr: Word,
    fetched: Word,
    lsuReq: bool,
    lsu: LsuOut,
    exuNext: ExuState,
    retire: bool)

  function AccessOf(d: RtlDecoded, aluRes: Word, r2: Word): Access {
    Access(d.IsStore(), aluRes, r2, d.Size(), d.Signed())
  }

  // The instruction in the decoder, its operands and its ALU result.
  function DecNow(s: CpuState): RtlDecoded { RtlDecode(s.inst) }
  function Read1(s: CpuState): Word { ReadPort(s.regs, DecNow(s).rs1) }
  function Read2(s: CpuState): Word { ReadPort(s.regs, DecNow(s).rs2) }
  function AluNow(s: CpuState): Word { AluResult(DecNow(s), s.pc, Read1(s), Read2(s)) }

  /** The memory access of that instruction, whether or not it is one. */
  function AccessNow(s: CpuState): Access {
    AccessOf(DecNow(s), AluNow(s), Read2(s))
  }

  /** The register file and the pc if that instruction retires now, `loaded` being the load data. */
  function RegsAfter(s: CpuState, loaded: Word): Golden.Regs {
    var csr := CsrRead(s.mcycle, DecNow(s).imm & 0xFFF);
    Golden.RegWrite(s.regs, DecNow(s).WritesRegister(), DecNow(s).rd,
        Writeback(DecNow(s), s.pc, AluNow(s), loaded, csr))
  }

  function PcAfter(s: CpuState): Word {
    PcNext(DecNow(s), s.pc, AluNow(s), Read1(s), Read2(s))
  }

  function Observe(s: CpuState, i: BusIn): Wires {
    var fetch := FetchControl(s.ifu, s.fetchReq, i.fetchResp, Hit(s.lines, s.pc), s.writeValid);
    var fetched := if fetch.hit then Lookup(s.lines, s.pc).data else i.fetchData;
    var isMem := DecNow(s).IsMemory();
    var lsuReq := s.decoded && isMem;
    var lsu := LsuOutput(s.lsu, lsuReq, AccessNow(s), i.dataResp, i.dataRead);
    var exuNext := ExuNext(s.exu, s.decoded, isMem, lsu.respValid);
    Wires(fetch, s.pc, fetched, lsuReq, lsu, exuNext, exuNext == ExuExecute)
  }

  /** The registers after the clock edge. */
  function Next(s: CpuState, i: BusIn): CpuState {
    var w := Observe(s, i);
    CpuState(
      if w.retire then PcAfter(s) else s.pc,
      if w.retire then RegsAfter(s, w.lsu.rdata) else s.regs,
      w.retire || s.isStart,
      false,
      IfuNext(s.ifu, s.fetchReq, i.fetchResp, s.writeValid, w.fetch),
      if w.fetch.fill then Fill(s.lines, s.pc, w.fetched) else s.lines,
      w.fetch.fill,
      if w.fetch.respValid then w.fetched else s.inst,
      w.fetch.respValid,
      w.exuNext,
      LsuNext(s.lsu, w.lsuReq, AccessNow(s), i.dataResp, i.dataRead),
      (s.mcycle + 1) % WRAP64)
  }

  /** The registers under reset; the instruction register keeps whatever it held. */
  predicate ResetState(s: CpuState) {
    && s.pc == Golden.INITIAL_PC
    && s.regs == Golden.ZERO_REGS
    && !s.fetchReq && s.isStart
    && s.ifu == IfuIdle
    && (forall k :: 0 <= k < LINE_N ==> !s.lines[k].valid)
    && !s.writeValid
    && !s.decoded
    && s.exu == ExuReset
    && s.lsu == LSU_RESET
    && s.mcycle == 0
  }

  // ---------------------------------------------------------------- wiring

  /** The units of the processor and its two start registers. */
  class CpuUnit {
    const pc: ProgramCounter
    const ifu: IfuUnit
    const icache: IcacheUnit
    const idu: IduUnit
    const rf: RegisterFile
    const csr: CsrUnit
    const exu: ExuUnit
    const lsu: LsuUnit
    var ifuReqValid: bool
    var isStart: bool

    ghost predicate Valid() {
      icache.Valid() && rf.Valid()
    }

    /** Everything a clock edge writes. */
    ghost function Parts(): set<object> {
      {this, pc, ifu, icache, icache.lines, idu, rf.regs, csr, exu, lsu}
    }

    ghost function View(): CpuState
      requires Valid()
      reads Parts()
    {
      CpuState(pc.value, rf.Contents(), ifuReqValid, isStart, ifu.state, icache.Contents(), icache.writeValid,
               idu.inst, idu.respValid, exu.state, lsu.Registers(), csr.mcycle)
    }

    constructor (initial: Word)
      ensures Valid() && fresh(Parts())
      ensures ResetState(View())
    {
      pc := new ProgramCounter();
      ifu := new IfuUnit();
      icache := new IcacheUnit();
      idu := new IduUnit(initial);
      rf := new RegisterFile();
      csr := new CsrUnit();
      exu := new ExuUnit();
      lsu := new LsuUnit();
      ifuReqValid := false;
      isStart := true;
      new;
      icache.Reset();
      rf.Reset();
    }

    /** The combinational wires of the fetch side. */
    method CombineFetch(i: BusIn) returns (fetch: IfuControl, icacheResp: bool, fetched: Word)
      requires Valid()
      ensures DrivesFetch(fetch, icacheResp, fetched, View(), i)
    {
      hide Observe, FetchControl, Tag, Hit, Lookup;
      ObservedFetch(View(), i);
      HitIsMatch(icache.Contents(), pc.value);
      var line := icache.Read(pc.value);
      var present := line.valid && line.tag == Tag(pc.value);
      fetch, icacheResp := ifu.Combine(ifuReqValid, i.fetchResp, present, icache.writeValid);
      fetched := if fetch.hit then line.data else i.fetchData;
    }

    /** The combinational wires of the execution side, in dependency order. */
    method CombineExecute(i: BusIn) returns (e: ExecuteWires)
      requires Valid()
      ensures DrivesExecute(e, View(), i)
    {
      hide RtlDecode, AluResult, PcNext, Writeback, CsrRead, LsuOutput, ExuNext, FetchControl, Hit, Lookup, Split,
        RtlDecoded.IsMemory, RtlDecoded.WritesRegister, ReadPort, Control;
      var d := RtlDecode(idu.inst);
      var r1 := rf.Read(d.rs1);
      var r2 := rf.Read(d.rs2);
      var aluRes := AluResult(d, pc.value, r1, r2);
      var access := AccessOf(d, aluRes, r2);
      var lsuReq := idu.respValid && d.IsMemory();
      var lsuOut, lsuControl := lsu.Combine(lsuReq, access, i.dataResp, i.dataRead);
      var exuNext := exu.Combine(idu.respValid, d.IsMemory(), lsuOut.respValid);
      var wdata := Writeback(d, pc.value, aluRes, lsuOut.rdata, CsrRead(csr.mcycle, d.imm & 0xFFF));
      e := ExecuteWires(exuNext, PcNext(d, pc.value, aluRes, r1, r2), d.WritesRegister(), d.rd, wdata, lsuControl,
          access.isWrite);
    }

    /** The clock edge of the fetch side. */
    method EdgeFetch(i: BusIn, fetch: IfuControl, icacheResp: bool, fetched: Word)
      requires Valid()
      modifies ifu, icache, icache.lines, idu
      ensures View() == LoadFetch(old(View()), i, fetch, icacheResp, fetched)
    {
      hide Fill, LsuUnit.Registers;
      icache.Clock(fetch.fill, pc.value, fetched);
      ifu.Clock(ifuReqValid, i.fetchResp, icacheResp, fetch.next);
      idu.Clock(fetch.respValid, fetched);
    }

    /** The clock edge of the execution side and of the start registers. */
    method EdgeExecute(i: BusIn, e: ExecuteWires)
      requires Valid()
      modifies this, pc, rf.regs, csr, exu, lsu
      ensures View() == LoadExecute(old(View()), i, e)
    {
      hide Golden.RegWrite, UpperBits;
      EdgeRetire(e);
      EdgeControl(i, e);
    }

    /** The registers a retiring instruction writes. */
    method EdgeRetire(e: ExecuteWires)
      requires Valid()
      modifies pc, rf.regs
      ensures
        var s, retire := old(View()), e.exuNext == ExuExecute;
        View() == s.(pc := if retire then e.pcNext else s.pc,
                     regs := Golden.RegWrite(s.regs, e.regWrite && retire, e.rd, e.wdata))
    {
      hide Golden.RegWrite, LsuUnit.Registers;
      var retire := e.exuNext == ExuExecute;
      rf.Clock(e.regWrite && retire, e.rd, e.wdata);
      pc.Clock(retire, e.pcNext);
    }

    /** The registers that change in every cycle. */
    method EdgeControl(i: BusIn, e: ExecuteWires)
      requires Valid()
      modifies this, csr, exu, lsu
      ensures
        var s, retire := old(View()), e.exuNext == ExuExecute;
        View() == s.(fetchReq := retire || s.isStart,
                     isStart := false,
                     exu := e.exuNext,
                     lsu := LsuRegs(e.lsuControl.next,
                                    if !e.isWrite && i.dataResp then UpperBits(i.dataRead) else s.lsu.firstRead,
                                    e.lsuControl.reqNew),
                     mcycle := (s.mcycle + 1) % WRAP64)
    {
      hide UpperBits;
      csr.Clock();
      exu.Clock(e.exuNext);
      lsu.Clock(e.lsuControl, e.isWrite, i.dataResp, i.dataRead);
      ifuReqValid := e.exuNext == ExuExecute || isStart;
      isStart := false;
    }

    /** One clock cycle of the wired units is one step of the specification. */
    method Clock(i: BusIn)
      requires Valid()
      modifies Parts()
      ensures View() == Next(old(View()), i)
    {
      hide Next, LoadFetch, LoadExecute, DrivesFetch, DrivesExecute, View;
      var fetch, icacheResp, fetched := CombineFetch(i);
      var e := CombineExecute(i);
      DrivenLoad(View(), i, fetch, icacheResp, fetched, e);
      EdgeFetch(i, fetch, icacheResp, fetched);
      EdgeExecute(i, e);
    }
  }

  /** What the execution side presents to the registers at the clock edge. */
  datatype ExecuteWires = ExecuteWires(
    exuNext: ExuState, pcNext: Word, regWrite: bool, rd: bv5, wdata: Word, lsuControl: LsuControl, isWrite: bool)

  predicate DrivesFetch(fetch: IfuControl, icacheResp: bool, fetched: Word, s: CpuState, i: BusIn) {
    var w := Observe(s, i);
    && fetch == w.fetch && fetched == w.fetched
    && icacheResp == (s.writeValid || (s.ifu == IfuIdle && s.fetchReq))
  }

  predicate DrivesExecute(e: ExecuteWires, s: CpuState, i: BusIn) {
    var w, d := Observe(s, i), DecNow(s);
    && e.exuNext == w.exuNext
    && e.pcNext == PcAfter(s)
    && e.regWrite == d.WritesRegister() && e.rd == d.rd
    && e.wdata == Writeback(d, s.pc, AluNow(s), w.lsu.rdata, CsrRead(s.mcycle, d.imm & 0xFFF))
    && e.lsuControl == Control(s.lsu.state, w.lsuReq, AccessNow(s).Misaligned(), i.dataResp)
    && e.isWrite == AccessNow(s).isWrite
  }

  lemma HitIsMatch(lines: Lines, addr: Word)
    ensures Hit(lines, addr) == (Lookup(lines, addr).valid && Lookup(lines, addr).tag == Tag(addr))
  {
  }

  lemma ObservedFetch(s: CpuState, i: BusIn)
    ensures
      var w := Observe(s, i);
      && w.fetch == FetchControl(s.ifu, s.fetchReq, i.fetchResp, Hit(s.lines, s.pc), s.writeValid)
      && w.fetched == if w.fetch.hit then Lookup(s.lines, s.pc).data else i.fetchData
  {
    hide FetchControl, Hit, Lookup, LsuOutput, ExuNext, AccessNow, DecNow, RtlDecoded.IsMemory;
  }

  function LoadFetch(s: CpuState, i: BusIn, fetch: IfuControl, icacheResp: bool, fetched: Word): CpuState {
    s.(ifu := if s.fetchReq || i.fetchResp || icacheResp then fetch.next else s.ifu,
       lines := if fetch.fill then Fill(s.lines, s.pc, fetched) else s.lines,
       writeValid := fetch.fill,
       inst := if fetch.respValid then fetched else s.inst,
       decoded := fetch.respValid)
  }

  function LoadExecute(s: CpuState, i: BusIn, e: ExecuteWires): CpuState {
    var retire := e.exuNext == ExuExecute;
    s.(pc := if retire then e.pcNext else s.pc,
       regs := Golden.RegWrite(s.regs, e.regWrite && retire, e.rd, e.wdata),
       fetchReq := retire || s.isStart,
       isStart := false,
       exu := e.exuNext,
       lsu := LsuRegs(e.lsuControl.next,
                      if !e.isWrite && i.dataResp then UpperBits(i.dataRead) else s.lsu.firstRead,
                      e.lsuControl.reqNew),
       mcycle := (s.mcycle + 1) % WRAP64)
  }

  lemma DrivenLoad(s: CpuState, i: BusIn, fetch: IfuControl, icacheResp: bool, fetched: Word, e: ExecuteWires)
    requires DrivesFetch(fetch, icacheResp, fetched, s, i) && DrivesExecute(e, s, i)
    ensures LoadExecute(LoadFetch(s, i, fetch, icacheResp, fetched), i, e) == Next(s, i)
  {
    hide RtlDecode, AluResult, PcAfter, Writeback, CsrRead, LsuOutput, FetchControl, ExuNext, Tag, Index, Hit, Lookup,
      Fill, Control, RtlDecoded.IsMemory, RtlDecoded.WritesRegister, AccessOf, ReadPort, UpperBits;
  }
}
