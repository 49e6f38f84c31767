/** The processor connected to one memory slave per bus port, run cycle by cycle. */
module Soc {
  import opened Words
  import opened Memory
  import opened Lsu
  import Cpu

  /** A slave is idle or serves the request it latched; `age` counts the cycles it has been serving. */
  datatype Slave<T> = Ready | Busy(req: T, age: nat)

  datatype State = State(cpu: Cpu.CpuState, fetch: Slave<Word>, data: Slave<Beat>, mem: Mem)

  /**
   * What the environment decides in one cycle: whether each busy slave answers now, and what
   * the read buses carry while nobody answers.
   */
  datatype Choice = Choice(fetchReply: bool, dataReply: bool, fetchNoise: Word, dataNoise: Word)

  predicate FetchAnswers(s: State, c: Choice) { s.fetch.Busy? && c.fetchReply }
  predicate DataAnswers(s: State, c: Choice) { s.data.Busy? && c.dataReply }

  /** Memory after this cycle: an answered beat takes effect with its answer. */
  function MemAfter(s: State, c: Choice): Mem {
    if DataAnswers(s, c) then WriteBeat(s.mem, s.data.req) else s.mem
  }

  function Inputs(s: State, c: Choice): Cpu.BusIn {
    Cpu.BusIn(
      FetchAnswers(s, c), if FetchAnswers(s, c) then BusRead(s.mem, s.fetch.req) else c.fetchNoise,
      DataAnswers(s, c), if DataAnswers(s, c) then BusRead(MemAfter(s, c), s.data.req.addr) else c.dataNoise)
  }

  /** A ready slave latches a request; a busy one ignores requests, also in the cycle of its answer. */
  function SlaveNext<T>(slave: Slave<T>, request: bool, req: T, answers: bool): Slave<T> {
    match slave
    case Ready => if request then Busy(req, 0) else Ready
    case Busy(r, age) => if answers then Ready else Busy(r, age + 1)
  }

  function Signals(s: State, c: Choice): Cpu.Wires {
    Cpu.Observe(s.cpu, Inputs(s, c))
  }

  /** One clock cycle. */
  function Step(s: State, c: Choice): State {
    var w := Signals(s, c);
    State(
      Cpu.Next(s.cpu, Inputs(s, c)),
      SlaveNext(s.fetch, w.fetch.ioReq, w.fetchAddr, FetchAnswers(s, c)),
      SlaveNext(s.data, w.lsu.ioReq, w.lsu.beat, DataAnswers(s, c)),
      MemAfter(s, c))
  }

  /** The state after the cycles `cs`. */
  function Run(s: State, cs: seq<Choice>): State {
    if cs == [] then s else Step(Run(s, cs[..|cs| - 1]), cs[|cs| - 1])
  }

  predicate Initial(s: State) {
    Cpu.ResetState(s.cpu) && s.fetch.Ready? && s.data.Ready?
  }
}
