/** The instruction fetch unit: its controller and the cache's response wires. */
module Ifu {
  datatype IfuState = IfuIdle | IfuWaitIcache | IfuWaitIo | IfuWriteIcache

  /** What the fetch controller drives; `hit` selects the cached word rather than the one on the bus. */
  datatype IfuControl = IfuControl(respValid: bool, ioReq: bool, fill: bool, hit: bool, next: IfuState)

  /**
   * The fetch controller together with the cache's response wire. A read request is answered in
   * the same cycle; `writeValid` is the cache's registered write acknowledgement.
   */
  function FetchControl(state: IfuState, reqValid: bool, ioResp: bool, present: bool, writeValid: bool): IfuControl {
    match state
    case IfuIdle =>
      if !reqValid then IfuControl(false, false, false, false, IfuIdle)
      else if present then IfuControl(true, false, false, true, IfuIdle)
      else IfuControl(false, true, false, false, IfuWaitIo)
    case IfuWaitIcache =>
      if writeValid then IfuControl(false, true, false, false, IfuWaitIo)
      else IfuControl(false, false, false, false, IfuWaitIcache)
    case IfuWaitIo =>
      if ioResp then IfuControl(true, false, true, false, IfuIdle)
      else IfuControl(false, false, false, false, IfuWaitIo)
    case IfuWriteIcache =>
      IfuControl(false, false, false, false, if writeValid then IfuIdle else IfuWriteIcache)
  }

  /** The state register loads on a request or on a response of either kind. */
  function IfuNext(state: IfuState, reqValid: bool, ioResp: bool, writeValid: bool, c: IfuControl): IfuState {
    if reqValid || ioResp || writeValid then c.next else state
  }

  class IfuUnit {
    var state: IfuState

    constructor ()
      ensures state == IfuIdle
    {
      state := IfuIdle;
    }

    method Reset()
      modifies this
      ensures state == IfuIdle
    {
      state := IfuIdle;
    }

    /**
     * The combinational block wire by wire, including the cache's side of the handshake:
     * `present` says that the addressed line is valid and has the right tag.
     */
    method Combine(reqValid: bool, ioResp: bool, present: bool, writeValid: bool)
      returns (c: IfuControl, icacheResp: bool)
      ensures c == FetchControl(state, reqValid, ioResp, present, writeValid)
      ensures icacheResp == (writeValid || (state == IfuIdle && reqValid))
    {
      // Requests to the cache.
      var wen := state == IfuWaitIo && ioResp;
      var icacheReq := wen || (state == IfuIdle && reqValid);
      // The cache's answer.
      var isHit, readValid := false, false;
      if icacheReq && !wen {
        isHit := present;
        readValid := true;
      }
      icacheResp := writeValid || readValid;
      // The controller.
      var respValid, ioReq, next := false, false, state;
      match state {
        case IfuIdle =>
          if reqValid {
            next := IfuWaitIcache;
            if icacheResp {
              if isHit {
                respValid := true;
                next := IfuIdle;
              } else {
                ioReq := true;
                next := IfuWaitIo;
              }
            }
          }
        case IfuWaitIcache =>
          if icacheResp {
            if isHit {
              respValid := true;
              next := IfuIdle;
            } else {
              ioReq := true;
              next := IfuWaitIo;
            }
          }
        case IfuWaitIo =>
          if ioResp {
            respValid := true;
            next := IfuIdle;
          }
        case IfuWriteIcache =>
          if icacheResp {
            next := IfuIdle;
          }
      }
      c := IfuControl(respValid, ioReq, wen, isHit, next);
    }

    method Clock(reqValid: bool, ioResp: bool, icacheResp: bool, next: IfuState)
      modifies this
      ensures state == if reqValid || ioResp || icacheResp then next else old(state)
    {
      if reqValid {
        state := next;
      } else if ioResp || icacheResp {
        state := next;
      }
    }
  }
}
