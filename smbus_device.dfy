/**
 * The register window of one SMBus master as the transaction engine sees
 * it. Every write to the request or control/status register is recorded in
 * a trace, and every read of the control/status or response register takes
 * the next value of a script supplied by the hardware; an exhausted script
 * reads as an all-zero register. Registers are recorded and scripted
 * through their bit-field views: the word on the bus is the view's
 * encoding, and the encodings are one-to-one (see SmbusRegs).
 */
module SmbusDevice {
  import opened SmbusRegs

  datatype Write = WrReq(req: Request) | WrCs(cs: CtrlStatus)

  /** A snapshot of the device: what was written, what is still to be read. */
  datatype DevState = DevState(trace: seq<Write>, cs: seq<CtrlStatus>, resp: seq<Response>)

  /** The all-zero words, as read from an idle register. */
  const IdleCs := CtrlStatus(0, 0, false, 0, false, false, 0, false, false)
  const IdleResp := Response(0, false, false, false, false, 0, 0, 0, false, false)

  lemma IdleIsZero()
    ensures DecodeCtrlStatus(0) == IdleCs && DecodeResponse(0) == IdleResp
  {
  }

  function Head<T>(q: seq<T>, idle: T): T {
    if q == [] then idle else q[0]
  }

  function Tail<T>(q: seq<T>): (t: seq<T>)
    ensures |t| == if q == [] then 0 else |q| - 1
  {
    if q == [] then [] else q[1..]
  }

  /** The `k`-th value a script yields from now on. */
  function Nth<T>(q: seq<T>, k: nat, idle: T): T {
    if k < |q| then q[k] else idle
  }

  /** The script after `k` reads. */
  function Drop<T>(q: seq<T>, k: nat): seq<T> {
    if k <= |q| then q[k..] else []
  }

  lemma DropTail<T>(q: seq<T>, k: nat, idle: T)
    ensures Drop(Tail(q), k) == Drop(q, k + 1)
    ensures Nth(Tail(q), k, idle) == Nth(q, k + 1, idle)
    ensures Head(Drop(q, k), idle) == Nth(q, k, idle)
  {
  }

  /** Reading `n` values and then `k` more is reading `n + k`. */
  lemma DropNth<T>(q: seq<T>, n: nat, k: nat, idle: T)
    ensures Nth(Drop(q, n), k, idle) == Nth(q, n + k, idle)
    ensures Drop(Drop(q, n), k) == Drop(q, n + k)
  {
  }

  lemma TailDrop<T>(q: seq<T>, k: nat)
    ensures Tail(Drop(q, k)) == Drop(q, k + 1)
  {
  }

  function PushReq(s: DevState, r: Request): DevState {
    s.(trace := s.trace + [WrReq(r)])
  }

  function PushCs(s: DevState, c: CtrlStatus): DevState {
    s.(trace := s.trace + [WrCs(c)])
  }

  function PopCs(s: DevState): (CtrlStatus, DevState) {
    (Head(s.cs, IdleCs), s.(cs := Tail(s.cs)))
  }

  function PopResp(s: DevState): (Response, DevState) {
    (Head(s.resp, IdleResp), s.(resp := Tail(s.resp)))
  }

  class Device {
    var trace: seq<Write>
    var csQueue: seq<CtrlStatus>
    var respQueue: seq<Response>

    function State(): DevState
      reads this
    {
      DevState(trace, csQueue, respQueue)
    }

    constructor (cs: seq<CtrlStatus>, resp: seq<Response>)
      ensures State() == DevState([], cs, resp)
    {
      trace, csQueue, respQueue := [], cs, resp;
    }

    /** smbus_master_write_req */
    method WriteReq(r: Request)
      modifies this
      ensures State() == PushReq(old(State()), r)
    {
      trace := trace + [WrReq(r)];
    }

    /** smbus_master_write_cs */
    method WriteCs(c: CtrlStatus)
      modifies this
      ensures State() == PushCs(old(State()), c)
    {
      trace := trace + [WrCs(c)];
    }

    /** smbus_master_read_cs */
    method ReadCs() returns (c: CtrlStatus)
      modifies this
      ensures (c, State()) == PopCs(old(State()))
    {
      c := Head(csQueue, IdleCs);
      csQueue := Tail(csQueue);
    }

    /** __smbus_master_read_resp */
    method ReadResp() returns (r: Response)
      modifies this
      ensures (r, State()) == PopResp(old(State()))
    {
      r := Head(respQueue, IdleResp);
      respQueue := Tail(respQueue);
    }
  }
}
