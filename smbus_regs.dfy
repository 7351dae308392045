/**
 * The three 32-bit registers of an SMBus master: the request word written
 * once per protocol step, the control/status word, and the response word
 * read back once per step. Each layout is a value type with an explicit
 * encoding; the first field of each packed C bit-field sits at bit 0.
 */
module SmbusRegs {
  import opened Errno

  /** A one-bit field as a word: 1 when set. */
  function B(b: bool): bv32 {
    if b then 1 else 0
  }

  // ---------------------------------------------------------------------
  // Request word: d:8 ss:6 ed:1 br:1 dat:2 t:2 sp:1 da:1 dod:1 st:1 bs:4 ti:4

  datatype Request = Request(
    d: bv8,      // address byte, command byte or data byte of this step
    ss: bv6,     // number of steps of the transaction (first step only)
    ed: bool,    // extra delay
    br: bool,    // hardware block read
    dat: bv2,    // data width code
    t: bv2,      // timing class
    sp: bool,    // stop after this step
    da: bool,    // data acknowledge
    dod: bool,   // data out direction
    st: bool,    // (repeated) start before this step
    bs: bv4,     // bus select
    ti: bv4)     // transaction id

  /** The word with every field of a request clear, as `req.reg = 0`. */
  const ZeroRequest := Request(0, 0, false, false, 0, 0, false, false, false, false, 0, 0)

  function EncodeRequest(r: Request): bv32 {
    (r.d as bv32)
    | ((r.ss as bv32) << 8)
    | (B(r.ed) << 14)
    | (B(r.br) << 15)
    | ((r.dat as bv32) << 16)
    | ((r.t as bv32) << 18)
    | (B(r.sp) << 20)
    | (B(r.da) << 21)
    | (B(r.dod) << 22)
    | (B(r.st) << 23)
    | ((r.bs as bv32) << 24)
    | ((r.ti as bv32) << 28)
  }

  function DecodeRequest(w: bv32): (r: Request)
    ensures EncodeRequest(r) == w
  {
    Request(
      (w & 0xFF) as bv8,
      ((w >> 8) & 0x3F) as bv6,
      (w >> 14) & 1 == 1,
      (w >> 15) & 1 == 1,
      ((w >> 16) & 0x3) as bv2,
      ((w >> 18) & 0x3) as bv2,
      (w >> 20) & 1 == 1,
      (w >> 21) & 1 == 1,
      (w >> 22) & 1 == 1,
      (w >> 23) & 1 == 1,
      ((w >> 24) & 0xF) as bv4,
      ((w >> 28) & 0xF) as bv4)
  }

  lemma RequestRoundTrip(r: Request)
    ensures DecodeRequest(EncodeRequest(r)) == r
  {
  }

  // ---------------------------------------------------------------------
  // Control/status word: fs:10 res:3 foe:1 res:12 brb:1 res:1 ver:2 fe:1 reset:1

  datatype CtrlStatus = CtrlStatus(
    fs: bv10,          // response fifo fill level
    reserved1: bv3,
    foe: bool,         // fifo overflow (write 1 to clear)
    reserved2: bv12,
    brb: bool,         // hardware block read busy
    reserved3: bool,
    ver: bv2,          // master version
    fe: bool,
    reset: bool)

  function EncodeCtrlStatus(c: CtrlStatus): bv32 {
    (c.fs as bv32)
    | ((c.reserved1 as bv32) << 10)
    | (B(c.foe) << 13)
    | ((c.reserved2 as bv32) << 14)
    | (B(c.brb) << 26)
    | (B(c.reserved3) << 27)
    | ((c.ver as bv32) << 28)
    | (B(c.fe) << 30)
    | (B(c.reset) << 31)
  }

  function DecodeCtrlStatus(w: bv32): (c: CtrlStatus)
    ensures EncodeCtrlStatus(c) == w
  {
    CtrlStatus(
      (w & 0x3FF) as bv10,
      ((w >> 10) & 0x7) as bv3,
      (w >> 13) & 1 == 1,
      ((w >> 14) & 0xFFF) as bv12,
      (w >> 26) & 1 == 1,
      (w >> 27) & 1 == 1,
      ((w >> 28) & 0x3) as bv2,
      (w >> 30) & 1 == 1,
      (w >> 31) & 1 == 1)
  }

  lemma CtrlStatusRoundTrip(c: CtrlStatus)
    ensures DecodeCtrlStatus(EncodeCtrlStatus(c)) == c
  {
  }

  // ---------------------------------------------------------------------
  // Response word: d:8 conflict:1 timeout:1 ack:1 flushed:1 ti:4 ss:6 res:8 foe:1 fe:1

  datatype Response = Response(
    d: bv8,
    busConflictError: bool,
    timeoutError: bool,
    ackError: bool,
    flushed: bool,
    ti: bv4,
    ss: bv6,
    reserved2: bv8,
    foe: bool,
    fe: bool)

  function EncodeResponse(r: Response): bv32 {
    (r.d as bv32)
    | (B(r.busConflictError) << 8)
    | (B(r.timeoutError) << 9)
    | (B(r.ackError) << 10)
    | (B(r.flushed) << 11)
    | ((r.ti as bv32) << 12)
    | ((r.ss as bv32) << 16)
    | ((r.reserved2 as bv32) << 22)
    | (B(r.foe) << 30)
    | (B(r.fe) << 31)
  }

  function DecodeResponse(w: bv32): (r: Response)
    ensures EncodeResponse(r) == w
  {
    Response(
      (w & 0xFF) as bv8,
      (w >> 8) & 1 == 1,
      (w >> 9) & 1 == 1,
      (w >> 10) & 1 == 1,
      (w >> 11) & 1 == 1,
      ((w >> 12) & 0xF) as bv4,
      ((w >> 16) & 0x3F) as bv6,
      ((w >> 22) & 0xFF) as bv8,
      (w >> 30) & 1 == 1,
      (w >> 31) & 1 == 1)
  }

  lemma ResponseRoundTrip(r: Response)
    ensures DecodeResponse(EncodeResponse(r)) == r
  {
  }

  // ---------------------------------------------------------------------
  // Validation of one response word against the expected transaction id

  /** The checks a response goes through, in the order they are made. */
  datatype RespError = Fe | Ack | Timeout | Conflict | Flush | Tid | Overflow

  datatype Check = Pass | Bad(error: RespError)

  function Rank(e: RespError): nat {
    match e
    case Fe => 0
    case Ack => 1
    case Timeout => 2
    case Conflict => 3
    case Flush => 4
    case Tid => 5
    case Overflow => 6
  }

  /** Whether check `e` rejects `resp` on its own. */
  predicate Fails(resp: Response, tid: bv4, e: RespError) {
    match e
    case Fe => resp.fe
    case Ack => resp.ackError
    case Timeout => resp.timeoutError
    case Conflict => resp.busConflictError
    case Flush => resp.flushed
    case Tid => resp.ti != tid
    case Overflow => resp.foe
  }

  /** smbus_check_resp: the checks in order; the first one that rejects is the reason. */
  function CheckResp(resp: Response, tid: bv4): Check {
    if resp.fe then Bad(Fe)
    else if resp.ackError then Bad(Ack)
    else if resp.timeoutError then Bad(Timeout)
    else if resp.busConflictError then Bad(Conflict)
    else if resp.flushed then Bad(Flush)
    else if resp.ti != tid then Bad(Tid)
    else if resp.foe then Bad(Overflow)
    else Pass
  }

  /**
   * A response passes exactly when no check rejects it; otherwise the
   * reported reason rejects it and no earlier check does.
   */
  lemma CheckRespSpec(resp: Response, tid: bv4)
    ensures CheckResp(resp, tid) == Pass <==> forall e :: !Fails(resp, tid, e)
    ensures CheckResp(resp, tid).Bad? ==> Fails(resp, tid, CheckResp(resp, tid).error)
    ensures CheckResp(resp, tid).Bad? ==>
      forall e :: Rank(e) < Rank(CheckResp(resp, tid).error) ==> !Fails(resp, tid, e)
  {
    var c := CheckResp(resp, tid);
    if c.Bad? {
      assert Fails(resp, tid, c.error);
    }
  }

  /** The value smbus_check_resp returns: 0 or -EIO. */
  function CheckRet(c: Check): (r: int)
    ensures r == 0 <==> c == Pass
    ensures r != 0 ==> r == -EIO
  {
    if c.Pass? then 0 else -EIO
  }
}
