/**
 * The SMBus transaction engine as functions over a device snapshot. Each
 * function follows one routine of the driver step by step: the request
 * words of a transaction are written first, then one response word per
 * step is read back, validated and stored into the caller's buffer; every
 * failure resets the master.
 */
module SmbusSpec {
  import opened Errno
  import opened SmbusRegs
  import opened SmbusDevice
  import opened Tuning

  // Transaction sizes of the i2c core, plus the driver's raw-message size.
  const I2C_SMBUS_QUICK: int := 0
  const I2C_SMBUS_BYTE: int := 1
  const I2C_SMBUS_BYTE_DATA: int := 2
  const I2C_SMBUS_WORD_DATA: int := 3
  const I2C_SMBUS_BLOCK_DATA: int := 5
  const I2C_SMBUS_I2C_BLOCK_DATA: int := 8
  const I2C_SMBUS_I2C_BLOCK_DATA_MSG: int := 9

  const I2C_SMBUS_BLOCK_MAX: int := 32
  const MASTER_DEFAULT_MAX_RETRIES: int := 6

  /** What a bus contributes to a transaction. */
  datatype Target = Target(busSel: bv4, params: seq<BusParams>, brSupported: bool)

  /** The fixed inputs of one transaction, with the parameters looked up for it. */
  datatype Xfer = Xfer(busSel: bv4, p: BusParams, addr: bv16, read: bool,
                       command: bv8, size: int, dataSize: int)

  function XferOf(tgt: Target, addr: bv16, read: bool, command: bv8, size: int, dataSize: int): Xfer {
    Xfer(tgt.busSel, Lookup(tgt.params, addr), addr, read, command, size, dataSize)
  }

  /** Why a transaction failed, as the driver's reason text records it. */
  datatype Reason = Untouched | BadResponse(error: RespError) | BufferTooShort
                  | BlockReadFailed | BlockSize(inner: Reason)

  datatype Outcome = Outcome(ret: int, reason: Reason, dev: DevState, buf: seq<bv8>)

  /** The address byte: the 7-bit address shifted left, with the read bit below it. */
  function AddrByte(addr: bv16, low: bool): bv8 {
    (((addr & 0xFF) as bv8) << 1) | (if low then 1 else 0)
  }

  /** The 4-bit transaction id of step `k`: the id counter bumped `k` times from 0. */
  function StepId(k: nat): bv4 {
    if k == 0 then 0 else StepId(k - 1) + 1
  }

  function Timing(p: BusParams): bv2 {
    (p.t & 3) as bv2
  }

  function DatCode(x: Xfer): bv2 {
    ((if x.read then x.p.datr else x.p.datw) & 3) as bv2
  }

  function EdBit(x: Xfer): bool {
    x.p.ed & 1 == 1
  }

  /**
   * What the caller's buffer must hold for the driver to stay inside it.
   * The request words of a write read `block[0]` and the bytes after it,
   * and the byte and word reads store into `block[0]` and `block[1]`.
   */
  predicate BufOk(size: int, read: bool, data: seq<bv8>, dataSize: int) {
    && 0 <= dataSize <= |data|
    && (size == I2C_SMBUS_BYTE && read ==> |data| >= 1)
    && (size == I2C_SMBUS_BYTE_DATA ==> |data| >= 1)
    && (size == I2C_SMBUS_WORD_DATA ==> |data| >= 2)
    && (size == I2C_SMBUS_I2C_BLOCK_DATA ==> |data| >= 1 && (!read ==> (data[0] as int) < |data|))
    && (size == I2C_SMBUS_BLOCK_DATA ==> |data| >= 1 && (!read ==> (data[0] as int) < |data|))
  }

  /**
   * The number of protocol steps of every transaction except a block read;
   * block transfers take their length from `block[0]`. Any other size
   * gives 0 steps.
   */
  function FixedSteps(size: int, read: bool, dataSize: int, data: seq<bv8>): int
    requires size == I2C_SMBUS_I2C_BLOCK_DATA || size == I2C_SMBUS_BLOCK_DATA ==> |data| >= 1
  {
    if size == I2C_SMBUS_QUICK then 1
    else if size == I2C_SMBUS_BYTE then 2
    else if size == I2C_SMBUS_BYTE_DATA then (if read then 4 else 3)
    else if size == I2C_SMBUS_WORD_DATA then (if read then 5 else 4)
    else if size == I2C_SMBUS_I2C_BLOCK_DATA_MSG then (if read then 3 + dataSize else 2 + dataSize)
    else if size == I2C_SMBUS_I2C_BLOCK_DATA then (if read then 3 else 2) + data[0] as int
    else if size == I2C_SMBUS_BLOCK_DATA then 3 + data[0] as int
    else 0
  }

  /** Where the payload starts in the buffer: after the count byte for I2C block transfers. */
  function Offset(size: int): nat {
    if size == I2C_SMBUS_I2C_BLOCK_DATA then 1 else 0
  }

  // ---------------------------------------------------------------------
  // Request phase of scd_smbus_do_impl

  function InitRequest(x: Xfer, ss: int): Request {
    ZeroRequest.(bs := x.busSel, t := Timing(x.p), st := true, ss := (ss % 64) as bv6,
                 d := AddrByte(x.addr, ss <= 2 && x.read), dod := true)
  }

  /** The payload bytes a write sends stay inside the buffer. */
  predicate WriteInBounds(x: Xfer, ss: int, offset: nat, data: seq<bv8>) {
    !x.read && ss >= 3 ==> offset + ss - 3 < |data|
  }

  /** The changes the loop makes to the request before writing step `i`. */
  function PrepWord(x: Xfer, ss: int, offset: nat, data: seq<bv8>, req: Request, i: nat): Request
    requires i < ss && WriteInBounds(x, ss, offset, data)
  {
    var r1 := if i == ss - 1 then req.(sp := true, ed := EdBit(x), dat := DatCode(x)) else req;
    var r2 := if i == 1 then r1.(st := false, ss := 0, d := x.command,
                                 dod := if ss == 2 then !x.read else true) else r1;
    var r3 := if i == 2 && x.read then r2.(st := true, d := AddrByte(x.addr, true)) else r2;
    var r4 := if i >= 2 && !x.read then r3.(d := data[offset + i - 2]) else r3;
    var r5 := if i == 3 && x.read then r4.(dod := false) else r4;
    r5.(da := !(r5.dod || r5.sp))
  }

  /** The request loop from step `i` on: write, bump the id, clear the start bit. */
  function WriteFrom(s: DevState, x: Xfer, ss: int, offset: nat, data: seq<bv8>, req: Request, i: nat): DevState
    requires WriteInBounds(x, ss, offset, data)
    decreases ss - i
  {
    if i >= ss then s
    else
      var w := PrepWord(x, ss, offset, data, req, i);
      WriteFrom(PushReq(s, w), x, ss, offset, data, w.(ti := w.ti + 1, st := false), i + 1)
  }

  // ---------------------------------------------------------------------
  // smbus_master_read_resp and smbus_master_reset

  /**
   * The status words left after polling the fifo level while it is empty,
   * given the status just read: at most `retries` reads in all.
   */
  function PollCs(cs: CtrlStatus, q: seq<CtrlStatus>, retries: nat): seq<CtrlStatus>
    requires retries >= 1
    decreases retries
  {
    if cs.fs != 0 || retries == 1 then q
    else PollCs(Head(q, IdleCs), Tail(q), retries - 1)
  }

  /** The poll consumes a suffix of the status words, at most `retries - 1` of them. */
  lemma {:induction false} PollCsSuffix(cs: CtrlStatus, q: seq<CtrlStatus>, retries: nat)
    requires retries >= 1
    ensures SuffixWithin(PollCs(cs, q, retries), q, retries - 1)
    decreases retries
  {
    if cs.fs != 0 || retries == 1 {
      assert q[|q| - |q|..] == q;
    } else {
      var t := Tail(q);
      PollCsSuffix(Head(q, IdleCs), t, retries - 1);
      if q == [] {
        assert t == [];
      } else {
        assert t == q[1..] == q[|q| - |t|..];
        SuffixTrans(q, t, PollCs(Head(q, IdleCs), t, retries - 1));
      }
    }
  }

  /** One response word, read once the fifo holds one or after 20 status reads. */
  function ReadRespOp(s: DevState): (r: (Response, DevState))
    ensures r.0 == Head(s.resp, IdleResp) && r.1.resp == Tail(s.resp) && r.1.trace == s.trace
  {
    (Head(s.resp, IdleResp), DevState(s.trace, PollCs(Head(s.cs, IdleCs), Tail(s.cs), 20), Tail(s.resp)))
  }

  /** The status words left after `n` response reads, each with its own polling. */
  function PollMany(q: seq<CtrlStatus>, n: nat): seq<CtrlStatus>
    decreases n
  {
    if n == 0 then q
    else PollMany(PollCs(Head(q, IdleCs), Tail(q), 20), n - 1)
  }

  /** One response read's polling leaves a suffix of the status words, shorter by at most 20. */
  lemma PollStep(q: seq<CtrlStatus>)
    ensures SuffixWithin(PollCs(Head(q, IdleCs), Tail(q), 20), q, 20)
  {
    var t := Tail(q);
    var r1 := PollCs(Head(q, IdleCs), t, 20);
    if q == [] {
      assert t == [];
      PollCsSuffix(Head(q, IdleCs), t, 20);
    } else {
      assert t == q[1..] == q[|q| - |t|..];
      PollCsSuffix(Head(q, IdleCs), t, 20);
      SuffixTrans(q, t, r1);
    }
  }

  /** `r` is what is left of `q` once at most `k` of its first elements are gone. */
  ghost predicate SuffixWithin<T>(r: seq<T>, q: seq<T>, k: int) {
    |r| <= |q| && r == q[|q| - |r|..] && |q| - |r| <= k
  }

  /** After `n` response reads, the status words left are a suffix, shorter by at most 20 per read. */
  lemma {:induction false} PollManySuffix(q: seq<CtrlStatus>, n: nat)
    ensures SuffixWithin(PollMany(q, n), q, 20 * n)
    decreases n
  {
    if n == 0 {
      assert q[|q| - |q|..] == q;
    } else {
      var r1 := PollCs(Head(q, IdleCs), Tail(q), 20);
      PollStep(q);
      PollManySuffix(r1, n - 1);
      SuffixChain(q, r1, PollMany(r1, n - 1), n);
    }
  }

  /** A suffix at most 20 shorter, then one at most 20 * (n - 1) shorter, is one at most 20 * n shorter. */
  lemma SuffixChain<T>(a: seq<T>, b: seq<T>, c: seq<T>, n: nat)
    requires n >= 1
    requires SuffixWithin(b, a, 20) && SuffixWithin(c, b, 20 * (n - 1))
    ensures SuffixWithin(c, a, 20 * n)
  {
    SuffixTrans(a, b, c);
  }

  /** A suffix of a suffix is a suffix. */
  lemma SuffixTrans<T>(a: seq<T>, b: seq<T>, c: seq<T>)
    requires |b| <= |a| && b == a[|a| - |b|..]
    requires |c| <= |b| && c == b[|b| - |c|..]
    ensures c == a[|a| - |c|..]
  {
    assert forall i :: 0 <= i < |c| ==> c[i] == a[|a| - |c| + i];
  }

  /** The device after `n` response reads: the first `n` response words are consumed. */
  function AfterReads(s: DevState, n: nat): (r: DevState)
    ensures r.trace == s.trace && r.resp == Drop(s.resp, n)
  {
    DevState(s.trace, PollMany(s.cs, n), Drop(s.resp, n))
  }

  /** The response the `k`-th read returns, counting from 0. */
  function RespAt(q: seq<Response>, k: nat): Response {
    Nth(q, k, IdleResp)
  }

  /** smbus_master_reset: set reset (and clear the overflow flag), then release reset. */
  function ResetOp(s: DevState): DevState {
    var (c, s1) := PopCs(s);
    var c1 := c.(reset := true, foe := true);
    PushCs(PushCs(s1, c1), c1.(reset := false))
  }

  // ---------------------------------------------------------------------
  // Response phase of scd_smbus_do_impl

  datatype Store = Stored(buf: seq<bv8>) | TooShort

  /** The room the response loop needs: byte and word reads store into `block[0]` and `block[1]`. */
  function Need(x: Xfer): int {
    if !x.read then 0
    else if x.size == I2C_SMBUS_BYTE || x.size == I2C_SMBUS_BYTE_DATA then 1
    else if x.size == I2C_SMBUS_WORD_DATA then 2
    else 0
  }

  predicate Room(x: Xfer, buf: seq<bv8>) {
    0 <= x.dataSize <= |buf| && Need(x) <= |buf|
  }

  /** What the response of step `i` does to the buffer. */
  function StoreResp(x: Xfer, ss: int, i: nat, d: bv8, buf: seq<bv8>): (r: Store)
    requires Room(x, buf)
    ensures r.Stored? ==> |r.buf| == |buf|
  {
    if !x.read then Stored(buf)
    else if x.size == I2C_SMBUS_BYTE || x.size == I2C_SMBUS_BYTE_DATA then
      Stored(if i == ss - 1 then buf[0 := d] else buf)
    else if x.size == I2C_SMBUS_WORD_DATA then
      Stored(if i == ss - 2 then buf[0 := d][1 := 0]
             else if i == ss - 1 then buf[1 := buf[1] | d]
             else buf)
    else if i >= 3 then
      if x.size == I2C_SMBUS_I2C_BLOCK_DATA then
        if i - 2 >= x.dataSize then TooShort else Stored(buf[i - 2 := d])
      else
        if i - 3 >= x.dataSize then TooShort else Stored(buf[i - 3 := d])
    else Stored(buf)
  }

  /**
   * How a response loop ended: its return value and reason, the number of
   * response words it read, and the buffer.
   */
  datatype Loop = Loop(ret: int, reason: Reason, used: nat, buf: seq<bv8>)

  /**
   * The response loop from step `i` on, where step `k` reads the `k`-th
   * response word `q` yields: check it against the id of step `k`, then
   * store it.
   */
  function RespLoop(q: seq<Response>, x: Xfer, ss: int, i: nat, buf: seq<bv8>): (l: Loop)
    requires Room(x, buf)
    ensures |l.buf| == |buf|
    ensures !x.read ==> l.buf == buf
    decreases ss - i
  {
    if i >= ss then Loop(0, Untouched, i, buf)
    else
      var resp := RespAt(q, i);
      var c := CheckResp(resp, StepId(i));
      if c.Bad? then Loop(CheckRet(c), BadResponse(c.error), i + 1, buf)
      else
        match StoreResp(x, ss, i, resp.d, buf)
        case TooShort => Loop(-EINVAL, BufferTooShort, i + 1, buf)
        case Stored(b) => RespLoop(q, x, ss, i + 1, b)
  }

  /** Both loops of one transaction of `ss` steps; a failure resets the master. */
  function Transfer(s: DevState, x: Xfer, ss: int, offset: nat, data: seq<bv8>): (o: Outcome)
    requires BufOk(x.size, x.read, data, x.dataSize) && WriteInBounds(x, ss, offset, data)
    ensures |o.buf| == |data|
    ensures !x.read ==> o.buf == data
  {
    var s1 := WriteFrom(s, x, ss, offset, data, InitRequest(x, ss), 0);
    var l := RespLoop(s1.resp, x, ss, 0, data);
    var s2 := AfterReads(s1, l.used);
    Outcome(l.ret, l.reason, if l.ret != 0 then ResetOp(s2) else s2, l.buf)
  }

  // ---------------------------------------------------------------------
  // scd_smbus_block_read: the hardware-assisted block read

  function BlockInit(x: Xfer): Request {
    ZeroRequest.(bs := x.busSel, t := Timing(x.p), st := true, ss := 3,
                 d := AddrByte(x.addr, false), dod := true)
  }

  function BlockPrep(x: Xfer, req: Request, i: nat): Request {
    var r1 := if i == 1 then req.(st := false, ss := 0, d := x.command) else req;
    var r2 := if i == 2 then r1.(br := true, st := true, d := AddrByte(x.addr, true)) else r1;
    r2.(da := !(r2.dod || r2.sp))
  }

  /** The three header words of a block read. */
  function BlockWriteFrom(s: DevState, x: Xfer, req: Request, i: nat): DevState
    decreases 3 - i
  {
    if i >= 3 then s
    else
      var w := BlockPrep(x, req, i);
      BlockWriteFrom(PushReq(s, w), x, w.(ti := w.ti + 1), i + 1)
  }

  /** How many 1 ms waits the block-read engine is given, by timing class. */
  function Budget(p: BusParams): int {
    if p.t > 3 then 100
    else if p.t == 0 then 5
    else if p.t == 1 then 40
    else if p.t == 2 then 505
    else 1005
  }

  /**
   * The wait counter when the engine stops reporting busy or the budget
   * `t` runs out; the status read after `ct` waits is the `ct`-th word of `q`.
   */
  function BusyWait(q: seq<CtrlStatus>, ct: nat, t: int): (r: nat)
    ensures r >= ct
    decreases t - ct
  {
    if Nth(q, ct, IdleCs).brb && ct < t then BusyWait(q, ct + 1, t) else ct
  }

  /** The response loop of a block read; step 3 carries the byte count. */
  function BlockLoop(q: seq<Response>, x: Xfer, ss: int, i: nat, buf: seq<bv8>): (l: Loop)
    requires i <= 3 ==> ss == 4
    requires 0 <= x.dataSize <= |buf|
    ensures |l.buf| == |buf|
    decreases if i <= 3 then 1 else 0, ss - i
  {
    if i >= ss then Loop(0, Untouched, i, buf)
    else
      var resp := RespAt(q, i);
      var c := CheckResp(resp, StepId(i));
      if c.Bad? then Loop(CheckRet(c), BadResponse(c.error), i + 1, buf)
      else
        var ss' := if i == 3 then ss + resp.d as int else ss;
        if i >= 3 then
          if i - 3 >= x.dataSize then Loop(-EINVAL, BufferTooShort, i + 1, buf)
          else BlockLoop(q, x, ss', i + 1, buf[i - 3 := resp.d])
        else BlockLoop(q, x, ss', i + 1, buf)
  }

  /**
   * scd_smbus_block_read: three request words, a bounded wait for the
   * engine, then the response loop. A timeout returns -EINVAL.
   */
  function BlockRead(s: DevState, x: Xfer, data: seq<bv8>): (o: Outcome)
    requires 0 <= x.dataSize <= |data|
    ensures |o.buf| == |data|
  {
    var s1 := BlockWriteFrom(s, x, BlockInit(x), 0);
    var t := Budget(x.p);
    var ct := BusyWait(s1.cs, 0, t);
    var s2 := s1.(cs := Drop(s1.cs, ct + 1));
    if ct == t then Outcome(-EINVAL, Untouched, s2, data)
    else
      var l := BlockLoop(s2.resp, x, 4, 0, data);
      Outcome(l.ret, l.reason, AfterReads(s2, l.used), l.buf)
  }

  // ---------------------------------------------------------------------
  // scd_smbus_do_impl

  /** The outcome of the engine's block read as the transaction reports it; a failure resets the master. */
  function FastPath(o: Outcome): Outcome {
    if o.ret != 0 then Outcome(o.ret, BlockReadFailed, ResetOp(o.dev), o.buf)
    else Outcome(0, Untouched, o.dev, o.buf)
  }

  /**
   * The software block read after its length probe `p`: a failed probe
   * resets the master (again); otherwise the transfer has `4 + block[0]`
   * steps over the buffer the probe filled.
   */
  function Fallback(p: Outcome, x: Xfer): (o: Outcome)
    requires x.read && x.size == I2C_SMBUS_BLOCK_DATA && BufOk(x.size, true, p.buf, x.dataSize)
    ensures |o.buf| == |p.buf|
  {
    if p.ret != 0 then Outcome(p.ret, BlockSize(p.reason), ResetOp(p.dev), p.buf)
    else Transfer(p.dev, x, 4 + p.buf[0] as int, 0, p.buf)
  }

  function Do(s: DevState, tgt: Target, addr: bv16, read: bool, command: bv8, size: int,
              data: seq<bv8>, dataSize: int): (o: Outcome)
    requires BufOk(size, read, data, dataSize)
    ensures |o.buf| == |data|
    ensures !read ==> o.buf == data
    decreases if size == I2C_SMBUS_BLOCK_DATA then 1 else 0
  {
    var x := XferOf(tgt, addr, read, command, size, dataSize);
    if size == I2C_SMBUS_BLOCK_DATA && read then
      if tgt.brSupported then FastPath(BlockRead(s, x, data))
      else Fallback(Do(s, tgt, addr, true, command, I2C_SMBUS_BYTE_DATA, data, dataSize), x)
    else
      Transfer(s, x, FixedSteps(size, read, dataSize, data), Offset(size), data)
  }

  // ---------------------------------------------------------------------
  // scd_smbus_access_impl: retry while the transaction fails with -EIO

  datatype Attempts = Attempts(out: Outcome, count: nat)

  function Max(a: int, b: int): int {
    if a >= b then a else b
  }

  /** The retry loop; `retry` attempts have been made before this one. */
  function AccessFrom(s: DevState, tgt: Target, maxRetries: int, addr: bv16, read: bool,
                      command: bv8, size: int, data: seq<bv8>, dataSize: int, retry: nat): (a: Attempts)
    requires BufOk(size, read, data, dataSize)
    ensures retry + 1 <= a.count <= Max(retry + 1, maxRetries)
    ensures a.out.ret == -EIO ==> a.count == Max(retry + 1, maxRetries)
    ensures |a.out.buf| == |data|
    ensures !read ==> a.out.buf == data
    decreases maxRetries - retry
  {
    var o := Do(s, tgt, addr, read, command, size, data, dataSize);
    if o.ret != -EIO then Attempts(o, retry + 1)
    else if retry + 1 < maxRetries then
      AccessFrom(o.dev, tgt, maxRetries, addr, read, command, size, o.buf, dataSize, retry + 1)
    else Attempts(o, retry + 1)
  }

  /** scd_smbus_access: an i2c-core transfer over the full `union i2c_smbus_data`. */
  function SmbusAccess(s: DevState, tgt: Target, maxRetries: int, addr: bv16, read: bool,
                       command: bv8, size: int, data: seq<bv8>): (a: Attempts)
    requires |data| == I2C_SMBUS_BLOCK_MAX + 2 && BufOk(size, read, data, I2C_SMBUS_BLOCK_MAX + 2)
    ensures 1 <= a.count <= Max(1, maxRetries)
    ensures a.out.ret == -EIO ==> a.count == Max(1, maxRetries)
    ensures |a.out.buf| == |data| && (!read ==> a.out.buf == data)
  {
    AccessFrom(s, tgt, maxRetries, addr, read, command, size, data, I2C_SMBUS_BLOCK_MAX + 2, 0)
  }

  // ---------------------------------------------------------------------
  // scd_smbus_master_xfer: one or two raw i2c messages

  datatype I2cMsg = I2cMsg(addr: bv16, rd: bool, buf: seq<bv8>)

  datatype XferResult = XferResult(ret: int, dev: DevState, msgs: seq<I2cMsg>)

  predicate XferOk(msgs: seq<I2cMsg>) {
    |msgs| >= 1 && (|msgs| == 1 ==> |msgs[0].buf| >= 1)
  }

  function MasterXfer(s: DevState, tgt: Target, maxRetries: int, msgs: seq<I2cMsg>): XferResult
    requires XferOk(msgs)
  {
    if |msgs| > 2 then XferResult(-EINVAL, s, msgs)
    else if |msgs| == 2 then
      if msgs[0].rd || |msgs[0].buf| != 1 then XferResult(-EINVAL, s, msgs)
      else
        var m := msgs[1];
        var a := AccessFrom(s, tgt, maxRetries, m.addr, m.rd, msgs[0].buf[0],
                            I2C_SMBUS_I2C_BLOCK_DATA_MSG, m.buf, |m.buf|, 0);
        var msgs' := msgs[1 := m.(buf := a.out.buf)];
        XferResult(if a.out.ret != 0 then a.out.ret else 2, a.out.dev, msgs')
    else
      var m := msgs[0];
      var a := AccessFrom(s, tgt, maxRetries, m.addr, m.rd, m.buf[0],
                          I2C_SMBUS_I2C_BLOCK_DATA_MSG, m.buf[1..], |m.buf| - 1, 0);
      var msgs' := [m.(buf := [m.buf[0]] + a.out.buf)];
      XferResult(if a.out.ret != 0 then a.out.ret else 1, a.out.dev, msgs')
  }
}
