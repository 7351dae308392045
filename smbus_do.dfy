/**
 * Whole transactions of scd_smbus_do_impl: what is written, what is read,
 * what the caller's buffer holds afterwards, and the result codes, for
 * every transaction size.
 */
module SmbusDo {
  import opened Errno
  import opened SmbusRegs
  import opened SmbusDevice
  import opened SmbusSpec
  import opened SmbusWords
  import opened SmbusRead
  import opened SmbusBlock
  import opened Tuning

  /** Two status writes that put the master into reset and take it out again, clearing the overflow flag. */
  predicate ResetPair(a: Write, b: Write) {
    a.WrCs? && b.WrCs? && a.cs.reset && a.cs.foe && b.cs == a.cs.(reset := false)
  }

  /** The trace ends with a reset of the master. */
  predicate EndsWithReset(t: seq<Write>) {
    |t| >= 2 && ResetPair(t[|t| - 2], t[|t| - 1])
  }

  /**
   * smbus_master_reset reads one status word and writes it back twice:
   * with reset and overflow-clear set, then with reset released. No
   * response is read.
   */
  lemma ResetShape(s: DevState)
    ensures var c := Head(s.cs, IdleCs).(reset := true, foe := true);
      ResetOp(s) == DevState(s.trace + [WrCs(c), WrCs(c.(reset := false))], Tail(s.cs), s.resp)
    ensures EndsWithReset(ResetOp(s).trace)
    ensures ResetOp(s).trace[..|s.trace|] == s.trace
  {
    var c := Head(s.cs, IdleCs).(reset := true, foe := true);
    assert s.trace + [WrCs(c)] + [WrCs(c.(reset := false))] == s.trace + [WrCs(c), WrCs(c.(reset := false))];
  }

  /**
   * One transaction of `ss` steps reads the response words the device had
   * when it began: its result, reason and buffer are those of the
   * response loop over them.
   */
  lemma TransferLoop(s: DevState, x: Xfer, ss: int, offset: nat, data: seq<bv8>)
    requires BufOk(x.size, x.read, data, x.dataSize) && WriteInBounds(x, ss, offset, data)
    ensures var o := Transfer(s, x, ss, offset, data);
      var l := RespLoop(s.resp, x, ss, 0, data);
      && o.ret == l.ret && o.reason == l.reason && o.buf == l.buf
      && o.dev.resp == Drop(s.resp, l.used)
  {
    WritePhase(s, x, ss, offset, data);
  }

  /**
   * What a transaction writes: the `ss` request words, followed on a
   * failure by a reset of the master.
   */
  lemma TransferTrace(s: DevState, x: Xfer, ss: int, offset: nat, data: seq<bv8>)
    requires BufOk(x.size, x.read, data, x.dataSize) && WriteInBounds(x, ss, offset, data)
    ensures var o := Transfer(s, x, ss, offset, data);
      var w := WordTrace(x, ss, offset, data, 0);
      && (o.ret == 0 ==> o.dev.trace == s.trace + w)
      && (o.ret != 0 ==>
            && |o.dev.trace| == |s.trace| + |w| + 2
            && o.dev.trace[..|s.trace| + |w|] == s.trace + w
            && EndsWithReset(o.dev.trace))
  {
    WritePhase(s, x, ss, offset, data);
    var s1 := WriteFrom(s, x, ss, offset, data, InitRequest(x, ss), 0);
    var l := RespLoop(s1.resp, x, ss, 0, data);
    ResetShape(AfterReads(s1, l.used));
  }

  /** Every size but the block read is a single transaction of the fixed step count. */
  lemma DoIsTransfer(s: DevState, tgt: Target, addr: bv16, read: bool, command: bv8, size: int,
                     data: seq<bv8>, dataSize: int)
    requires BufOk(size, read, data, dataSize) && !(size == I2C_SMBUS_BLOCK_DATA && read)
    ensures Do(s, tgt, addr, read, command, size, data, dataSize)
         == Transfer(s, XferOf(tgt, addr, read, command, size, dataSize),
                     FixedSteps(size, read, dataSize, data), Offset(size), data)
  {
  }

  /** The result of a transaction is 0, -EIO for a rejected response or -EINVAL for a short buffer. */
  lemma TransferCodes(s: DevState, x: Xfer, ss: int, offset: nat, data: seq<bv8>)
    requires BufOk(x.size, x.read, data, x.dataSize) && WriteInBounds(x, ss, offset, data)
    requires ss >= 0
    ensures var o := Transfer(s, x, ss, offset, data);
      && (o.ret == 0 <==> o.reason == Untouched)
      && (o.ret == -EIO <==> o.reason.BadResponse?)
      && (o.ret == -EINVAL <==> o.reason == BufferTooShort)
      && (o.ret == 0 || o.ret == -EIO || o.ret == -EINVAL)
      && (o.ret == 0 <==> AllPass(s.resp, 0, ss) && FitsFrom(x, ss, 0))
  {
    WritePhase(s, x, ss, offset, data);
    RespLoopCodes(s.resp, x, ss, 0, data);
    RespLoopSuccess(s.resp, x, ss, 0, data);
  }

  /** The sizes the driver knows. */
  predicate Supported(size: int) {
    size == I2C_SMBUS_QUICK || size == I2C_SMBUS_BYTE || size == I2C_SMBUS_BYTE_DATA
    || size == I2C_SMBUS_WORD_DATA || size == I2C_SMBUS_BLOCK_DATA
    || size == I2C_SMBUS_I2C_BLOCK_DATA || size == I2C_SMBUS_I2C_BLOCK_DATA_MSG
  }

  /** A size outside the switch leaves the step count at 0: nothing is written or read, and the result is 0. */
  lemma DoUnsupported(s: DevState, tgt: Target, addr: bv16, read: bool, command: bv8, size: int,
                      data: seq<bv8>, dataSize: int)
    requires BufOk(size, read, data, dataSize) && !Supported(size)
    ensures Do(s, tgt, addr, read, command, size, data, dataSize) == Outcome(0, Untouched, s, data)
  {
    var x := XferOf(tgt, addr, read, command, size, dataSize);
    assert FixedSteps(size, read, dataSize, data) == 0;
    assert Drop(s.resp, 0) == s.resp;
  }

  /** The words a transaction writes before any reset are its FixedSteps request words. */
  lemma RequestWords(s: DevState, tgt: Target, addr: bv16, read: bool, command: bv8, size: int,
                     data: seq<bv8>, dataSize: int)
    requires BufOk(size, read, data, dataSize) && !(size == I2C_SMBUS_BLOCK_DATA && read)
    ensures var o := Do(s, tgt, addr, read, command, size, data, dataSize);
      var n := |o.dev.trace| - |s.trace| - (if o.ret != 0 then 2 else 0);
      && n == FixedSteps(size, read, dataSize, data)
      && (forall k :: |s.trace| <= k < |s.trace| + n ==> o.dev.trace[k].WrReq?)
  {
    var x := XferOf(tgt, addr, read, command, size, dataSize);
    var ss := FixedSteps(size, read, dataSize, data);
    var o := Do(s, tgt, addr, read, command, size, data, dataSize);
    DoRequests(s, tgt, addr, read, command, size, data, dataSize);
    WordTraceAt(x, ss, Offset(size), data, 0);
    PrefixWrites(o.dev.trace, s.trace, WordTrace(x, ss, Offset(size), data, 0));
  }

  /** A trace that starts with `pre + w`, where `w` holds only request words, has request words right after `pre`. */
  lemma PrefixWrites(t: seq<Write>, pre: seq<Write>, w: seq<Write>)
    requires |pre| + |w| <= |t| && t[..|pre| + |w|] == pre + w
    requires forall j :: 0 <= j < |w| ==> w[j].WrReq?
    ensures forall k :: |pre| <= k < |pre| + |w| ==> t[k].WrReq?
  {
    forall k | |pre| <= k < |pre| + |w|
      ensures t[k].WrReq?
    {
      assert t[k] == t[..|pre| + |w|][k] == (pre + w)[k] == w[k - |pre|];
    }
  }

  /**
   * How many request words a transaction writes, by size and direction,
   * before the two reset writes a failure adds: one per protocol step.
   */
  lemma StepCounts(s: DevState, tgt: Target, addr: bv16, read: bool, command: bv8, size: int,
                   data: seq<bv8>, dataSize: int)
    requires BufOk(size, read, data, dataSize) && !(size == I2C_SMBUS_BLOCK_DATA && read)
    ensures var o := Do(s, tgt, addr, read, command, size, data, dataSize);
      var n := |o.dev.trace| - |s.trace| - (if o.ret != 0 then 2 else 0);
      && (forall k :: |s.trace| <= k < |s.trace| + n ==> o.dev.trace[k].WrReq?)
      && (size == I2C_SMBUS_QUICK ==> n == 1)
      && (size == I2C_SMBUS_BYTE ==> n == 2)
      && (size == I2C_SMBUS_BYTE_DATA ==> n == if read then 4 else 3)
      && (size == I2C_SMBUS_WORD_DATA ==> n == if read then 5 else 4)
      && (size == I2C_SMBUS_I2C_BLOCK_DATA_MSG ==> n == dataSize + if read then 3 else 2)
      && (size == I2C_SMBUS_I2C_BLOCK_DATA ==> n == data[0] as int + if read then 3 else 2)
      && (size == I2C_SMBUS_BLOCK_DATA && !read ==> n == 3 + data[0] as int)
      && (!Supported(size) ==> n == 0)
  {
    RequestWords(s, tgt, addr, read, command, size, data, dataSize);
  }

  /** The codes of one transaction, with the reset a failure leaves behind. */
  lemma TransferEnds(s: DevState, x: Xfer, ss: int, offset: nat, data: seq<bv8>)
    requires BufOk(x.size, x.read, data, x.dataSize) && WriteInBounds(x, ss, offset, data)
    requires ss >= 0
    ensures var o := Transfer(s, x, ss, offset, data);
      && (o.ret == 0 || o.ret == -EIO || o.ret == -EINVAL)
      && (o.ret == 0 ==> o.reason == Untouched)
      && (o.ret != 0 ==> EndsWithReset(o.dev.trace))
  {
    TransferCodes(s, x, ss, offset, data);
    TransferTrace(s, x, ss, offset, data);
  }

  /** The block read of the engine: a failure is reported as such and resets the master. */
  lemma DoFastCodes(s: DevState, tgt: Target, addr: bv16, command: bv8, data: seq<bv8>, dataSize: int)
    requires BufOk(I2C_SMBUS_BLOCK_DATA, true, data, dataSize) && tgt.brSupported
    ensures var o := Do(s, tgt, addr, true, command, I2C_SMBUS_BLOCK_DATA, data, dataSize);
      && (o.ret == 0 || o.ret == -EIO || o.ret == -EINVAL)
      && (o.ret == 0 ==> o.reason == Untouched)
      && (o.ret != 0 ==> o.reason == BlockReadFailed && EndsWithReset(o.dev.trace))
  {
    var x := XferOf(tgt, addr, true, command, I2C_SMBUS_BLOCK_DATA, dataSize);
    BlockReadCodes(s, x, data);
    ResetShape(BlockRead(s, x, data).dev);
  }

  /**
   * The software block read: a failed length probe is reported as such
   * and resets the master a second time; otherwise the result is that of
   * the transfer of `4 + length` steps.
   */
  lemma FallbackCodes(p: Outcome, x: Xfer)
    requires x.read && x.size == I2C_SMBUS_BLOCK_DATA && BufOk(x.size, true, p.buf, x.dataSize)
    requires (p.ret == 0 || p.ret == -EIO || p.ret == -EINVAL) && (p.ret == 0 ==> p.reason == Untouched)
    ensures var o := Fallback(p, x);
      && (o.ret == 0 || o.ret == -EIO || o.ret == -EINVAL)
      && (o.ret == 0 ==> o.reason == Untouched)
      && (o.ret != 0 ==> EndsWithReset(o.dev.trace))
      && (p.ret != 0 ==> o.ret == p.ret && o.reason == BlockSize(p.reason))
  {
    if p.ret == 0 {
      var ss := 4 + p.buf[0] as int;
      assert Fallback(p, x) == Transfer(p.dev, x, ss, 0, p.buf);
      TransferEnds(p.dev, x, ss, 0, p.buf);
    } else {
      assert Fallback(p, x) == Outcome(p.ret, BlockSize(p.reason), ResetOp(p.dev), p.buf);
      ResetShape(p.dev);
    }
  }

  /**
   * Every transaction ends with 0, -EIO or -EINVAL; a failure always
   * leaves the master reset as the last thing written.
   */
  lemma DoCodes(s: DevState, tgt: Target, addr: bv16, read: bool, command: bv8, size: int,
                data: seq<bv8>, dataSize: int)
    requires BufOk(size, read, data, dataSize)
    ensures var o := Do(s, tgt, addr, read, command, size, data, dataSize);
      && (o.ret == 0 || o.ret == -EIO || o.ret == -EINVAL)
      && (o.ret == 0 ==> o.reason == Untouched)
      && (o.ret != 0 ==> EndsWithReset(o.dev.trace))
  {
    if size == I2C_SMBUS_BLOCK_DATA && read {
      if tgt.brSupported {
        DoFastCodes(s, tgt, addr, command, data, dataSize);
      } else {
        DoFixedCodes(s, tgt, addr, true, command, I2C_SMBUS_BYTE_DATA, data, dataSize);
        FallbackCodes(Do(s, tgt, addr, true, command, I2C_SMBUS_BYTE_DATA, data, dataSize),
                      XferOf(tgt, addr, read, command, size, dataSize));
      }
    } else {
      DoFixedCodes(s, tgt, addr, read, command, size, data, dataSize);
    }
  }

  /** Every size but the block read runs a single transaction of the fixed step count. */
  lemma DoFixedCodes(s: DevState, tgt: Target, addr: bv16, read: bool, command: bv8, size: int,
                     data: seq<bv8>, dataSize: int)
    requires BufOk(size, read, data, dataSize) && !(size == I2C_SMBUS_BLOCK_DATA && read)
    ensures var o := Do(s, tgt, addr, read, command, size, data, dataSize);
      && (o.ret == 0 || o.ret == -EIO || o.ret == -EINVAL)
      && (o.ret == 0 ==> o.reason == Untouched)
      && (o.ret != 0 ==> EndsWithReset(o.dev.trace))
  {
    var x := XferOf(tgt, addr, read, command, size, dataSize);
    DoIsTransfer(s, tgt, addr, read, command, size, data, dataSize);
    TransferEnds(s, x, FixedSteps(size, read, dataSize, data), Offset(size), data);
  }

  /** The request words of every transaction but the block read: exactly the closed-form words of its fixed step count. */
  lemma DoRequests(s: DevState, tgt: Target, addr: bv16, read: bool, command: bv8, size: int,
                   data: seq<bv8>, dataSize: int)
    requires BufOk(size, read, data, dataSize) && !(size == I2C_SMBUS_BLOCK_DATA && read)
    ensures var o := Do(s, tgt, addr, read, command, size, data, dataSize);
      var x := XferOf(tgt, addr, read, command, size, dataSize);
      var w := WordTrace(x, FixedSteps(size, read, dataSize, data), Offset(size), data, 0);
      && |w| == FixedSteps(size, read, dataSize, data)
      && |o.dev.trace| == |s.trace| + |w| + (if o.ret != 0 then 2 else 0)
      && o.dev.trace[..|s.trace| + |w|] == s.trace + w
      && (o.ret == 0 ==> o.dev.trace == s.trace + w)
  {
    var x := XferOf(tgt, addr, read, command, size, dataSize);
    var ss := FixedSteps(size, read, dataSize, data);
    DoIsTransfer(s, tgt, addr, read, command, size, data, dataSize);
    TransferTrace(s, x, ss, Offset(size), data);
    WordTraceLen(x, ss, Offset(size), data, 0);
  }

  /** A byte or byte-data read returns the data byte of its last step in `block[0]`. */
  lemma DoByteRead(s: DevState, tgt: Target, addr: bv16, command: bv8, size: int, data: seq<bv8>, dataSize: int)
    requires size == I2C_SMBUS_BYTE || size == I2C_SMBUS_BYTE_DATA
    requires BufOk(size, true, data, dataSize)
    ensures var o := Do(s, tgt, addr, true, command, size, data, dataSize);
      var last := if size == I2C_SMBUS_BYTE then 1 else 3;
      o.ret == 0 ==> o.buf == data[0 := RespAt(s.resp, last).d]
  {
    var x := XferOf(tgt, addr, true, command, size, dataSize);
    var ss := FixedSteps(size, true, dataSize, data);
    DoIsTransfer(s, tgt, addr, true, command, size, data, dataSize);
    TransferLoop(s, x, ss, 0, data);
    BytePlacement(s.resp, x, ss, 0, data);
  }

  /** The 16-bit `word` view of the buffer: `block[0]` is its low byte, `block[1]` its high byte. */
  function WordOf(buf: seq<bv8>): bv16
    requires |buf| >= 2
  {
    (buf[0] as bv16) | ((buf[1] as bv16) << 8)
  }

  /**
   * A word read returns the data bytes of steps 3 and 4 (of its five) as
   * the low and the high byte of `word`.
   */
  lemma DoWordRead(s: DevState, tgt: Target, addr: bv16, command: bv8, data: seq<bv8>, dataSize: int)
    requires BufOk(I2C_SMBUS_WORD_DATA, true, data, dataSize)
    ensures var o := Do(s, tgt, addr, true, command, I2C_SMBUS_WORD_DATA, data, dataSize);
      var lo, hi := RespAt(s.resp, 3).d, RespAt(s.resp, 4).d;
      o.ret == 0 ==>
        && o.buf == data[0 := lo][1 := hi]
        && WordOf(o.buf) == (lo as bv16) | ((hi as bv16) << 8)
  {
    var x := XferOf(tgt, addr, true, command, I2C_SMBUS_WORD_DATA, dataSize);
    var ss := FixedSteps(I2C_SMBUS_WORD_DATA, true, dataSize, data);
    DoIsTransfer(s, tgt, addr, true, command, I2C_SMBUS_WORD_DATA, data, dataSize);
    TransferLoop(s, x, ss, 0, data);
    WordPlacement(s.resp, x, ss, 0, data);
    WordOfBytes(data, RespAt(s.resp, 3).d, RespAt(s.resp, 4).d);
  }

  lemma WordOfBytes(buf: seq<bv8>, lo: bv8, hi: bv8)
    requires |buf| >= 2
    ensures WordOf(buf[0 := lo][1 := hi]) == (lo as bv16) | ((hi as bv16) << 8)
  {
  }

  /**
   * An i2c-block or raw-message read stores the data byte of step `k`
   * from step 3 on in `block[k - 2]` or `block[k - 3]`, and leaves the
   * rest of the buffer as it was.
   */
  lemma DoBlockTypeRead(s: DevState, tgt: Target, addr: bv16, command: bv8, size: int, data: seq<bv8>, dataSize: int)
    requires size == I2C_SMBUS_I2C_BLOCK_DATA || size == I2C_SMBUS_I2C_BLOCK_DATA_MSG
    requires BufOk(size, true, data, dataSize)
    ensures var o := Do(s, tgt, addr, true, command, size, data, dataSize);
      var x := XferOf(tgt, addr, true, command, size, dataSize);
      var ss := FixedSteps(size, true, dataSize, data);
      o.ret == 0 ==> forall j :: 0 <= j < |data| ==>
        o.buf[j] == if 3 <= SlotStep(x, j) < ss then RespAt(s.resp, SlotStep(x, j)).d else data[j]
  {
    var x := XferOf(tgt, addr, true, command, size, dataSize);
    var ss := FixedSteps(size, true, dataSize, data);
    DoIsTransfer(s, tgt, addr, true, command, size, data, dataSize);
    TransferLoop(s, x, ss, Offset(size), data);
    BlockPlacement(s.resp, x, ss, 0, data);
  }

  /**
   * The engine's block read inside a transaction: on success `block[0]`
   * holds the count from the fourth response and the count data bytes
   * follow it; nothing else of the buffer changes.
   */
  lemma DoFastRead(s: DevState, tgt: Target, addr: bv16, command: bv8, data: seq<bv8>, dataSize: int)
    requires BufOk(I2C_SMBUS_BLOCK_DATA, true, data, dataSize) && tgt.brSupported
    ensures var o := Do(s, tgt, addr, true, command, I2C_SMBUS_BLOCK_DATA, data, dataSize);
      o.ret == 0 ==>
        && !BusyFrom(s.cs, 0, Budget(Lookup(tgt.params, addr)))
        && Count(s.resp) < dataSize
        && AllPass(s.resp, 0, 4 + Count(s.resp))
        && o.buf[0] as int == Count(s.resp)
        && forall j :: 0 <= j < |data| ==> o.buf[j] == if j <= Count(s.resp) then RespAt(s.resp, j + 3).d else data[j]
  {
    var x := XferOf(tgt, addr, true, command, I2C_SMBUS_BLOCK_DATA, dataSize);
    BlockReadLoop(s, x, data);
    if BusyFrom(s.cs, 0, Budget(x.p)) {
      BlockTimeout(s, x, data);
    }
    EnginePlacement(s.resp, x, data);
    BlockLoopSuccess(s.resp, x, data);
  }

  /**
   * The length probe of the software block read: on success it has read
   * exactly its four responses and holds the data byte of the last one
   * in `block[0]`.
   */
  lemma ProbeResult(s: DevState, tgt: Target, addr: bv16, command: bv8, data: seq<bv8>, dataSize: int)
    requires BufOk(I2C_SMBUS_BLOCK_DATA, true, data, dataSize)
    ensures var p := Do(s, tgt, addr, true, command, I2C_SMBUS_BYTE_DATA, data, dataSize);
      p.ret == 0 ==> p.buf == data[0 := RespAt(s.resp, 3).d] && p.dev.resp == Drop(s.resp, 4)
  {
    var x := XferOf(tgt, addr, true, command, I2C_SMBUS_BYTE_DATA, dataSize);
    var ss := FixedSteps(I2C_SMBUS_BYTE_DATA, true, dataSize, data);
    DoByteRead(s, tgt, addr, command, I2C_SMBUS_BYTE_DATA, data, dataSize);
    DoIsTransfer(s, tgt, addr, true, command, I2C_SMBUS_BYTE_DATA, data, dataSize);
    TransferLoop(s, x, ss, 0, data);
    RespLoopCodes(s.resp, x, ss, 0, data);
  }

  /** One byte of a block-type read transfer: `block[j]` holds the byte of step `SlotStep(j)` when there is one. */
  lemma TransferSlot(s: DevState, x: Xfer, ss: int, buf: seq<bv8>, j: int)
    requires BlockKind(x) && BufOk(x.size, x.read, buf, x.dataSize) && 0 <= j < |buf|
    ensures var o := Transfer(s, x, ss, 0, buf);
      o.ret == 0 ==> o.buf[j] == if 3 <= SlotStep(x, j) < ss then RespAt(s.resp, SlotStep(x, j)).d else buf[j]
  {
    TransferLoop(s, x, ss, 0, buf);
    BlockSlot(s.resp, x, ss, 0, buf, j);
  }

  /**
   * After a successful probe `p`, the data transfer stores the byte of its
   * step `j + 3` in `block[j]` for every `j` up to the probed length, so
   * the count in `block[0]` is overwritten by the count the device sends
   * again.
   */
  lemma FallbackPlacement(p: Outcome, x: Xfer)
    requires x.read && x.size == I2C_SMBUS_BLOCK_DATA && BufOk(x.size, true, p.buf, x.dataSize)
    ensures var o := Fallback(p, x);
      o.ret == 0 ==> p.ret == 0 && forall j :: 0 <= j < |p.buf| ==>
        o.buf[j] == if j <= p.buf[0] as int then RespAt(p.dev.resp, j + 3).d else p.buf[j]
  {
    forall j | 0 <= j < |p.buf|
      ensures var o := Fallback(p, x);
        o.ret == 0 ==> p.ret == 0 && o.buf[j] == if j <= p.buf[0] as int then RespAt(p.dev.resp, j + 3).d else p.buf[j]
    {
      FallbackSlot(p, x, j);
    }
  }

  /** One byte of FallbackPlacement. */
  lemma FallbackSlot(p: Outcome, x: Xfer, j: int)
    requires x.read && x.size == I2C_SMBUS_BLOCK_DATA && BufOk(x.size, true, p.buf, x.dataSize)
    requires 0 <= j < |p.buf|
    ensures var o := Fallback(p, x);
      o.ret == 0 ==> p.ret == 0 && o.buf[j] == if j <= p.buf[0] as int then RespAt(p.dev.resp, j + 3).d else p.buf[j]
  {
    if p.ret == 0 {
      var ss := 4 + p.buf[0] as int;
      assert SlotStep(x, j) == j + 3;
      TransferSlot(p.dev, x, ss, p.buf, j);
      assert Fallback(p, x) == Transfer(p.dev, x, ss, 0, p.buf);
    }
  }

  /**
   * The software block read as a whole: on success `block[j]` holds, for
   * every `j` up to the length the probe read (its fourth response), the
   * data byte of response `j + 7` (step `j + 3` of the second
   * transaction); the rest of the buffer is unchanged.
   */
  lemma DoFallbackRead(s: DevState, tgt: Target, addr: bv16, command: bv8, data: seq<bv8>, dataSize: int)
    requires BufOk(I2C_SMBUS_BLOCK_DATA, true, data, dataSize) && !tgt.brSupported
    ensures var o := Do(s, tgt, addr, true, command, I2C_SMBUS_BLOCK_DATA, data, dataSize);
      var len := RespAt(s.resp, 3).d as int;
      o.ret == 0 ==> forall j :: 0 <= j < |data| ==>
        o.buf[j] == if j <= len then RespAt(s.resp, j + 7).d else data[j]
  {
    var x := XferOf(tgt, addr, true, command, I2C_SMBUS_BLOCK_DATA, dataSize);
    var p := Do(s, tgt, addr, true, command, I2C_SMBUS_BYTE_DATA, data, dataSize);
    assert Do(s, tgt, addr, true, command, I2C_SMBUS_BLOCK_DATA, data, dataSize) == Fallback(p, x);
    ProbeResult(s, tgt, addr, command, data, dataSize);
    FallbackPlacement(p, x);
    forall j | 0 <= j < |data| {
      DropNth(s.resp, 4, j + 3, IdleResp);
    }
  }
}
