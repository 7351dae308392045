/**
 * The SMBus transaction engine as the driver runs it: routines that read
 * and write the master's registers one word at a time and store response
 * bytes into the caller's buffer in place. Each routine is proved to do
 * exactly what the matching function of SmbusSpec describes, so the
 * properties proved about those functions hold of these routines.
 */
module SmbusEngine {
  import opened Errno
  import opened SmbusRegs
  import opened SmbusDevice
  import opened Tuning
  import opened SmbusSpec
  import opened SmbusRead
  import opened SmbusDo

  /** smbus_master_read_resp: poll the fifo level up to 20 times, then read the response. */
  method ReadResp(dev: Device) returns (r: Response)
    modifies dev
    ensures (r, dev.State()) == ReadRespOp(old(dev.State()))
  {
    ghost var s0 := dev.State();
    var cs := dev.ReadCs();
    var retries: nat := 20;
    // The driver decrements the counter inside the loop test; the loop
    // runs while the fifo is empty and the decremented counter is non-zero.
    while cs.fs == 0 && retries > 1
      invariant 1 <= retries <= 20
      invariant dev.trace == s0.trace && dev.respQueue == s0.resp
      invariant PollCs(cs, dev.csQueue, retries) == PollCs(Head(s0.cs, IdleCs), Tail(s0.cs), 20)
      decreases retries
    {
      retries := retries - 1;
      cs := dev.ReadCs();
    }
    r := dev.ReadResp();
  }

  /** smbus_master_reset */
  method Reset(dev: Device)
    modifies dev
    ensures dev.State() == ResetOp(old(dev.State()))
  {
    var cs := dev.ReadCs();
    cs := cs.(reset := true, foe := true);
    dev.WriteCs(cs);
    cs := cs.(reset := false);
    dev.WriteCs(cs);
  }

  /**
   * The request loop of scd_smbus_do_impl: one request word per step. The
   * loop only reads the caller's buffer, whose contents it is given.
   */
  method WriteRequests(dev: Device, x: Xfer, ss: int, offset: nat, data: seq<bv8>)
    requires WriteInBounds(x, ss, offset, data)
    modifies dev
    ensures dev.State() == WriteFrom(old(dev.State()), x, ss, offset, data, InitRequest(x, ss), 0)
  {
    ghost var s0 := dev.State();
    var req := ZeroRequest.(bs := x.busSel, t := Timing(x.p));
    req := req.(st := true, ss := (ss % 64) as bv6, d := AddrByte(x.addr, ss <= 2 && x.read), dod := true);
    var i := 0;
    while i < ss
      invariant 0 <= i
      invariant WriteFrom(dev.State(), x, ss, offset, data, req, i)
             == WriteFrom(s0, x, ss, offset, data, InitRequest(x, ss), 0)
      decreases ss - i
    {
      req := PrepWord(x, ss, offset, data, req, i);
      dev.WriteReq(req);
      req := req.(ti := req.ti + 1);
      req := req.(st := false);
      i := i + 1;
    }
  }

  /**
   * What the response loop of scd_smbus_do_impl does with the data byte of
   * step `i`: a byte read keeps the last byte, a word read assembles the
   * last two little-endian, a block read stores from step 3 on and fails
   * once the buffer is full. `ok` is false exactly on that failure.
   */
  method StoreStep(x: Xfer, ss: int, i: nat, d: bv8, data: array<bv8>) returns (ok: bool)
    requires Room(x, data[..])
    modifies data
    ensures ok == StoreResp(x, ss, i, d, old(data[..])).Stored?
    ensures data[..] == if ok then StoreResp(x, ss, i, d, old(data[..])).buf else old(data[..])
  {
    ok := true;
    if x.read {
      if x.size == I2C_SMBUS_BYTE || x.size == I2C_SMBUS_BYTE_DATA {
        if i == ss - 1 {
          data[0] := d;
        }
      } else if x.size == I2C_SMBUS_WORD_DATA {
        if i == ss - 2 {
          data[0] := d;
          data[1] := 0;
        } else if i == ss - 1 {
          data[1] := data[1] | d;
        }
      } else if i >= 3 {
        if x.size == I2C_SMBUS_I2C_BLOCK_DATA {
          if i - 2 >= x.dataSize {
            return false;
          }
          data[i - 2] := d;
        } else {
          if i - 3 >= x.dataSize {
            return false;
          }
          data[i - 3] := d;
        }
      }
    }
  }

  /**
   * The response loop of scd_smbus_do_impl: read, validate and store one
   * response word per step, stopping at the first failure. `ti` is the
   * transaction id field of the request register, which the loop reuses.
   */
  method ReadResponses(dev: Device, x: Xfer, ss: int, data: array<bv8>) returns (ret: int, reason: Reason)
    requires Room(x, data[..])
    modifies dev, data
    ensures var l := RespLoop(old(dev.respQueue), x, ss, 0, old(data[..]));
      && ret == l.ret && reason == l.reason && data[..] == l.buf
      && dev.State() == AfterReads(old(dev.State()), l.used)
  {
    ghost var s0 := dev.State();
    ghost var buf0 := data[..];
    var ti: bv4 := 0;
    var i := 0;
    while i < ss
      invariant 0 <= i
      invariant ti == StepId(i)
      invariant dev.State() == AfterReads(s0, i)
      invariant RespLoop(s0.resp, x, ss, i, data[..]) == RespLoop(s0.resp, x, ss, 0, buf0)
      decreases ss - i
    {
      AfterReadsNext(s0, i);
      var resp := ReadResp(dev);
      var c := CheckResp(resp, ti);
      if c.Bad? {
        return CheckRet(c), BadResponse(c.error);
      }
      ti := ti + 1;
      var ok := StoreStep(x, ss, i, resp.d, data);
      if !ok {
        return -EINVAL, BufferTooShort;
      }
      i := i + 1;
    }
    return 0, Untouched;
  }

  /** Both loops of scd_smbus_do_impl, and the reset on its failure path. */
  method RunTransfer(dev: Device, x: Xfer, ss: int, offset: nat, data: array<bv8>) returns (ret: int, reason: Reason)
    requires BufOk(x.size, x.read, data[..], x.dataSize) && WriteInBounds(x, ss, offset, data[..])
    modifies dev, data
    ensures var o := Transfer(old(dev.State()), x, ss, offset, old(data[..]));
      ret == o.ret && reason == o.reason && dev.State() == o.dev && data[..] == o.buf
  {
    WriteRequests(dev, x, ss, offset, data[..]);
    ret, reason := ReadResponses(dev, x, ss, data);
    if ret != 0 {
      Reset(dev);
    }
  }

  /** The three header words of scd_smbus_block_read. */
  method WriteBlockHeader(dev: Device, x: Xfer)
    modifies dev
    ensures dev.State() == BlockWriteFrom(old(dev.State()), x, BlockInit(x), 0)
  {
    ghost var s0 := dev.State();
    var ss := 3;
    var req := ZeroRequest.(bs := x.busSel, t := Timing(x.p), st := true, ss := 3,
                            d := AddrByte(x.addr, false), dod := true);
    var i := 0;
    while i < ss
      invariant 0 <= i <= 3
      invariant BlockWriteFrom(dev.State(), x, req, i) == BlockWriteFrom(s0, x, BlockInit(x), 0)
    {
      req := BlockPrep(x, req, i);
      dev.WriteReq(req);
      req := req.(ti := req.ti + 1);
      i := i + 1;
    }
  }

  /**
   * The wait of scd_smbus_block_read: read the status register until the
   * engine is no longer busy or the budget `t` is used up, one unit per
   * round. The sleeps themselves are not modelled.
   */
  method WaitBlockEngine(dev: Device, t: int) returns (ct: int)
    requires t >= 0
    modifies dev
    ensures ct == BusyWait(old(dev.csQueue), 0, t)
    ensures dev.State() == old(dev.State()).(cs := Drop(old(dev.csQueue), ct + 1))
  {
    ghost var s1 := dev.State();
    ct := 0;
    DropTail(s1.cs, 0, IdleCs);
    var cs := dev.ReadCs();
    while cs.brb && ct < t
      invariant 0 <= ct <= t
      invariant cs == Nth(s1.cs, ct, IdleCs)
      invariant dev.State() == s1.(cs := Drop(s1.cs, ct + 1))
      invariant BusyWait(s1.cs, ct, t) == BusyWait(s1.cs, 0, t)
      decreases t - ct
    {
      ct := ct + 1;
      DropTail(s1.cs, ct, IdleCs);
      TailDrop(s1.cs, ct);
      cs := dev.ReadCs();
    }
  }

  /** A data byte of the block read goes to `block[i - 3]`; it fails once the buffer is full. */
  method BlockStore(x: Xfer, i: nat, d: bv8, data: array<bv8>) returns (ok: bool)
    requires 3 <= i && 0 <= x.dataSize <= data.Length
    modifies data
    ensures ok <==> i - 3 < x.dataSize
    ensures data[..] == if ok then old(data[..])[i - 3 := d] else old(data[..])
  {
    if i - 3 >= x.dataSize {
      return false;
    }
    data[i - 3] := d;
    return true;
  }

  /**
   * The response loop of scd_smbus_block_read: the fourth word carries the
   * byte count, which extends the loop; data bytes go to `block[0]` on.
   */
  method ReadBlockResponses(dev: Device, x: Xfer, data: array<bv8>) returns (ret: int)
    requires 0 <= x.dataSize <= data.Length
    modifies dev, data
    ensures var l := BlockLoop(old(dev.respQueue), x, 4, 0, old(data[..]));
      ret == l.ret && data[..] == l.buf && dev.State() == AfterReads(old(dev.State()), l.used)
  {
    ghost var s2 := dev.State();
    ghost var buf0 := data[..];
    var ss := 4;
    var ti: bv4 := 0;
    var i := 0;
    while i < ss
      invariant 0 <= i
      invariant i <= 3 ==> ss == 4
      invariant ti == StepId(i)
      invariant dev.State() == AfterReads(s2, i)
      invariant BlockLoop(s2.resp, x, ss, i, data[..]) == BlockLoop(s2.resp, x, 4, 0, buf0)
      decreases if i <= 3 then 1 else 0, ss - i
    {
      AfterReadsNext(s2, i);
      ghost var cur := data[..];
      ghost var ss0 := ss;
      var resp := ReadResp(dev);
      var c := CheckResp(resp, ti);
      if c.Bad? {
        return CheckRet(c);
      }
      ti := ti + 1;
      if i == 3 {
        ss := ss + resp.d as int;
      }
      if i >= 3 {
        var ok := BlockStore(x, i, resp.d, data);
        if !ok {
          return -EINVAL;
        }
      }
      assert BlockLoop(s2.resp, x, ss0, i, cur) == BlockLoop(s2.resp, x, ss, i + 1, data[..]);
      i := i + 1;
    }
    return 0;
  }

  /**
   * scd_smbus_block_read: three request words, a wait of at most the
   * timing class's budget while the engine is busy (-EINVAL when it runs
   * out), then the response words.
   */
  method SmbusBlockRead(dev: Device, x: Xfer, data: array<bv8>) returns (ret: int)
    requires 0 <= x.dataSize <= data.Length
    modifies dev, data
    ensures var o := BlockRead(old(dev.State()), x, old(data[..]));
      ret == o.ret && dev.State() == o.dev && data[..] == o.buf
  {
    ghost var s0 := dev.State();
    ghost var buf0 := data[..];
    ghost var o := BlockRead(s0, x, buf0);
    WriteBlockHeader(dev, x);
    ghost var s1 := dev.State();
    var t := if x.p.t > 3 then 100 else [5, 35 + 5, 500 + 5, 1000 + 5][x.p.t as int];
    assert t == Budget(x.p);
    var ct := WaitBlockEngine(dev, t);
    ghost var s2 := dev.State();
    assert s2 == s1.(cs := Drop(s1.cs, ct + 1));
    if ct == t {
      assert o == Outcome(-EINVAL, Untouched, s2, buf0);
      return -EINVAL;
    }
    ghost var l := BlockLoop(s2.resp, x, 4, 0, buf0);
    assert o == Outcome(l.ret, l.reason, AfterReads(s2, l.used), l.buf);
    ret := ReadBlockResponses(dev, x, data);
  }

  /** The engine's block read inside scd_smbus_do_impl: a failure resets the master. */
  method EngineBlockRead(dev: Device, x: Xfer, data: array<bv8>) returns (ret: int, reason: Reason)
    requires 0 <= x.dataSize <= data.Length
    modifies dev, data
    ensures var o := FastPath(BlockRead(old(dev.State()), x, old(data[..])));
      ret == o.ret && reason == o.reason && dev.State() == o.dev && data[..] == o.buf
  {
    ret := SmbusBlockRead(dev, x, data);
    if ret != 0 {
      reason := BlockReadFailed;
      Reset(dev);
      return;
    }
    return 0, Untouched;
  }

  /**
   * The software block read inside scd_smbus_do_impl: read the length as a
   * byte read of the same command, then finish as FinishBlockRead says.
   */
  method SoftwareBlockRead(dev: Device, tgt: Target, x: Xfer, data: array<bv8>) returns (ret: int, reason: Reason)
    requires x.read && x.size == I2C_SMBUS_BLOCK_DATA && BufOk(x.size, true, data[..], x.dataSize)
    modifies dev, data
    ensures var o := Fallback(Do(old(dev.State()), tgt, x.addr, true, x.command, I2C_SMBUS_BYTE_DATA,
                                 old(data[..]), x.dataSize), x);
      (ret, reason, dev.State(), data[..]) == (o.ret, o.reason, o.dev, o.buf)
    decreases 1
  {
    var probeRet, probeReason := SmbusDoImpl(dev, tgt, x.addr, true, x.command, I2C_SMBUS_BYTE_DATA,
                                             data, x.dataSize);
    ret, reason := FinishBlockRead(dev, x, probeRet, probeReason, data);
  }

  /**
   * After the length read of a software block read: a failed length read
   * resets the master (once more); otherwise the transfer has
   * `4 + block[0]` steps over the buffer the length read filled.
   */
  method FinishBlockRead(dev: Device, x: Xfer, probeRet: int, probeReason: Reason, data: array<bv8>)
    returns (ret: int, reason: Reason)
    requires x.read && x.size == I2C_SMBUS_BLOCK_DATA && BufOk(x.size, true, data[..], x.dataSize)
    modifies dev, data
    ensures var o := Fallback(Outcome(probeRet, probeReason, old(dev.State()), old(data[..])), x);
      (ret, reason, dev.State(), data[..]) == (o.ret, o.reason, o.dev, o.buf)
  {
    if probeRet != 0 {
      ret, reason := probeRet, BlockSize(probeReason);
      Reset(dev);
      return;
    }
    var ss := 4 + data[0] as int;
    assert Fallback(Outcome(probeRet, probeReason, dev.State(), data[..]), x) == Transfer(dev.State(), x, ss, 0, data[..]);
    ret, reason := RunTransfer(dev, x, ss, 0, data);
  }

  /**
   * scd_smbus_do_impl: one transaction on bus `tgt`. An SMBus block read
   * uses the engine's block read where the master has one and the
   * software block read otherwise; the step count of every other
   * transaction is FixedSteps, the size switch of the driver.
   */
  method SmbusDoImpl(dev: Device, tgt: Target, addr: bv16, read: bool, command: bv8, size: int,
                     data: array<bv8>, dataSize: int) returns (ret: int, reason: Reason)
    requires BufOk(size, read, data[..], dataSize)
    modifies dev, data
    ensures var o := Do(old(dev.State()), tgt, addr, read, command, size, old(data[..]), dataSize);
      ret == o.ret && reason == o.reason && dev.State() == o.dev && data[..] == o.buf
    decreases if size == I2C_SMBUS_BLOCK_DATA then 2 else 0
  {
    var p := GetSmbusParams(tgt.params, addr);
    var x := Xfer(tgt.busSel, p, addr, read, command, size, dataSize);
    if size == I2C_SMBUS_BLOCK_DATA && read {
      if tgt.brSupported {
        ret, reason := EngineBlockRead(dev, x, data);
      } else {
        ret, reason := SoftwareBlockRead(dev, tgt, x, data);
      }
    } else {
      DoIsTransfer(dev.State(), tgt, addr, read, command, size, data[..], dataSize);
      ret, reason := RunTransfer(dev, x, FixedSteps(size, read, dataSize, data[..]), Offset(size), data);
    }
  }

  /** scd_smbus_access_impl: repeat the transaction while it fails with -EIO, `max_retries` times at most. */
  method SmbusAccessImpl(dev: Device, tgt: Target, maxRetries: int, addr: bv16, read: bool, command: bv8,
                         size: int, data: array<bv8>, dataSize: int) returns (ret: int)
    requires BufOk(size, read, data[..], dataSize)
    modifies dev, data
    ensures var a := AccessFrom(old(dev.State()), tgt, maxRetries, addr, read, command, size, old(data[..]), dataSize, 0);
      ret == a.out.ret && dev.State() == a.out.dev && data[..] == a.out.buf
  {
    ghost var a0 := AccessFrom(dev.State(), tgt, maxRetries, addr, read, command, size, data[..], dataSize, 0);
    var retry := 0;
    while true
      invariant BufOk(size, read, data[..], dataSize)
      invariant AccessFrom(dev.State(), tgt, maxRetries, addr, read, command, size, data[..], dataSize, retry) == a0
      decreases maxRetries - retry
    {
      var reason;
      ret, reason := SmbusDoImpl(dev, tgt, addr, read, command, size, data, dataSize);
      if ret != -EIO {
        return;
      }
      retry := retry + 1;
      if retry >= maxRetries {
        return -EIO;
      }
    }
  }

  /**
   * scd_smbus_master_xfer: a raw i2c transfer as an I2C block transaction.
   * The message buffer is copied into a fresh array and back, where the
   * driver hands the message's own buffer to the transaction.
   */
  method SmbusMasterXfer(dev: Device, tgt: Target, maxRetries: int, msgs: seq<I2cMsg>)
    returns (ret: int, out: seq<I2cMsg>)
    requires XferOk(msgs)
    modifies dev
    ensures var r := MasterXfer(old(dev.State()), tgt, maxRetries, msgs);
      ret == r.ret && dev.State() == r.dev && out == r.msgs
  {
    if |msgs| > 2 {
      return -EINVAL, msgs;
    }
    var command: bv8;
    var m: I2cMsg;
    var data: array<bv8>;
    if |msgs| == 2 {
      if msgs[0].rd || |msgs[0].buf| != 1 {
        return -EINVAL, msgs;
      }
      command := msgs[0].buf[0];
      m := msgs[1];
      data := MsgBuffer(m.buf, 0);
    } else {
      m := msgs[0];
      command := m.buf[0];
      data := MsgBuffer(m.buf, 1);
    }
    ret := SmbusAccessImpl(dev, tgt, maxRetries, m.addr, m.rd, command, I2C_SMBUS_I2C_BLOCK_DATA_MSG,
                           data, data.Length);
    if |msgs| == 2 {
      out := msgs[1 := m.(buf := data[..])];
    } else {
      out := [m.(buf := [m.buf[0]] + data[..])];
    }
    if ret == 0 {
      ret := |msgs|;
    }
  }

  /** A fresh array holding the bytes of `buf` from `from` on. */
  method MsgBuffer(buf: seq<bv8>, from: nat) returns (a: array<bv8>)
    requires from <= |buf|
    ensures fresh(a) && a[..] == buf[from..]
  {
    a := new bv8[|buf| - from];
    var k := 0;
    while k < a.Length
      invariant 0 <= k <= a.Length
      invariant a[..k] == buf[from..from + k]
    {
      a[k] := buf[from + k];
      k := k + 1;
    }
    assert a[..] == a[..k];
  }
}
