/**
 * The hardware-assisted block read in closed form: the three header words,
 * the bounded wait on the engine's busy flag, and the response loop whose
 * fourth response carries the byte count.
 */
module SmbusBlock {
  import opened Errno
  import opened SmbusRegs
  import opened SmbusDevice
  import opened SmbusSpec
  import opened SmbusRead

  /** Header word 1: the command byte, without start and step count. */
  function BlockWord1(x: Xfer): Request {
    BlockInit(x).(st := false, ss := 0, d := x.command, ti := 1)
  }

  /** Header word 2: a repeated start with the read address, handing over to the engine. */
  function BlockWord2(x: Xfer): Request {
    BlockWord1(x).(br := true, st := true, d := AddrByte(x.addr, true), ti := 2)
  }

  /**
   * A block read writes exactly three request words and reads nothing: the
   * write address with a step count of 3, the command, then the read
   * address with the block-read bit. Every word drives the line, none
   * stops, and the ids run 0, 1, 2.
   */
  lemma BlockHeader(s: DevState, x: Xfer)
    ensures BlockWriteFrom(s, x, BlockInit(x), 0)
         == s.(trace := s.trace + [WrReq(BlockInit(x)), WrReq(BlockWord1(x)), WrReq(BlockWord2(x))])
    ensures var w := [BlockInit(x), BlockWord1(x), BlockWord2(x)];
      && (forall k :: 0 <= k < 3 ==>
            w[k].ti as int == k && w[k].dod && !w[k].sp && !w[k].da && w[k].bs == x.busSel && w[k].t == Timing(x.p))
      && w[0].st && w[0].ss == 3 && w[0].d == AddrByte(x.addr, false) && !w[0].br
      && !w[1].st && w[1].ss == 0 && w[1].d == x.command && !w[1].br
      && w[2].st && w[2].ss == 0 && w[2].d == AddrByte(x.addr, true) && w[2].br
  {
    var w0 := BlockInit(x);
    assert BlockPrep(x, w0, 0) == w0;
    var s1 := PushReq(s, w0);
    assert BlockPrep(x, w0.(ti := 1), 1) == BlockWord1(x);
    var s2 := PushReq(s1, BlockWord1(x));
    assert BlockPrep(x, BlockWord1(x).(ti := 2), 2) == BlockWord2(x);
    assert BlockWriteFrom(s, x, w0, 0) == BlockWriteFrom(s2, x, BlockWord1(x).(ti := 2), 2);
    assert s.trace + [WrReq(w0)] + [WrReq(BlockWord1(x))] + [WrReq(BlockWord2(x))]
        == s.trace + [WrReq(w0), WrReq(BlockWord1(x)), WrReq(BlockWord2(x))];
  }

  /** The engine reports busy in every status word read after `lo` .. `hi - 1` waits. */
  predicate BusyFrom(q: seq<CtrlStatus>, lo: nat, hi: int) {
    forall k :: lo <= k < hi ==> Nth(q, k, IdleCs).brb
  }

  /**
   * The wait stops at the first status word that is not busy, or at the
   * budget. It reaches the budget exactly when all the status words before
   * it were busy, whatever the last one read says.
   */
  lemma {:induction false} BusyWaitSpec(q: seq<CtrlStatus>, ct: nat, t: int)
    requires ct <= t
    ensures var r := BusyWait(q, ct, t);
      && r <= t
      && BusyFrom(q, ct, r)
      && (r == t <==> BusyFrom(q, ct, t))
      && (r < t ==> !Nth(q, r, IdleCs).brb)
    decreases t - ct
  {
    if Nth(q, ct, IdleCs).brb && ct < t {
      BusyWaitSpec(q, ct + 1, t);
    }
  }

  /**
   * Reaching the budget is a timeout: -EINVAL, no response read, the
   * buffer untouched, and `t + 1` status words consumed.
   */
  lemma BlockTimeout(s: DevState, x: Xfer, data: seq<bv8>)
    requires 0 <= x.dataSize <= |data|
    requires BusyFrom(s.cs, 0, Budget(x.p))
    ensures var o := BlockRead(s, x, data);
      && o.ret == -EINVAL && o.reason == Untouched && o.buf == data
      && o.dev.resp == s.resp && o.dev.cs == Drop(s.cs, Budget(x.p) + 1)
      && o.dev.trace == s.trace + [WrReq(BlockInit(x)), WrReq(BlockWord1(x)), WrReq(BlockWord2(x))]
  {
    BlockHeader(s, x);
    BusyWaitSpec(s.cs, 0, Budget(x.p));
  }

  /** The byte count the engine returns in the fourth response. */
  function Count(q: seq<Response>): int {
    RespAt(q, 3).d as int
  }

  /**
   * The data steps from 4 on: step `i` stores its byte in `block[i - 3]`.
   * The loop ends with 0 exactly when every response passes and the last
   * index lies inside `data_size`.
   */
  lemma {:induction false} BlockTailSuccess(q: seq<Response>, x: Xfer, ss: int, i: nat, buf: seq<bv8>)
    requires 4 <= i <= ss && 0 <= x.dataSize <= |buf|
    ensures BlockLoop(q, x, ss, i, buf).ret == 0 <==> AllPass(q, i, ss) && (i == ss || ss - 4 < x.dataSize)
    decreases ss - i
  {
    if i < ss {
      var resp := RespAt(q, i);
      if CheckResp(resp, StepId(i)) == Pass && i - 3 < x.dataSize {
        BlockTailSuccess(q, x, ss, i + 1, buf[i - 3 := resp.d]);
      }
    }
  }

  /** The result codes of the data steps, and how many responses they read. */
  lemma {:induction false} BlockTailCodes(q: seq<Response>, x: Xfer, ss: int, i: nat, buf: seq<bv8>)
    requires 4 <= i <= ss && 0 <= x.dataSize <= |buf|
    ensures var l := BlockLoop(q, x, ss, i, buf);
      && (l.ret == 0 <==> l.reason == Untouched)
      && (l.ret == -EIO <==> l.reason.BadResponse?)
      && (l.ret == -EINVAL <==> l.reason == BufferTooShort)
      && (l.ret == 0 || l.ret == -EIO || l.ret == -EINVAL)
      && (l.ret == 0 ==> l.used == ss)
      && (l.ret != 0 ==> i < l.used <= ss)
    decreases ss - i
  {
    if i < ss {
      var resp := RespAt(q, i);
      if CheckResp(resp, StepId(i)) == Pass && i - 3 < x.dataSize {
        BlockTailCodes(q, x, ss, i + 1, buf[i - 3 := resp.d]);
      }
    }
  }

  /** Where one byte of the data steps comes from. */
  lemma {:induction false} BlockTailSlot(q: seq<Response>, x: Xfer, ss: int, i: nat, buf: seq<bv8>, j: int)
    requires 4 <= i <= ss && 0 <= x.dataSize <= |buf| && 0 <= j < |buf|
    ensures var l := BlockLoop(q, x, ss, i, buf);
      l.ret == 0 ==> l.buf[j] == if i <= j + 3 < ss then RespAt(q, j + 3).d else buf[j]
    decreases ss - i
  {
    if i < ss {
      var resp := RespAt(q, i);
      if CheckResp(resp, StepId(i)) == Pass && i - 3 < x.dataSize {
        BlockTailSlot(q, x, ss, i + 1, buf[i - 3 := resp.d], j);
      }
    }
  }

  /**
   * The first four steps: the header responses and the count. When all
   * four pass and `block[0]` lies inside `data_size`, the loop goes on
   * with `4 + count` steps and the count stored in `block[0]`; otherwise it
   * stops at the first step that failed.
   */
  lemma {:induction false} BlockHeadFrom(q: seq<Response>, x: Xfer, buf: seq<bv8>, i: nat)
    requires 0 <= x.dataSize <= |buf| && i <= 3
    ensures var l := BlockLoop(q, x, 4, i, buf);
      if AllPass(q, i, 4) && 1 <= x.dataSize then
        l == BlockLoop(q, x, 4 + Count(q), 4, buf[0 := RespAt(q, 3).d])
      else
        && l.ret != 0 && i + 1 <= l.used <= 4 && l.buf == buf
        && (l.ret == -EIO <==> l.reason.BadResponse?)
        && (l.ret == -EIO || (l.ret == -EINVAL && l.reason == BufferTooShort))
        && AllPass(q, i, l.used - 1)
        && (l.reason.BadResponse? ==> CheckResp(RespAt(q, l.used - 1), StepId(l.used - 1)) == Bad(l.reason.error))
        && (l.reason == BufferTooShort ==> l.used == 4 && x.dataSize == 0)
    decreases 3 - i
  {
    if i < 3 && CheckResp(RespAt(q, i), StepId(i)) == Pass {
      BlockHeadFrom(q, x, buf, i + 1);
    }
  }

  /**
   * A block read of the engine succeeds exactly when every one of its
   * `4 + count` responses passes and the count is below `data_size`; it
   * then reads exactly those responses.
   */
  lemma BlockLoopSuccess(q: seq<Response>, x: Xfer, buf: seq<bv8>)
    requires 0 <= x.dataSize <= |buf|
    ensures var l := BlockLoop(q, x, 4, 0, buf);
      && (l.ret == 0 <==> AllPass(q, 0, 4 + Count(q)) && Count(q) < x.dataSize)
      && (l.ret == 0 ==> l.used == 4 + Count(q))
  {
    BlockHeadFrom(q, x, buf, 0);
    var c := Count(q);
    AllPassSplit(q, 0, 4, 4 + c);
    if AllPass(q, 0, 4) && 1 <= x.dataSize {
      var b := buf[0 := RespAt(q, 3).d];
      BlockTailSuccess(q, x, 4 + c, 4, b);
      BlockTailCodes(q, x, 4 + c, 4, b);
    }
  }

  /** Where one byte of a successful block read comes from: `block[j]` holds the byte of step `j + 3`. */
  lemma BlockByte(q: seq<Response>, x: Xfer, buf: seq<bv8>, j: int)
    requires 0 <= x.dataSize <= |buf| && 0 <= j < |buf|
    ensures var l := BlockLoop(q, x, 4, 0, buf);
      l.ret == 0 ==> l.buf[j] == if j <= Count(q) then RespAt(q, j + 3).d else buf[j]
  {
    BlockHeadFrom(q, x, buf, 0);
    if AllPass(q, 0, 4) && 1 <= x.dataSize {
      BlockTailSlot(q, x, 4 + Count(q), 4, buf[0 := RespAt(q, 3).d], j);
    }
  }

  /**
   * A successful block read holds the count in `block[0]` and the `count`
   * data bytes after it; the rest of the buffer is unchanged.
   */
  lemma EnginePlacement(q: seq<Response>, x: Xfer, buf: seq<bv8>)
    requires 0 <= x.dataSize <= |buf|
    ensures var l := BlockLoop(q, x, 4, 0, buf);
      l.ret == 0 ==> l.buf[0] as int == Count(q) && forall j :: 0 <= j < |buf| ==>
        l.buf[j] == if j <= Count(q) then RespAt(q, j + 3).d else buf[j]
  {
    forall j | 0 <= j < |buf| {
      BlockByte(q, x, buf, j);
    }
    if BlockLoop(q, x, 4, 0, buf).ret == 0 {
      BlockLoopSuccess(q, x, buf);
    }
  }

  /** A run of passing responses splits at any step in between. */
  lemma AllPassSplit(q: seq<Response>, i: nat, m: nat, ss: int)
    requires i <= m <= ss
    ensures AllPass(q, i, ss) <==> AllPass(q, i, m) && AllPass(q, m, ss)
  {
  }

  /**
   * Without a timeout, a block read is its response loop over the
   * response words the device had when it began.
   */
  lemma BlockReadLoop(s: DevState, x: Xfer, data: seq<bv8>)
    requires 0 <= x.dataSize <= |data|
    ensures var o := BlockRead(s, x, data);
      var l := BlockLoop(s.resp, x, 4, 0, data);
      !BusyFrom(s.cs, 0, Budget(x.p)) ==>
        o.ret == l.ret && o.reason == l.reason && o.buf == l.buf && o.dev.resp == Drop(s.resp, l.used)
  {
    BlockHeader(s, x);
    BusyWaitSpec(s.cs, 0, Budget(x.p));
  }

  /**
   * scd_smbus_block_read as a whole: -EINVAL on a timeout without reading
   * a response, otherwise the outcome of the response loop; the result is
   * 0, -EIO for a rejected response or -EINVAL.
   */
  lemma BlockReadCodes(s: DevState, x: Xfer, data: seq<bv8>)
    requires 0 <= x.dataSize <= |data|
    ensures var o := BlockRead(s, x, data);
      && (o.ret == 0 || o.ret == -EIO || o.ret == -EINVAL)
      && (o.ret == -EIO <==> o.reason.BadResponse?)
      && (o.ret == 0 ==> o.reason == Untouched)
      && (!BusyFrom(s.cs, 0, Budget(x.p)) ==>
            var q := s.resp;
            (o.ret == 0 <==> AllPass(q, 0, 4 + Count(q)) && Count(q) < x.dataSize)
            && (o.ret == 0 ==> o.dev.resp == Drop(q, 4 + Count(q))))
  {
    BlockReadRet(s, x, data);
    BlockReadSuccess(s, x, data);
  }

  /** The codes part of BlockReadCodes. */
  lemma BlockReadRet(s: DevState, x: Xfer, data: seq<bv8>)
    requires 0 <= x.dataSize <= |data|
    ensures var o := BlockRead(s, x, data);
      && (o.ret == 0 || o.ret == -EIO || o.ret == -EINVAL)
      && (o.ret == -EIO <==> o.reason.BadResponse?)
      && (o.ret == 0 ==> o.reason == Untouched)
  {
    BlockHeader(s, x);
    BusyWaitSpec(s.cs, 0, Budget(x.p));
    var q := s.resp;
    BlockLoopSuccess(q, x, data);
    BlockHeadFrom(q, x, data, 0);
    if AllPass(q, 0, 4) && 1 <= x.dataSize {
      BlockTailCodes(q, x, 4 + Count(q), 4, data[0 := RespAt(q, 3).d]);
    }
  }

  /** The success part of BlockReadCodes. */
  lemma BlockReadSuccess(s: DevState, x: Xfer, data: seq<bv8>)
    requires 0 <= x.dataSize <= |data|
    ensures var o := BlockRead(s, x, data);
      !BusyFrom(s.cs, 0, Budget(x.p)) ==>
        var q := s.resp;
        (o.ret == 0 <==> AllPass(q, 0, 4 + Count(q)) && Count(q) < x.dataSize)
        && (o.ret == 0 ==> o.dev.resp == Drop(q, 4 + Count(q)))
  {
    BlockHeader(s, x);
    BusyWaitSpec(s.cs, 0, Budget(x.p));
    var q := s.resp;
    BlockLoopSuccess(q, x, data);
    BlockHeadFrom(q, x, data, 0);
    if AllPass(q, 0, 4) && 1 <= x.dataSize {
      BlockTailCodes(q, x, 4 + Count(q), 4, data[0 := RespAt(q, 3).d]);
    }
  }
}
