/**
 * What the response loop of a transaction does, in closed form: which
 * response words it consumes, when it succeeds, and where the data bytes
 * of a read end up in the caller's buffer.
 */
module SmbusRead {
  import opened Errno
  import opened SmbusRegs
  import opened SmbusDevice
  import opened SmbusSpec

  /** The fifo poll reads at most `retries - 1` further status words. */
  lemma {:induction false} PollBound(cs: CtrlStatus, q: seq<CtrlStatus>, retries: nat)
    requires retries >= 1
    ensures exists n :: 0 <= n < retries && PollCs(cs, q, retries) == Drop(q, n)
    decreases retries
  {
    if cs.fs != 0 || retries == 1 {
      assert q == Drop(q, 0);
    } else {
      PollBound(Head(q, IdleCs), Tail(q), retries - 1);
      var n :| 0 <= n < retries - 1 && PollCs(Head(q, IdleCs), Tail(q), retries - 1) == Drop(Tail(q), n);
      DropTail(q, n, IdleCs);
    }
  }

  /**
   * smbus_master_read_resp: one response word is read whatever the fifo
   * shows, after between 1 and 20 status reads; a first status showing a
   * non-empty fifo ends the polling at once.
   */
  lemma ReadRespShape(s: DevState)
    ensures var (r, s') := ReadRespOp(s);
      && r == Head(s.resp, IdleResp) && s'.resp == Tail(s.resp) && s'.trace == s.trace
      && (exists n :: 1 <= n <= 20 && s'.cs == Drop(s.cs, n))
      && (Head(s.cs, IdleCs).fs != 0 ==> s'.cs == Drop(s.cs, 1))
  {
    PollBound(Head(s.cs, IdleCs), Tail(s.cs), 20);
    var n :| 0 <= n < 20 && PollCs(Head(s.cs, IdleCs), Tail(s.cs), 20) == Drop(Tail(s.cs), n);
    DropTail(s.cs, n, IdleCs);
    DropTail(s.cs, 0, IdleCs);
  }

  /** The status words left after `n` polls: polling once more after `n` is polling `n + 1` times. */
  lemma {:induction false} PollManyNext(q: seq<CtrlStatus>, n: nat)
    ensures PollMany(q, n + 1) == PollCs(Head(PollMany(q, n), IdleCs), Tail(PollMany(q, n)), 20)
    decreases n
  {
    if n > 0 {
      PollManyNext(PollCs(Head(q, IdleCs), Tail(q), 20), n - 1);
    }
  }

  /**
   * Response reads compose: the `n + 1`-th read returns the `n`-th
   * response word and leaves the device as `n + 1` reads do.
   */
  lemma AfterReadsNext(s: DevState, n: nat)
    ensures ReadRespOp(AfterReads(s, n)) == (RespAt(s.resp, n), AfterReads(s, n + 1))
  {
    PollManyNext(s.cs, n);
    DropTail(s.resp, n, IdleResp);
    TailDrop(s.resp, n);
  }

  /** Every response of steps `i` .. `ss - 1` passes its check. */
  predicate AllPass(q: seq<Response>, i: nat, ss: int) {
    forall k :: i <= k < ss ==> CheckResp(RespAt(q, k), StepId(k)) == Pass
  }

  /** A read whose response bytes go to `block[]` from step 3 on. */
  predicate BlockKind(x: Xfer) {
    x.read && x.size != I2C_SMBUS_BYTE && x.size != I2C_SMBUS_BYTE_DATA && x.size != I2C_SMBUS_WORD_DATA
  }

  /** How many steps precede the first data byte of a block-type read, minus one per count byte. */
  function Gap(x: Xfer): nat {
    if x.size == I2C_SMBUS_I2C_BLOCK_DATA then 2 else 3
  }

  /** The step whose response byte lands in `block[j]`. */
  function SlotStep(x: Xfer, j: int): int {
    j + Gap(x)
  }

  /** The buffer is long enough for the bytes of the steps `i` .. `ss - 1`. */
  predicate FitsFrom(x: Xfer, ss: int, i: nat) {
    !BlockKind(x) || ss <= i || ss <= 3 || ss - 1 < SlotStep(x, x.dataSize)
  }

  /** A response loop step fails to store exactly when a block byte falls past the buffer. */
  lemma StoreTooShort(x: Xfer, ss: int, i: nat, d: bv8, buf: seq<bv8>)
    requires Room(x, buf)
    ensures StoreResp(x, ss, i, d, buf).TooShort? <==>
      BlockKind(x) && i >= 3 && i >= SlotStep(x, x.dataSize)
  {
  }

  /**
   * The response loop's result is one of three: 0 with nothing to report,
   * -EIO for a rejected response, -EINVAL for a buffer too short for the
   * bytes of a block read. It reads one word per step: all remaining steps
   * on success, or up to and including the step that failed.
   */
  lemma {:induction false} RespLoopCodes(q: seq<Response>, x: Xfer, ss: int, i: nat, buf: seq<bv8>)
    requires Room(x, buf) && i <= ss
    ensures var l := RespLoop(q, x, ss, i, buf);
      && (l.ret == 0 <==> l.reason == Untouched)
      && (l.ret == -EIO <==> l.reason.BadResponse?)
      && (l.ret == -EINVAL <==> l.reason == BufferTooShort)
      && (l.ret == 0 || l.ret == -EIO || l.ret == -EINVAL)
      && (l.ret == 0 ==> l.used == ss)
      && (l.ret != 0 ==> i < l.used <= ss)
    decreases ss - i
  {
    if i < ss {
      var resp := RespAt(q, i);
      if CheckResp(resp, StepId(i)) == Pass && StoreResp(x, ss, i, resp.d, buf).Stored? {
        RespLoopCodes(q, x, ss, i + 1, StoreResp(x, ss, i, resp.d, buf).buf);
      }
    }
  }

  /**
   * A failure names the step that failed: the responses before it passed,
   * and either its own response was rejected for the reason given, or its
   * byte fell past the end of the buffer.
   */
  lemma {:induction false} RespLoopFailure(q: seq<Response>, x: Xfer, ss: int, i: nat, buf: seq<bv8>)
    requires Room(x, buf) && i <= ss
    ensures var l := RespLoop(q, x, ss, i, buf);
      l.ret != 0 ==>
        && i < l.used <= ss
        && AllPass(q, i, l.used - 1)
        && (l.reason.BadResponse? ==>
              CheckResp(RespAt(q, l.used - 1), StepId(l.used - 1)) == Bad(l.reason.error))
        && (l.reason == BufferTooShort ==>
              CheckResp(RespAt(q, l.used - 1), StepId(l.used - 1)) == Pass
              && BlockKind(x) && l.used - 1 >= 3 && l.used - 1 >= SlotStep(x, x.dataSize))
    decreases ss - i
  {
    if i < ss {
      var resp := RespAt(q, i);
      StoreTooShort(x, ss, i, resp.d, buf);
      if CheckResp(resp, StepId(i)) == Pass && StoreResp(x, ss, i, resp.d, buf).Stored? {
        RespLoopFailure(q, x, ss, i + 1, StoreResp(x, ss, i, resp.d, buf).buf);
      }
    }
  }

  /**
   * The response loop succeeds exactly when every response of the
   * remaining steps passes its check and the buffer holds all the bytes of
   * the read.
   */
  lemma {:induction false} RespLoopSuccess(q: seq<Response>, x: Xfer, ss: int, i: nat, buf: seq<bv8>)
    requires Room(x, buf) && i <= ss
    ensures RespLoop(q, x, ss, i, buf).ret == 0 <==> AllPass(q, i, ss) && FitsFrom(x, ss, i)
    decreases ss - i
  {
    if i < ss {
      var resp := RespAt(q, i);
      StoreTooShort(x, ss, i, resp.d, buf);
      if CheckResp(resp, StepId(i)) == Pass && StoreResp(x, ss, i, resp.d, buf).Stored? {
        RespLoopSuccess(q, x, ss, i + 1, StoreResp(x, ss, i, resp.d, buf).buf);
      }
    }
  }

  /** Where one byte of a block-type read comes from. */
  lemma {:induction false} BlockSlot(q: seq<Response>, x: Xfer, ss: int, i: nat, buf: seq<bv8>, j: int)
    requires Room(x, buf) && BlockKind(x) && 0 <= j < |buf|
    ensures var l := RespLoop(q, x, ss, i, buf);
      l.ret == 0 ==>
        l.buf[j] == (if i <= SlotStep(x, j) < ss && 3 <= SlotStep(x, j)
                     then RespAt(q, SlotStep(x, j)).d else buf[j])
    decreases ss - i
  {
    if i < ss {
      var resp := RespAt(q, i);
      if CheckResp(resp, StepId(i)) == Pass && StoreResp(x, ss, i, resp.d, buf).Stored? {
        RespLoopSlot(q, x, ss, i, buf, j);
      }
    }
  }

  lemma {:induction false} RespLoopSlot(q: seq<Response>, x: Xfer, ss: int, i: nat, buf: seq<bv8>, j: int)
    requires Room(x, buf) && BlockKind(x) && 0 <= j < |buf| && i < ss
    requires CheckResp(RespAt(q, i), StepId(i)) == Pass && StoreResp(x, ss, i, RespAt(q, i).d, buf).Stored?
    ensures var l := RespLoop(q, x, ss, i, buf);
      l.ret == 0 ==>
        l.buf[j] == (if i <= SlotStep(x, j) < ss && 3 <= SlotStep(x, j)
                     then RespAt(q, SlotStep(x, j)).d else buf[j])
    decreases ss - i, 0
  {
    var b := StoreResp(x, ss, i, RespAt(q, i).d, buf).buf;
    assert b[j] == if i >= 3 && i == SlotStep(x, j) then RespAt(q, i).d else buf[j];
    BlockSlot(q, x, ss, i + 1, b, j);
  }

  /** A block-type read places the byte of step `SlotStep(x, j)` in `block[j]`. */
  lemma BlockPlacement(q: seq<Response>, x: Xfer, ss: int, i: nat, buf: seq<bv8>)
    requires Room(x, buf) && BlockKind(x)
    ensures var l := RespLoop(q, x, ss, i, buf);
      l.ret == 0 ==> forall j :: 0 <= j < |buf| ==>
        l.buf[j] == (if i <= SlotStep(x, j) < ss && 3 <= SlotStep(x, j)
                     then RespAt(q, SlotStep(x, j)).d else buf[j])
  {
    forall j | 0 <= j < |buf| {
      BlockSlot(q, x, ss, i, buf, j);
    }
  }

  /** A byte read stores the byte of the last step in `block[0]` and nothing else. */
  lemma {:induction false} BytePlacement(q: seq<Response>, x: Xfer, ss: int, i: nat, buf: seq<bv8>)
    requires Room(x, buf) && i < ss
    requires x.read && (x.size == I2C_SMBUS_BYTE || x.size == I2C_SMBUS_BYTE_DATA)
    ensures var l := RespLoop(q, x, ss, i, buf);
      l.ret == 0 ==> l.buf == buf[0 := RespAt(q, ss - 1).d]
    decreases ss - i
  {
    var resp := RespAt(q, i);
    if CheckResp(resp, StepId(i)) == Pass && i < ss - 1 {
      BytePlacement(q, x, ss, i + 1, buf);
    }
  }

  /** The last two steps of a word read: the low byte, then the high byte ORed into a cleared `block[1]`. */
  lemma WordLastTwo(q: seq<Response>, x: Xfer, ss: int, buf: seq<bv8>)
    requires Room(x, buf) && 2 <= ss
    requires x.read && x.size == I2C_SMBUS_WORD_DATA
    ensures var l := RespLoop(q, x, ss, ss - 2, buf);
      l.ret == 0 ==> l.buf == buf[0 := RespAt(q, ss - 2).d][1 := RespAt(q, ss - 1).d]
  {
    var lo, hi := RespAt(q, ss - 2).d, RespAt(q, ss - 1).d;
    if CheckResp(RespAt(q, ss - 2), StepId(ss - 2)) == Pass {
      var b := buf[0 := lo][1 := 0];
      assert RespLoop(q, x, ss, ss - 2, buf) == RespLoop(q, x, ss, ss - 1, b);
      if CheckResp(RespAt(q, ss - 1), StepId(ss - 1)) == Pass {
        assert RespLoop(q, x, ss, ss - 1, b).buf == b[1 := b[1] | hi];
        OrIntoCleared(buf, lo, hi);
      }
    }
  }

  /** A word read stores the low byte at step `ss - 2` and the high byte at step `ss - 1`. */
  lemma {:induction false} WordPlacement(q: seq<Response>, x: Xfer, ss: int, i: nat, buf: seq<bv8>)
    requires Room(x, buf) && i + 2 <= ss
    requires x.read && x.size == I2C_SMBUS_WORD_DATA
    ensures var l := RespLoop(q, x, ss, i, buf);
      l.ret == 0 ==> l.buf == buf[0 := RespAt(q, ss - 2).d][1 := RespAt(q, ss - 1).d]
    decreases ss - i
  {
    if i + 2 == ss {
      WordLastTwo(q, x, ss, buf);
    } else if CheckResp(RespAt(q, i), StepId(i)) == Pass {
      WordPlacement(q, x, ss, i + 1, buf);
    }
  }

  lemma OrIntoCleared(buf: seq<bv8>, lo: bv8, hi: bv8)
    requires 2 <= |buf|
    ensures var b := buf[0 := lo][1 := 0]; b[1 := b[1] | hi] == buf[0 := lo][1 := hi]
  {
    assert (0 as bv8) | hi == hi;
  }
}
