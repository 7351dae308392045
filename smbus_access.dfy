/**
 * The retry loop of scd_smbus_access_impl and the i2c message adapter
 * scd_smbus_master_xfer: which results are retried, how many attempts
 * are made, and what a message transfer returns.
 */
module SmbusAccess {
  import opened Errno
  import opened SmbusDevice
  import opened SmbusSpec
  import opened SmbusDo

  /** A result other than -EIO, success included, is returned at once: one attempt, no retry. */
  lemma AccessNoRetry(s: DevState, tgt: Target, maxRetries: int, addr: bv16, read: bool, command: bv8,
                      size: int, data: seq<bv8>, dataSize: int, retry: nat)
    requires BufOk(size, read, data, dataSize)
    requires Do(s, tgt, addr, read, command, size, data, dataSize).ret != -EIO
    ensures AccessFrom(s, tgt, maxRetries, addr, read, command, size, data, dataSize, retry)
         == Attempts(Do(s, tgt, addr, read, command, size, data, dataSize), retry + 1)
  {
  }

  /**
   * The retry loop ends with 0, -EIO or -EINVAL; it returns -EIO only
   * after `max(1, max_retries)` attempts in all, each of them -EIO, and
   * every failure it returns left the master reset.
   */
  lemma {:induction false} AccessCodes(s: DevState, tgt: Target, maxRetries: int, addr: bv16, read: bool,
                                       command: bv8, size: int, data: seq<bv8>, dataSize: int, retry: nat)
    requires BufOk(size, read, data, dataSize)
    ensures var a := AccessFrom(s, tgt, maxRetries, addr, read, command, size, data, dataSize, retry);
      && (a.out.ret == 0 || a.out.ret == -EIO || a.out.ret == -EINVAL)
      && (a.out.ret != 0 ==> EndsWithReset(a.out.dev.trace))
      && (a.out.ret == -EIO ==> a.count == Max(retry + 1, maxRetries))
      && (a.count > retry + 1 ==> Do(s, tgt, addr, read, command, size, data, dataSize).ret == -EIO)
    decreases maxRetries - retry
  {
    var o := Do(s, tgt, addr, read, command, size, data, dataSize);
    var a := AccessFrom(s, tgt, maxRetries, addr, read, command, size, data, dataSize, retry);
    DoCodes(s, tgt, addr, read, command, size, data, dataSize);
    if o.ret == -EIO && retry + 1 < maxRetries {
      assert BufOk(size, read, o.buf, dataSize);
      assert a == AccessFrom(o.dev, tgt, maxRetries, addr, read, command, size, o.buf, dataSize, retry + 1);
      AccessCodes(o.dev, tgt, maxRetries, addr, read, command, size, o.buf, dataSize, retry + 1);
    } else {
      assert a == Attempts(o, retry + 1);
    }
  }

  /** With no retries configured the loop still makes one attempt. */
  lemma AccessAtLeastOnce(s: DevState, tgt: Target, maxRetries: int, addr: bv16, read: bool,
                          command: bv8, size: int, data: seq<bv8>, dataSize: int)
    requires BufOk(size, read, data, dataSize) && maxRetries <= 1
    ensures AccessFrom(s, tgt, maxRetries, addr, read, command, size, data, dataSize, 0)
         == Attempts(Do(s, tgt, addr, read, command, size, data, dataSize), 1)
  {
  }

  /**
   * scd_smbus_master_xfer refuses more than two messages, and a first
   * message of two that is a read or not exactly one byte long: -EINVAL
   * with the device and the messages untouched.
   */
  lemma MasterXferRejects(s: DevState, tgt: Target, maxRetries: int, msgs: seq<I2cMsg>)
    requires XferOk(msgs)
    requires |msgs| > 2 || (|msgs| == 2 && (msgs[0].rd || |msgs[0].buf| != 1))
    ensures MasterXfer(s, tgt, maxRetries, msgs) == XferResult(-EINVAL, s, msgs)
  {
  }

  /** The messages keep their addresses, directions and lengths; a write message is returned unchanged. */
  predicate SameShape(msgs: seq<I2cMsg>, out: seq<I2cMsg>) {
    && |out| == |msgs|
    && (forall k :: 0 <= k < |msgs| ==>
          out[k].addr == msgs[k].addr && out[k].rd == msgs[k].rd && |out[k].buf| == |msgs[k].buf|)
    && (forall k :: 0 <= k < |msgs| && !msgs[k].rd ==> out[k] == msgs[k])
  }

  /**
   * A command byte followed by a second message: the result is 2 on
   * success and the transaction's failure otherwise, and only a read
   * message's bytes change.
   */
  lemma MasterXferTwo(s: DevState, tgt: Target, maxRetries: int, msgs: seq<I2cMsg>)
    requires |msgs| == 2 && !msgs[0].rd && |msgs[0].buf| == 1
    ensures var r := MasterXfer(s, tgt, maxRetries, msgs);
      && (r.ret == 2 || r.ret == -EIO || r.ret == -EINVAL)
      && SameShape(msgs, r.msgs)
      && r.msgs[0] == msgs[0]
  {
    var m := msgs[1];
    AccessCodes(s, tgt, maxRetries, m.addr, m.rd, msgs[0].buf[0], I2C_SMBUS_I2C_BLOCK_DATA_MSG, m.buf, |m.buf|, 0);
  }

  /** A single message is one transaction on the bytes after its command byte. */
  lemma MasterXferSingle(s: DevState, tgt: Target, maxRetries: int, m: I2cMsg)
    requires |m.buf| >= 1
    ensures var a := AccessFrom(s, tgt, maxRetries, m.addr, m.rd, m.buf[0], I2C_SMBUS_I2C_BLOCK_DATA_MSG, m.buf[1..], |m.buf| - 1, 0);
      MasterXfer(s, tgt, maxRetries, [m])
      == XferResult(if a.out.ret != 0 then a.out.ret else 1, a.out.dev, [m.(buf := [m.buf[0]] + a.out.buf)])
  {
  }

  /** Putting the command byte back in front of a transferred tail keeps the message's shape. */
  lemma CommandKept(m: I2cMsg, tail: seq<bv8>)
    requires |m.buf| >= 1 && |tail| == |m.buf| - 1
    requires !m.rd ==> tail == m.buf[1..]
    ensures SameShape([m], [m.(buf := [m.buf[0]] + tail)])
  {
    if !m.rd {
      assert [m.buf[0]] + m.buf[1..] == m.buf;
    }
  }

  /**
   * A single message whose first byte is the command: the result is 1 on
   * success and the transaction's failure otherwise; the command byte is
   * kept and only the bytes after it of a read change.
   */
  lemma MasterXferOne(s: DevState, tgt: Target, maxRetries: int, msgs: seq<I2cMsg>)
    requires |msgs| == 1 && |msgs[0].buf| >= 1
    ensures var r := MasterXfer(s, tgt, maxRetries, msgs);
      && (r.ret == 1 || r.ret == -EIO || r.ret == -EINVAL)
      && SameShape(msgs, r.msgs)
      && r.msgs[0].buf[0] == msgs[0].buf[0]
  {
    var m := msgs[0];
    var a := AccessFrom(s, tgt, maxRetries, m.addr, m.rd, m.buf[0], I2C_SMBUS_I2C_BLOCK_DATA_MSG, m.buf[1..], |m.buf| - 1, 0);
    assert msgs == [m];
    MasterXferSingle(s, tgt, maxRetries, m);
    AccessCodes(s, tgt, maxRetries, m.addr, m.rd, m.buf[0], I2C_SMBUS_I2C_BLOCK_DATA_MSG, m.buf[1..], |m.buf| - 1, 0);
    CommandKept(m, a.out.buf);
  }
}
