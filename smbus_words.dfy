/**
 * The request words of one transaction in closed form: the `k`-th word
 * written by the request loop of scd_smbus_do_impl, as a function of `k`
 * alone, and the proof that the loop writes exactly these words.
 */
module SmbusWords {
  import opened SmbusRegs
  import opened SmbusDevice
  import opened SmbusSpec

  /** Whether step `k` drives the data line (the address, command and write bytes). */
  function Dod(x: Xfer, ss: int, k: nat): bool {
    if k == 1 && ss == 2 then !x.read else !(k >= 3 && x.read)
  }

  /**
   * Step 0 sends the address, step 1 the command; a read repeats the start
   * with the address at step 2 and then clocks data in, a write sends the
   * payload from step 2 on. Only the last step stops, carries the timing of
   * the data phase and the extra delay.
   */
  function Word(x: Xfer, ss: int, offset: nat, data: seq<bv8>, k: nat): Request
    requires k < ss && WriteInBounds(x, ss, offset, data)
  {
    Request(
      d := if k == 0 then AddrByte(x.addr, ss <= 2 && x.read)
           else if k == 1 then x.command
           else if x.read then AddrByte(x.addr, true)
           else data[offset + k - 2],
      ss := if k == 0 then (ss % 64) as bv6 else 0,
      ed := k == ss - 1 && EdBit(x),
      br := false,
      dat := if k == ss - 1 then DatCode(x) else 0,
      t := Timing(x.p),
      sp := k == ss - 1,
      da := !(Dod(x, ss, k) || k == ss - 1),
      dod := Dod(x, ss, k),
      st := k == 0 || (k == 2 && x.read),
      bs := x.busSel,
      ti := StepId(k))
  }

  /** The words of steps `i` up to `ss`, as trace entries. */
  function WordTrace(x: Xfer, ss: int, offset: nat, data: seq<bv8>, i: nat): seq<Write>
    requires WriteInBounds(x, ss, offset, data)
    decreases ss - i
  {
    if i >= ss then [] else [WrReq((Word(x, ss, offset, data, i)))] + WordTrace(x, ss, offset, data, i + 1)
  }

  lemma StepIdSucc(k: nat)
    ensures StepId(k) + 1 == StepId(k + 1)
  {
  }

  /** The id of step `k` is `k` mod 16. */
  lemma {:induction false} StepIdMod(k: nat)
    ensures StepId(k) as int == k % 16
  {
    if k > 0 {
      StepIdMod(k - 1);
      var p := StepId(k - 1);
      if p == 15 {
        assert p + 1 == 0;
      } else {
        assert (p + 1) as int == p as int + 1;
      }
    }
  }

  /** The request the loop carries into step `i` (after step `i - 1`). */
  function Carry(x: Xfer, ss: int, offset: nat, data: seq<bv8>, i: nat): Request
    requires 1 <= i <= ss && WriteInBounds(x, ss, offset, data)
  {
    Word(x, ss, offset, data, i - 1).(ti := StepId(i), st := false)
  }

  lemma PrepFirst(x: Xfer, ss: int, offset: nat, data: seq<bv8>)
    requires 1 <= ss && WriteInBounds(x, ss, offset, data)
    ensures PrepWord(x, ss, offset, data, InitRequest(x, ss), 0) == Word(x, ss, offset, data, 0)
  {
  }

  lemma PrepNext(x: Xfer, ss: int, offset: nat, data: seq<bv8>, i: nat)
    requires 1 <= i < ss && WriteInBounds(x, ss, offset, data)
    ensures PrepWord(x, ss, offset, data, Carry(x, ss, offset, data, i), i) == Word(x, ss, offset, data, i)
  {
    var c := Carry(x, ss, offset, data, i);
    var w := Word(x, ss, offset, data, i);
    if i == ss - 1 {
      var r1 := c.(sp := true, ed := EdBit(x), dat := DatCode(x));
      PrepSteps(x, ss, offset, data, r1, i, w);
    } else {
      PrepSteps(x, ss, offset, data, c, i, w);
    }
  }

  lemma PrepSteps(x: Xfer, ss: int, offset: nat, data: seq<bv8>, r1: Request, i: nat, w: Request)
    requires 1 <= i < ss && WriteInBounds(x, ss, offset, data)
    requires w == Word(x, ss, offset, data, i)
    requires r1 == (if i == ss - 1 then Carry(x, ss, offset, data, i).(sp := true, ed := EdBit(x), dat := DatCode(x))
                    else Carry(x, ss, offset, data, i))
    ensures PrepWord(x, ss, offset, data, Carry(x, ss, offset, data, i), i) == w
  {
    var r2 := if i == 1 then r1.(st := false, ss := 0, d := x.command,
                                 dod := if ss == 2 then !x.read else true) else r1;
    var r3 := if i == 2 && x.read then r2.(st := true, d := AddrByte(x.addr, true)) else r2;
    var r4 := if i >= 2 && !x.read then r3.(d := data[offset + i - 2]) else r3;
    var r5 := if i == 3 && x.read then r4.(dod := false) else r4;
    assert PrepWord(x, ss, offset, data, Carry(x, ss, offset, data, i), i) == r5.(da := !(r5.dod || r5.sp));
    assert r5.ti == w.ti && r5.bs == w.bs && r5.t == w.t && r5.br == w.br;
    assert r5.sp == w.sp && r5.ed == w.ed && r5.dat == w.dat;
    assert r5.d == w.d && r5.ss == w.ss && r5.st == w.st && r5.dod == w.dod;
  }

  lemma {:induction false} WriteFromCarry(s: DevState, x: Xfer, ss: int, offset: nat, data: seq<bv8>, i: nat)
    requires 1 <= i <= ss && WriteInBounds(x, ss, offset, data)
    ensures WriteFrom(s, x, ss, offset, data, Carry(x, ss, offset, data, i), i)
         == s.(trace := s.trace + WordTrace(x, ss, offset, data, i))
    decreases ss - i
  {
    if i == ss {
      assert s.trace + [] == s.trace;
    } else {
      PrepNext(x, ss, offset, data, i);
      var w := Word(x, ss, offset, data, i);
      StepIdSucc(i);
      assert w.(ti := w.ti + 1, st := false) == Carry(x, ss, offset, data, i + 1);
      WriteFromCarry(PushReq(s, w), x, ss, offset, data, i + 1);
      assert s.trace + [WrReq(w)] + WordTrace(x, ss, offset, data, i + 1)
          == s.trace + WordTrace(x, ss, offset, data, i);
    }
  }

  /** The request loop appends exactly the closed-form words and reads nothing. */
  lemma {:induction false} WritePhase(s: DevState, x: Xfer, ss: int, offset: nat, data: seq<bv8>)
    requires WriteInBounds(x, ss, offset, data)
    ensures WriteFrom(s, x, ss, offset, data, InitRequest(x, ss), 0)
         == s.(trace := s.trace + WordTrace(x, ss, offset, data, 0))
  {
    if ss <= 0 {
      assert s.trace + [] == s.trace;
    } else {
      PrepFirst(x, ss, offset, data);
      var w := Word(x, ss, offset, data, 0);
      StepIdSucc(0);
      assert InitRequest(x, ss).ti == 0;
      assert w.(ti := w.ti + 1, st := false) == Carry(x, ss, offset, data, 1);
      WriteFromCarry(PushReq(s, w), x, ss, offset, data, 1);
      assert s.trace + [WrReq(w)] + WordTrace(x, ss, offset, data, 1)
          == s.trace + WordTrace(x, ss, offset, data, 0);
    }
  }

  /** One word per remaining step. */
  lemma {:induction false} WordTraceLen(x: Xfer, ss: int, offset: nat, data: seq<bv8>, i: nat)
    requires WriteInBounds(x, ss, offset, data)
    ensures |WordTrace(x, ss, offset, data, i)| == if i >= ss then 0 else ss - i
    decreases ss - i
  {
    if i < ss {
      WordTraceLen(x, ss, offset, data, i + 1);
    }
  }

  /** The `j`-th entry of the words from step `i` is the word of step `i + j`. */
  lemma {:induction false} WordTraceAt(x: Xfer, ss: int, offset: nat, data: seq<bv8>, i: nat)
    requires WriteInBounds(x, ss, offset, data)
    ensures |WordTrace(x, ss, offset, data, i)| == if i >= ss then 0 else ss - i
    ensures forall j :: 0 <= j < |WordTrace(x, ss, offset, data, i)| ==>
      WordTrace(x, ss, offset, data, i)[j] == WrReq((Word(x, ss, offset, data, i + j)))
    decreases ss - i
  {
    if i < ss {
      WordTraceAt(x, ss, offset, data, i + 1);
    }
  }

  /**
   * The request loop of a transaction of `ss` steps writes exactly `ss`
   * request words after what was already written, reads nothing, and its
   * `k`-th word is the closed form `Word(k)`.
   */
  lemma WrittenRequest(s: DevState, x: Xfer, ss: int, offset: nat, data: seq<bv8>, k: nat)
    requires WriteInBounds(x, ss, offset, data) && k < ss
    ensures var s' := WriteFrom(s, x, ss, offset, data, InitRequest(x, ss), 0);
      && s'.cs == s.cs && s'.resp == s.resp
      && |s'.trace| == |s.trace| + ss
      && s'.trace[..|s.trace|] == s.trace
      && s'.trace[|s.trace| + k] == WrReq(Word(x, ss, offset, data, k))
  {
    WritePhase(s, x, ss, offset, data);
    WordTraceLen(x, ss, offset, data, 0);
    WordTraceAt(x, ss, offset, data, 0);
    var s' := WriteFrom(s, x, ss, offset, data, InitRequest(x, ss), 0);
    assert s'.trace[|s.trace| + k] == WordTrace(x, ss, offset, data, 0)[k];
  }

  /**
   * What the `k`-th request word of a transaction says: its id is `k` mod
   * 16, it starts a frame only at step 0 and at the repeated start of a
   * read, only the last step stops, the step count appears in the first
   * word alone, and the data-acknowledge bit is set exactly when the step
   * neither drives the line nor stops.
   */
  lemma WordShape(x: Xfer, ss: int, offset: nat, data: seq<bv8>, k: nat)
    requires WriteInBounds(x, ss, offset, data) && k < ss
    ensures var r := Word(x, ss, offset, data, k);
      && r.ti as int == k % 16
      && (r.st <==> k == 0 || (k == 2 && x.read))
      && (r.sp <==> k == ss - 1)
      && (r.ss != 0 ==> k == 0)
      && r.da == !(r.dod || r.sp)
      && (k == 1 ==> r.d == x.command)
      && (k >= 2 && !x.read ==> r.d == data[offset + k - 2])
      && (k == 2 && x.read ==> r.d == AddrByte(x.addr, true))
      && (k == 0 ==> r.d == AddrByte(x.addr, ss <= 2 && x.read))
      && (x.read && k >= 3 ==> !r.dod)
      && r.bs == x.busSel && r.t == Timing(x.p) && !r.br
  {
    StepIdMod(k);
  }
}
