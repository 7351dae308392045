/**
 * The MDIO master: clause 22 and clause 45 management access (sections
 * 22.2.4.5 and 45.3 of IEEE 802.3) through a control/status register, two
 * request registers and a response register. The bit layouts of these
 * registers are not part of this model; each register is a record of the
 * fields the driver sets or reads. Status and response reads come from a
 * script, as for the SMBus master.
 */
module Mdio {
  import opened Errno
  import opened SmbusDevice

  /** The flag of a clause 45 phy id (linux/mdio.h). */
  const MDIO_PHY_ID_C45: bv32 := 0x8000
  /** The mode bit of a device that speaks clause 45 (linux/mdio.h). */
  const MDIO_SUPPORTS_C45: bv32 := 2

  /** The operation of one request; their codes are not part of this model. */
  datatype MdioOp = Set | Write | Read

  datatype MdioCs = MdioCs(sp: int, reset: bool, fe: bool, resCount: int)
  datatype ReqLo = ReqLo(bs: int, t: int, op: MdioOp, dt: bv32, pa: bv32, d: bv16)
  datatype ReqHi = ReqHi(ri: bv8)
  datatype MdioResp = MdioResp(ts: int, fe: bool, d: bv16)

  datatype MdioWrite = CsWord(cs: MdioCs) | LoWord(lo: ReqLo) | HiWord(hi: ReqHi)

  const IdleMdioCs := MdioCs(0, false, false, 0)
  const IdleMdioResp := MdioResp(0, false, 0)

  /** What was written, what is still to be read, and the next request id. */
  datatype MdioState = MdioState(trace: seq<MdioWrite>, cs: seq<MdioCs>, resp: seq<MdioResp>, reqId: bv8)

  function Push(s: MdioState, w: MdioWrite): MdioState {
    s.(trace := s.trace + [w])
  }

  /** get_default_mdio_cs with the interrupt flag set: what clears a pending interrupt. */
  function ClearIrq(speed: int): MdioCs {
    MdioCs(speed, false, true, 0)
  }

  // ---------------------------------------------------------------------
  // mdio_master_wait_response

  function ResCount(q: seq<MdioCs>, k: nat): int {
    Nth(q, k, IdleMdioCs).resCount
  }

  /**
   * The wait from poll `k` on, `n` polls in all (one per delay of the
   * back-off sequence): 0 once one response is counted, -EOPNOTSUPP for
   * any other non-zero count, -EAGAIN when every poll counts none. The
   * second component is the number of status words read.
   */
  function WaitFrom(q: seq<MdioCs>, k: nat, n: nat): (int, nat)
    decreases n - k
  {
    if k >= n then (-EAGAIN, k)
    else if ResCount(q, k) == 1 then (0, k + 1)
    else if ResCount(q, k) == 0 then WaitFrom(q, k + 1, n)
    else (-EOPNOTSUPP, k + 1)
  }

  /** No response counted in polls `k` .. `j - 1`. */
  predicate AllIdle(q: seq<MdioCs>, k: nat, j: nat) {
    forall i :: k <= i < j ==> ResCount(q, i) == 0
  }

  /**
   * The wait ends at the first poll that counts a response: 0 when it
   * counts exactly one and -EOPNOTSUPP otherwise; it times out with
   * -EAGAIN exactly when no poll counts anything.
   */
  lemma {:induction false} WaitSpec(q: seq<MdioCs>, k: nat, n: nat)
    requires k <= n
    ensures var (err, used) := WaitFrom(q, k, n);
      && (err == 0 || err == -EOPNOTSUPP || err == -EAGAIN)
      && (err == -EAGAIN <==> AllIdle(q, k, n))
      && (err == -EAGAIN ==> used == n)
      && (err != -EAGAIN ==> k < used <= n && AllIdle(q, k, used - 1) && ResCount(q, used - 1) != 0
                             && (err == 0 <==> ResCount(q, used - 1) == 1))
    decreases n - k
  {
    if k < n && ResCount(q, k) == 0 {
      WaitSpec(q, k + 1, n);
    }
  }

  // ---------------------------------------------------------------------
  // scd_mdio_bus_request

  /** The low request word of one phase. */
  function Lo(busId: int, op: MdioOp, clause: int, prtad: bv32, devad: bv32, data: bv16): ReqLo {
    ReqLo(busId, clause, op, devad, prtad, data)
  }

  /**
   * The first half of a request phase: clear the interrupt, write the low
   * word, and write the high word with the next request id, which is then
   * bumped.
   */
  function Submit(s: MdioState, speed: int, busId: int, op: MdioOp, clause: int,
                  prtad: bv32, devad: bv32, data: bv16): MdioState
  {
    s.(trace := s.trace + PhaseWrites(s, speed, busId, op, clause, prtad, devad, data), reqId := s.reqId + 1)
  }

  /**
   * The second half: wait for the response; on success clear the
   * interrupt again and read the response.
   */
  function Collect(s: MdioState, speed: int, polls: nat, op: MdioOp): (int, MdioState)
  {
    var (err, used) := WaitFrom(s.cs, 0, polls);
    var s1 := s.(cs := Drop(s.cs, used));
    if err != 0 then (err, s1)
    else
      var resp := Head(s1.resp, IdleMdioResp);
      var s2 := Push(s1, CsWord(ClearIrq(speed))).(resp := Tail(s1.resp));
      if resp.ts != 1 || resp.fe then (-EIO, s2)
      else if op == Read then (resp.d as int, s2)
      else (0, s2)
  }

  /** scd_mdio_bus_request: one request phase. */
  function BusRequestOp(s: MdioState, speed: int, polls: nat, busId: int, op: MdioOp, clause: int,
                        prtad: bv32, devad: bv32, data: bv16): (int, MdioState)
  {
    Collect(Submit(s, speed, busId, op, clause, prtad, devad, data), speed, polls, op)
  }

  /** The words one phase writes before it waits. */
  function PhaseWrites(s: MdioState, speed: int, busId: int, op: MdioOp, clause: int,
                       prtad: bv32, devad: bv32, data: bv16): seq<MdioWrite> {
    [CsWord(ClearIrq(speed)), LoWord(Lo(busId, op, clause, prtad, devad, data)), HiWord(ReqHi(s.reqId))]
  }

  /**
   * A phase uses exactly one request id; it writes the interrupt clear and
   * both request words, and a second interrupt clear only when its wait
   * succeeded. A wait failure is returned as is and no response is read;
   * a response with a bad status or its error flag set gives -EIO; a read
   * returns the response's data and a set or write returns 0.
   */
  lemma BusRequestSpec(s: MdioState, speed: int, polls: nat, busId: int, op: MdioOp, clause: int,
                       prtad: bv32, devad: bv32, data: bv16)
    ensures var (r, s') := BusRequestOp(s, speed, polls, busId, op, clause, prtad, devad, data);
      var (err, used) := WaitFrom(s.cs, 0, polls);
      var resp := Head(s.resp, IdleMdioResp);
      var w := s.trace + PhaseWrites(s, speed, busId, op, clause, prtad, devad, data);
      && s'.reqId == s.reqId + 1
      && s'.cs == Drop(s.cs, used)
      && (err != 0 ==> r == err && s'.trace == w && s'.resp == s.resp)
      && (err == 0 ==> s'.trace == w + [CsWord(ClearIrq(speed))] && s'.resp == Tail(s.resp))
      && (err == 0 && (resp.ts != 1 || resp.fe) ==> r == -EIO)
      && (err == 0 && resp.ts == 1 && !resp.fe ==> r == if op == Read then resp.d as int else 0)
  {
  }

  /** A phase's result: a wait failure, -EIO, 0, or for a read a 16-bit value. */
  lemma BusRequestCodes(s: MdioState, speed: int, polls: nat, busId: int, op: MdioOp, clause: int,
                        prtad: bv32, devad: bv32, data: bv16)
    ensures var r := BusRequestOp(s, speed, polls, busId, op, clause, prtad, devad, data).0;
      && (r < 0 ==> r == -EOPNOTSUPP || r == -EAGAIN || r == -EIO)
      && (op != Read ==> r <= 0)
      && r < 0x1_0000
  {
    WaitSpec(s.cs, 0, polls);
  }

  // ---------------------------------------------------------------------
  // scd_mii_bus_do and scd_mdio_mii_id

  /**
   * `addr >> 5` on a C int: an arithmetic shift, so the sign and the clause
   * 45 flag stay in the port address. Shifted back and given the five low
   * bits again it is `addr`, and its top six bits all copy the sign of `addr`.
   */
  function PhyPrtad(addr: bv32): (p: bv32)
    ensures (p << 5) | (addr & 0x1f) == addr
    ensures addr < 0x8000_0000 ==> p < 0x0400_0000
    ensures addr >= 0x8000_0000 ==> p >= 0xFC00_0000
  {
    (addr >> 5) | (if addr & 0x8000_0000 != 0 then 0xF800_0000 else 0)
  }

  function PhyDevad(addr: bv32): bv32 {
    addr & 0x1f
  }

  function PhyClause(addr: bv32): int {
    if addr & MDIO_PHY_ID_C45 != 0 then 1 else 0
  }

  /** The register number as the 16-bit data of the set phase. */
  function RegData(regnum: int): bv16 {
    (regnum % 0x1_0000) as bv16
  }

  /** scd_mii_bus_do: the set phase with the register number, then the operation with the value. */
  function MiiBusDoOp(s: MdioState, speed: int, polls: nat, busId: int, addr: bv32, op: MdioOp,
                      regnum: int, val: bv16): (int, MdioState)
  {
    var (e1, s1) := BusRequestOp(s, speed, polls, busId, Set, PhyClause(addr), PhyPrtad(addr), PhyDevad(addr),
                                 RegData(regnum));
    if e1 != 0 then (e1, s1)
    else BusRequestOp(s1, speed, polls, busId, op, PhyClause(addr), PhyPrtad(addr), PhyDevad(addr), val)
  }

  /**
   * An access is two phases on the same port and device: a set phase with
   * the register number and then the operation with the value. When the
   * set phase fails its error is returned and the second phase never
   * runs; otherwise the access returns what the second phase returns.
   */
  lemma MiiBusDoSpec(s: MdioState, speed: int, polls: nat, busId: int, addr: bv32, op: MdioOp,
                     regnum: int, val: bv16)
    ensures var (r, s') := MiiBusDoOp(s, speed, polls, busId, addr, op, regnum, val);
      var (e1, s1) := BusRequestOp(s, speed, polls, busId, Set, PhyClause(addr), PhyPrtad(addr), PhyDevad(addr),
                                   RegData(regnum));
      && s.trace + PhaseWrites(s, speed, busId, Set, PhyClause(addr), PhyPrtad(addr), PhyDevad(addr),
                               RegData(regnum)) <= s'.trace
      && (e1 != 0 ==> r == e1 && s' == s1 && s'.reqId == s.reqId + 1)
      && (e1 == 0 ==> s'.reqId == s.reqId + 2
                      && s1.trace + PhaseWrites(s1, speed, busId, op, PhyClause(addr), PhyPrtad(addr),
                                                PhyDevad(addr), val) <= s'.trace
                      && r == BusRequestOp(s1, speed, polls, busId, op, PhyClause(addr), PhyPrtad(addr),
                                           PhyDevad(addr), val).0)
  {
    var (e1, s1) := BusRequestOp(s, speed, polls, busId, Set, PhyClause(addr), PhyPrtad(addr), PhyDevad(addr),
                                 RegData(regnum));
    BusRequestSpec(s, speed, polls, busId, Set, PhyClause(addr), PhyPrtad(addr), PhyDevad(addr), RegData(regnum));
    BusRequestSpec(s1, speed, polls, busId, op, PhyClause(addr), PhyPrtad(addr), PhyDevad(addr), val);
  }

  /** scd_mdio_mii_id: the phy id of a port and device, flagged for clause 45 when the mode supports it. */
  function MiiId(prtad: bv32, devad: bv32, mode: bv32): bv32 {
    var id := (prtad << 5) | devad;
    if mode & MDIO_SUPPORTS_C45 != 0 then id | MDIO_PHY_ID_C45 else id
  }

  /**
   * Decoding an id built by MiiId gives back the device and the clause;
   * the port comes back with the clause 45 flag shifted into its bit 10,
   * because the decoder does not mask it off. A clause 22 port comes back
   * as it was.
   */
  lemma MiiIdDecode(prtad: bv32, devad: bv32, mode: bv32)
    requires prtad < 0x400 && devad < 32
    ensures var id := MiiId(prtad, devad, mode);
      && PhyDevad(id) == devad
      && PhyClause(id) == (if mode & MDIO_SUPPORTS_C45 != 0 then 1 else 0)
      && PhyPrtad(id) == (if mode & MDIO_SUPPORTS_C45 != 0 then prtad | 0x400 else prtad)
  {
  }

  // ---------------------------------------------------------------------
  // The master

  class MdioMaster {
    /** The bus speed, written into every control/status word. */
    const speed: int
    /** The back-off delays of one wait; one status poll per delay. */
    const waits: seq<nat>
    var reqId: bv8
    var trace: seq<MdioWrite>
    var csQueue: seq<MdioCs>
    var respQueue: seq<MdioResp>

    function State(): MdioState
      reads this
    {
      MdioState(trace, csQueue, respQueue, reqId)
    }

    constructor (speed: int, waits: seq<nat>, cs: seq<MdioCs>, resp: seq<MdioResp>)
      ensures this.speed == speed && this.waits == waits
      ensures State() == MdioState([], cs, resp, 0)
    {
      this.speed, this.waits := speed, waits;
      reqId, trace, csQueue, respQueue := 0, [], cs, resp;
    }

    method ReadCs() returns (c: MdioCs)
      modifies this
      ensures c == Head(old(csQueue), IdleMdioCs) && State() == old(State()).(cs := Tail(old(csQueue)))
    {
      c := Head(csQueue, IdleMdioCs);
      csQueue := Tail(csQueue);
    }

    method WriteWord(w: MdioWrite)
      modifies this
      ensures State() == Push(old(State()), w)
    {
      trace := trace + [w];
    }

    method ReadResp() returns (r: MdioResp)
      modifies this
      ensures r == Head(old(respQueue), IdleMdioResp) && State() == old(State()).(resp := Tail(old(respQueue)))
    {
      r := Head(respQueue, IdleMdioResp);
      respQueue := Tail(respQueue);
    }

    /** mdio_master_get_req_id: the current id, post-incremented (an 8-bit counter). */
    method GetReqId() returns (id: bv8)
      modifies this
      ensures id == old(reqId) && State() == old(State()).(reqId := old(reqId) + 1)
    {
      id := reqId;
      reqId := reqId + 1;
    }

    /** mdio_master_reset: the default control word with reset set, then with reset clear. */
    method Reset()
      modifies this
      ensures State() == old(State()).(trace := old(trace) + [CsWord(MdioCs(speed, true, false, 0)),
                                                             CsWord(MdioCs(speed, false, false, 0))])
    {
      var cs := MdioCs(speed, false, false, 0);
      cs := cs.(reset := true);
      WriteWord(CsWord(cs));
      cs := cs.(reset := false);
      WriteWord(CsWord(cs));
    }

    /** mdio_master_reset_interrupt */
    method ResetInterrupt()
      modifies this
      ensures State() == Push(old(State()), CsWord(ClearIrq(speed)))
    {
      var cs := MdioCs(speed, false, false, 0);
      cs := cs.(fe := true);
      WriteWord(CsWord(cs));
    }

    /** mdio_master_wait_response: one status poll per back-off delay until a response is counted. */
    method WaitResponse() returns (err: int)
      modifies this
      ensures var (e, used) := WaitFrom(old(csQueue), 0, |waits|);
        err == e && State() == old(State()).(cs := Drop(old(csQueue), used))
    {
      ghost var s0 := State();
      var k := 0;
      while k < |waits|
        invariant 0 <= k <= |waits|
        invariant State() == s0.(cs := Drop(s0.cs, k))
        invariant WaitFrom(s0.cs, k, |waits|) == WaitFrom(s0.cs, 0, |waits|)
        decreases |waits| - k
      {
        DropTail(s0.cs, k, IdleMdioCs);
        TailDrop(s0.cs, k);
        var cs := ReadCs();
        if cs.resCount == 1 {
          return 0;
        } else if cs.resCount == 0 {
          k := k + 1;
        } else {
          return -EOPNOTSUPP;
        }
      }
      return -EAGAIN;
    }

    /** The writes that issue one request phase. */
    method SubmitRequest(busId: int, op: MdioOp, clause: int, prtad: bv32, devad: bv32, data: bv16)
      modifies this
      ensures State() == Submit(old(State()), speed, busId, op, clause, prtad, devad, data)
    {
      ResetInterrupt();
      var lo := ReqLo(0, 0, Set, 0, 0, 0);
      lo := lo.(bs := busId, t := clause, op := op, dt := devad, pa := prtad, d := data);
      WriteWord(LoWord(lo));
      var id := GetReqId();
      WriteWord(HiWord(ReqHi(id)));
    }

    /** The wait and the response read of one request phase. */
    method CollectResponse(op: MdioOp) returns (r: int)
      modifies this
      ensures (r, State()) == Collect(old(State()), speed, |waits|, op)
    {
      var err := WaitResponse();
      if err != 0 {
        return err;
      }
      ResetInterrupt();
      var resp := ReadResp();
      if resp.ts != 1 || resp.fe {
        return -EIO;
      }
      if op == Read {
        return resp.d as int;
      }
      return 0;
    }

    /** scd_mdio_bus_request on bus `busId` of this master. */
    method BusRequest(busId: int, op: MdioOp, clause: int, prtad: bv32, devad: bv32, data: bv16)
      returns (r: int)
      modifies this
      ensures (r, State()) == BusRequestOp(old(State()), speed, |waits|, busId, op, clause, prtad, devad, data)
    {
      SubmitRequest(busId, op, clause, prtad, devad, data);
      r := CollectResponse(op);
    }

    /** scd_mii_bus_do on bus `busId` of this master. */
    method MiiBusDo(busId: int, addr: bv32, op: MdioOp, regnum: int, val: bv16) returns (err: int)
      modifies this
      ensures (err, State()) == MiiBusDoOp(old(State()), speed, |waits|, busId, addr, op, regnum, val)
    {
      var prtad := PhyPrtad(addr);
      var devad := addr & 0x1f;
      var clause := if addr & MDIO_PHY_ID_C45 != 0 then 1 else 0;
      err := BusRequest(busId, Set, clause, prtad, devad, RegData(regnum));
      if err != 0 {
        return;
      }
      err := BusRequest(busId, op, clause, prtad, devad, val);
    }

    /** scd_mii_bus_read: a read access, with a zero value in its second phase. */
    method MiiRead(busId: int, addr: bv32, regnum: int) returns (r: int)
      modifies this
      ensures (r, State()) == MiiBusDoOp(old(State()), speed, |waits|, busId, addr, Read, regnum, 0)
    {
      r := MiiBusDo(busId, addr, Read, regnum, 0);
    }

    /** scd_mii_bus_write */
    method MiiWrite(busId: int, addr: bv32, regnum: int, val: bv16) returns (r: int)
      modifies this
      ensures (r, State()) == MiiBusDoOp(old(State()), speed, |waits|, busId, addr, Write, regnum, val)
    {
      r := MiiBusDo(busId, addr, Write, regnum, val);
    }

    /**
     * scd_mdio_read: a device's read, addressed by the phy id of its port
     * and device (the generic mdio layer between the two is not modelled).
     */
    method DeviceRead(busId: int, mode: bv32, prtad: bv32, devad: bv32, addr: bv16) returns (r: int)
      modifies this
      ensures (r, State()) == MiiBusDoOp(old(State()), speed, |waits|, busId, MiiId(prtad, devad, mode), Read,
                                         addr as int, 0)
    {
      var id := MiiId(prtad, devad, mode);
      r := MiiRead(busId, id, addr as int);
    }

    /** scd_mdio_write */
    method DeviceWrite(busId: int, mode: bv32, prtad: bv32, devad: bv32, addr: bv16, value: bv16) returns (r: int)
      modifies this
      ensures (r, State()) == MiiBusDoOp(old(State()), speed, |waits|, busId, MiiId(prtad, devad, mode), Write,
                                         addr as int, value)
    {
      var id := MiiId(prtad, devad, mode);
      r := MiiWrite(busId, id, addr as int, value);
    }
  }
}
