/**
 * The per-device registry of SMBus masters, MDIO masters and MDIO devices,
 * and the per-bus tuning lists reached through it. The kernel objects the
 * driver registers (i2c adapters, mii buses, net devices, leds, hwmon
 * devices) are outside the model: what their registration returns comes
 * from an environment supplied by the caller, and the master resets
 * that adding a master performs are recorded in a log of hardware events.
 */
module Registry {
  import opened Errno
  import opened Tuning
  import opened Mdio

  datatype Option<T> = None | Some(value: T)

  /** One SMBus bus: its index on the master, its i2c adapter number, its tuning list. */
  datatype SmbusBus = SmbusBus(id: int, nr: int, params: seq<BusParams>)

  datatype SmbusMaster = SmbusMaster(id: bv32, req: bv32, cs: bv32, resp: bv32, maxRetries: int,
                                     brSupported: bool, buses: seq<SmbusBus>)

  datatype MdioDevice = MdioDevice(id: bv16, prtad: bv16, devad: bv16, clause: bv16, phyId: bv32)
  datatype MdioBus = MdioBus(id: int, devices: seq<MdioDevice>)
  datatype MdioMasterRec = MdioMasterRec(id: bv16, addr: bv32, speed: bv16, buses: seq<MdioBus>)

  /** Objects whose whole setup is registration with other kernel subsystems. */
  datatype XcvrType = Sfp | Qsfp | Osfp
  datatype Peripheral =
    | FanGroup(addr: bv32, platform: bv32, fanCount: bv32)
    | Gpio(addr: bv32, name: string, bitpos: bv32, readOnly: bv32, activeLow: bv32)
    | Led(addr: bv32, name: string)
    | Xcvr(kind: XcvrType, addr: bv32, id: bv32)
    | ResetLine(addr: bv32, name: string, bitpos: bv32)

  /** Register writes the registry makes: smbus_master_reset and mdio_master_reset of a master at a base address. */
  datatype HwEvent = SmbusMasterReset(base: bv32) | MdioMasterReset(base: bv32)

  /**
   * What the rest of the system answers. `adapter(master, bus)` is the
   * number the i2c core gives the bus's adapter, or a negative error;
   * `miiAlloc(master, bus)` is whether both allocations of an MDIO bus
   * add (its zero-filled struct and its mii bus) succeed; `miiBus` and
   * `mdioDevice` are what registering an mii bus and an MDIO net device
   * return; `peripheral` is what the add function of a
   * peripheral returns; `smbusVersion` is the version field of the
   * control/status register of the master at a base address once it has
   * been reset; `oom` makes every allocation fail.
   */
  datatype Env = Env(oom: bool, smbusVersion: bv32 -> int, adapter: (bv32, int) -> int,
                     miiAlloc: (bv16, int) -> bool, miiBus: (bv16, int) -> int, mdioDevice: (bv16, int, bv16) -> int,
                     peripheral: Peripheral -> int)

  datatype RegState = RegState(smbus: seq<SmbusMaster>, mdio: seq<MdioMasterRec>, log: seq<HwEvent>,
                               peripherals: seq<Peripheral>)

  const SMBUS_REQUEST_OFFSET: bv32 := 0x10
  const SMBUS_CONTROL_STATUS_OFFSET: bv32 := 0x20
  const SMBUS_RESPONSE_OFFSET: bv32 := 0x30

  // ---------------------------------------------------------------------
  // scd_smbus_master_add

  predicate SmbusIdTaken(ms: seq<SmbusMaster>, id: bv32) {
    exists i :: 0 <= i < |ms| && ms[i].id == id
  }

  /** Masters have pairwise distinct ids. */
  predicate SmbusIdsUnique(ms: seq<SmbusMaster>) {
    forall i, j :: 0 <= i < j < |ms| ==> ms[i].id != ms[j].id
  }

  /** The first bus from `i` on whose adapter fails to register, or `n` when none does. */
  function FirstAdapterFailure(env: Env, id: bv32, i: nat, n: nat): (k: nat)
    ensures i <= n ==> i <= k <= n
    ensures forall b :: i <= b < k && b < n ==> env.adapter(id, b) >= 0
    ensures k < n ==> env.adapter(id, k) < 0
    decreases n - i
  {
    if i >= n then i
    else if env.adapter(id, i) < 0 then i
    else FirstAdapterFailure(env, id, i + 1, n)
  }

  /** Buses 0 .. n-1 of a fresh master, with their adapter numbers and empty tuning lists. */
  function SmbusBuses(env: Env, id: bv32, n: nat): (bs: seq<SmbusBus>)
    ensures |bs| == n
    ensures forall b :: 0 <= b < n ==> bs[b] == SmbusBus(b, env.adapter(id, b), [])
  {
    if n == 0 then [] else SmbusBuses(env, id, n - 1) + [SmbusBus(n - 1, env.adapter(id, n - 1), [])]
  }

  function NewSmbusMaster(env: Env, maxRetries: int, addr: bv32, id: bv32, busCount: nat): SmbusMaster {
    SmbusMaster(id, addr + SMBUS_REQUEST_OFFSET, addr + SMBUS_CONTROL_STATUS_OFFSET, addr + SMBUS_RESPONSE_OFFSET,
                maxRetries, env.smbusVersion(addr) >= 2, SmbusBuses(env, id, busCount))
  }

  /**
   * Refuse a duplicate id, allocate, add the buses one by one, reset the
   * master, read its version and append it. A failing bus undoes the
   * master, which resets it too.
   */
  function SmbusMasterAddOp(st: RegState, env: Env, maxRetries: int, addr: bv32, id: bv32, busCount: nat)
    : (int, RegState)
  {
    if SmbusIdTaken(st.smbus, id) then (-EEXIST, st)
    else if env.oom then (-ENOMEM, st)
    else
      var k := FirstAdapterFailure(env, id, 0, busCount);
      var st1 := st.(log := st.log + [SmbusMasterReset(addr)]);
      if k < busCount then (env.adapter(id, k), st1)
      else (0, st1.(smbus := st.smbus + [NewSmbusMaster(env, maxRetries, addr, id, busCount)]))
  }

  /**
   * -EEXIST for an id already in use, with nothing changed. Success comes
   * exactly when the id is free, the allocation succeeds and every bus is
   * registered; every failure is negative and leaves the list of masters
   * as it was. Once allocated, the master is reset whatever follows.
   */
  lemma SmbusMasterAddCodes(st: RegState, env: Env, maxRetries: int, addr: bv32, id: bv32, busCount: nat)
    ensures var (err, st') := SmbusMasterAddOp(st, env, maxRetries, addr, id, busCount);
      && (SmbusIdTaken(st.smbus, id) ==> err == -EEXIST && st' == st)
      && (err != 0 ==> err < 0 && st'.smbus == st.smbus)
      && (err == 0 <==> !SmbusIdTaken(st.smbus, id) && !env.oom
                        && forall b :: 0 <= b < busCount ==> env.adapter(id, b) >= 0)
      && (!SmbusIdTaken(st.smbus, id) && !env.oom ==> st'.log == st.log + [SmbusMasterReset(addr)])
      && st'.mdio == st.mdio && st'.peripherals == st.peripherals
  {
    var k := FirstAdapterFailure(env, id, 0, busCount);
    if !SmbusIdTaken(st.smbus, id) && !env.oom && k < busCount {
      assert env.adapter(id, k) < 0;
    }
  }

  /** A master that is added is appended after the others. */
  lemma SmbusMasterAddAppends(st: RegState, env: Env, maxRetries: int, addr: bv32, id: bv32, busCount: nat)
    requires SmbusMasterAddOp(st, env, maxRetries, addr, id, busCount).0 == 0
    ensures SmbusMasterAddOp(st, env, maxRetries, addr, id, busCount).1.smbus
         == st.smbus + [NewSmbusMaster(env, maxRetries, addr, id, busCount)]
  {
  }

  /**
   * The master record: its three registers at base + 0x10, 0x20 and 0x30,
   * the configured retry count, buses 0 .. bus_count-1 with their adapter
   * numbers and empty tuning lists, and block-read support exactly when
   * the version read after its reset is at least 2.
   */
  lemma NewSmbusMasterSpec(env: Env, maxRetries: int, addr: bv32, id: bv32, busCount: nat)
    ensures var m := NewSmbusMaster(env, maxRetries, addr, id, busCount);
      && m.id == id && m.maxRetries == maxRetries
      && m.req == addr + SMBUS_REQUEST_OFFSET && m.cs == addr + SMBUS_CONTROL_STATUS_OFFSET
      && m.resp == addr + SMBUS_RESPONSE_OFFSET
      && (m.brSupported <==> env.smbusVersion(addr) >= 2)
      && |m.buses| == busCount
      && (forall b :: 0 <= b < busCount ==> m.buses[b] == SmbusBus(b, env.adapter(id, b), []))
  {
  }

  /** Adding a master keeps the ids distinct. */
  lemma SmbusMasterAddUnique(st: RegState, env: Env, maxRetries: int, addr: bv32, id: bv32, busCount: nat)
    requires SmbusIdsUnique(st.smbus)
    ensures SmbusIdsUnique(SmbusMasterAddOp(st, env, maxRetries, addr, id, busCount).1.smbus)
  {
    var (err, st') := SmbusMasterAddOp(st, env, maxRetries, addr, id, busCount);
    if err == 0 {
      forall i, j | 0 <= i < j < |st'.smbus| ensures st'.smbus[i].id != st'.smbus[j].id {
        if j == |st.smbus| {
          assert st'.smbus[i] == st.smbus[i];
        } else {
          assert st'.smbus[i] == st.smbus[i] && st'.smbus[j] == st.smbus[j];
        }
      }
    }
  }

  // ---------------------------------------------------------------------
  // scd_mdio_master_add

  predicate MdioIdTaken(ms: seq<MdioMasterRec>, id: bv16) {
    exists i :: 0 <= i < |ms| && ms[i].id == id
  }

  predicate MdioIdsUnique(ms: seq<MdioMasterRec>) {
    forall i, j :: 0 <= i < j < |ms| ==> ms[i].id != ms[j].id
  }

  /**
   * What scd_mdio_bus_add returns for bus `b` of master `id`: -ENOMEM when
   * one of its allocations fails, otherwise what registering its mii bus
   * returns.
   */
  function MdioBusAdd(env: Env, id: bv16, b: int): int {
    if !env.miiAlloc(id, b) then -ENOMEM else env.miiBus(id, b)
  }

  function FirstMiiFailure(env: Env, id: bv16, i: nat, n: nat): (k: nat)
    ensures i <= n ==> i <= k <= n
    ensures forall b :: i <= b < k && b < n ==> MdioBusAdd(env, id, b) == 0
    ensures k < n ==> MdioBusAdd(env, id, k) != 0
    decreases n - i
  {
    if i >= n then i
    else if MdioBusAdd(env, id, i) != 0 then i
    else FirstMiiFailure(env, id, i + 1, n)
  }

  function MdioBuses(n: nat): (bs: seq<MdioBus>)
    ensures |bs| == n
    ensures forall b :: 0 <= b < n ==> bs[b] == MdioBus(b, [])
  {
    if n == 0 then [] else MdioBuses(n - 1) + [MdioBus(n - 1, [])]
  }

  function MdioMasterAddOp(st: RegState, env: Env, addr: bv32, id: bv16, busCount: bv16, speed: bv16)
    : (int, RegState)
  {
    if MdioIdTaken(st.mdio, id) then (-EEXIST, st)
    else if env.oom then (-ENOMEM, st)
    else
      var k := FirstMiiFailure(env, id, 0, busCount as nat);
      var st1 := st.(log := st.log + [MdioMasterReset(addr)]);
      if k < busCount as nat then (MdioBusAdd(env, id, k), st1)
      else (0, st1.(mdio := st.mdio + [MdioMasterRec(id, addr, speed, MdioBuses(busCount as nat))]))
  }

  /**
   * -EEXIST exactly for an id in use; an added master has buses
   * 0 .. bus_count-1, no devices, the given speed, and was reset. A
   * failing bus undoes the master (resetting it) and returns the bus's
   * error, which is -ENOMEM for a bus whose allocation failed.
   */
  lemma MdioMasterAddSpec(st: RegState, env: Env, addr: bv32, id: bv16, busCount: bv16, speed: bv16)
    ensures var (err, st') := MdioMasterAddOp(st, env, addr, id, busCount, speed);
      && (err == -EEXIST ==> MdioIdTaken(st.mdio, id) || env.miiBus(id, FirstMiiFailure(env, id, 0, busCount as nat)) == -EEXIST)
      && (!MdioIdTaken(st.mdio, id) && env.oom ==> err == -ENOMEM && st' == st)
      && (MdioIdTaken(st.mdio, id) ==> err == -EEXIST && st' == st)
      && (err != 0 ==> st'.mdio == st.mdio)
      && (err == 0 <==> !MdioIdTaken(st.mdio, id) && !env.oom
                        && forall b :: 0 <= b < busCount as nat ==> env.miiAlloc(id, b) && env.miiBus(id, b) == 0)
      && (err == 0 ==> st'.mdio == st.mdio + [MdioMasterRec(id, addr, speed, MdioBuses(busCount as nat))]
                       && st'.log == st.log + [MdioMasterReset(addr)])
      && st'.smbus == st.smbus && st'.peripherals == st.peripherals
  {
    var n := busCount as nat;
    if !MdioIdTaken(st.mdio, id) && !env.oom {
      var k := FirstMiiFailure(env, id, 0, n);
      if k < n {
        assert MdioBusAdd(env, id, k) != 0;
        assert MdioMasterAddOp(st, env, addr, id, busCount, speed)
            == (MdioBusAdd(env, id, k), st.(log := st.log + [MdioMasterReset(addr)]));
      } else {
        forall b | 0 <= b < n ensures env.miiAlloc(id, b) && env.miiBus(id, b) == 0 {
          assert MdioBusAdd(env, id, b) == 0;
        }
      }
    }
  }

  lemma MdioMasterAddUnique(st: RegState, env: Env, addr: bv32, id: bv16, busCount: bv16, speed: bv16)
    requires MdioIdsUnique(st.mdio)
    ensures MdioIdsUnique(MdioMasterAddOp(st, env, addr, id, busCount, speed).1.mdio)
  {
    var (err, st') := MdioMasterAddOp(st, env, addr, id, busCount, speed);
    if err == 0 {
      forall i, j | 0 <= i < j < |st'.mdio| ensures st'.mdio[i].id != st'.mdio[j].id {
        if j == |st.mdio| {
          assert st'.mdio[i] == st.mdio[i];
        } else {
          assert st'.mdio[i] == st.mdio[i] && st'.mdio[j] == st.mdio[j];
        }
      }
    }
  }

  // ---------------------------------------------------------------------
  // The failure paths of scd_smbus_master_add and scd_mdio_master_add as written

  /**
   * The list link of a master: kzalloc leaves both pointers NULL and only
   * list_add_tail, on the success path, links the master into the
   * context's list.
   */
  datatype ListLink = Unlinked | Linked

  /** Whether a kernel primitive dereferences a NULL pointer. */
  datatype Deref = Safe | NullDeref

  /** list_del writes through the neighbours of its entry, which are NULL on an entry never linked. */
  function ListDel(l: ListLink): Deref {
    if l == Unlinked then NullDeref else Safe
  }

  /** mdiobus_free reads the state of the bus it is given, with no NULL check. */
  function MdiobusFree(bus: Option<int>): Deref {
    if bus == None then NullDeref else Safe
  }

  /**
   * scd_smbus_master_add as written, at its fail_bus label: None when the
   * label is not reached, otherwise what the list_del that ends
   * scd_smbus_master_remove does to the master, which was never linked.
   */
  function SmbusFailBusAsWritten(st: RegState, env: Env, id: bv32, busCount: nat): Option<Deref> {
    if SmbusIdTaken(st.smbus, id) || env.oom then None
    else if FirstAdapterFailure(env, id, 0, busCount) < busCount then Some(ListDel(Unlinked))
    else None
  }

  /** As written, every failing bus of an SMBus master ends in a NULL dereference. */
  lemma SmbusFailBusDerefsNull(st: RegState, env: Env, id: bv32, busCount: nat)
    ensures SmbusFailBusAsWritten(st, env, id, busCount) == Some(NullDeref)
        <==> !SmbusIdTaken(st.smbus, id) && !env.oom
             && exists b :: 0 <= b < busCount && env.adapter(id, b) < 0
  {
    var k := FirstAdapterFailure(env, id, 0, busCount);
    if !SmbusIdTaken(st.smbus, id) && !env.oom && k < busCount {
      assert env.adapter(id, k) < 0;
    }
  }

  /**
   * scd_mdio_master_add as written, at its fail_bus label: None when the
   * label is not reached, otherwise the same list_del on a master never
   * linked. Only a bus add that fails in one of its allocations returns
   * to the label; one whose registration fails has already crashed in its
   * own fail label (MdioBusAddFailAsWritten).
   */
  function MdioFailBusAsWritten(st: RegState, env: Env, id: bv16, busCount: bv16): Option<Deref> {
    if MdioIdTaken(st.mdio, id) || env.oom then None
    else
      var k := FirstMiiFailure(env, id, 0, busCount as nat);
      if k < busCount as nat && !env.miiAlloc(id, k) then Some(ListDel(Unlinked))
      else None
  }

  /**
   * As written, the fail_bus label of an MDIO master add dereferences NULL
   * exactly when the id is free, the master was allocated and the first
   * failing bus failed to allocate; when the first failing bus failed to
   * register instead, the label is not reached and that bus add
   * dereferences NULL itself.
   */
  lemma MdioFailBusDerefsNull(st: RegState, env: Env, id: bv16, busCount: bv16)
    ensures MdioFailBusAsWritten(st, env, id, busCount) == Some(NullDeref)
        <==> !MdioIdTaken(st.mdio, id) && !env.oom
             && exists b :: 0 <= b < busCount as nat && !env.miiAlloc(id, b)
                            && forall c :: 0 <= c < b ==> MdioBusAdd(env, id, c) == 0
    ensures var k := FirstMiiFailure(env, id, 0, busCount as nat);
      !MdioIdTaken(st.mdio, id) && !env.oom && k < busCount as nat && env.miiAlloc(id, k) ==>
        MdioFailBusAsWritten(st, env, id, busCount) == None
        && MdioBusAddFailAsWritten(env.miiAlloc(id, k), env.miiBus(id, k)) == Some((NullDeref, false))
  {
    var n := busCount as nat;
    var k := FirstMiiFailure(env, id, 0, n);
    if !MdioIdTaken(st.mdio, id) && !env.oom {
      if k < n && !env.miiAlloc(id, k) {
        assert forall c :: 0 <= c < k ==> MdioBusAdd(env, id, c) == 0;
      }
      if exists b :: 0 <= b < n && !env.miiAlloc(id, b) && forall c :: 0 <= c < b ==> MdioBusAdd(env, id, c) == 0 {
        var b :| 0 <= b < n && !env.miiAlloc(id, b) && forall c :: 0 <= c < b ==> MdioBusAdd(env, id, c) == 0;
        assert MdioBusAdd(env, id, b) != 0;
        assert k == b;
      }
      if k < n && env.miiAlloc(id, k) {
        MdioBusAddFailDerefsNull(env.miiAlloc(id, k), env.miiBus(id, k));
      }
    }
  }

  /**
   * The fail label of scd_mdio_bus_add as written, reached when
   * mdiobus_register returns an error: it frees the mii_bus field of the
   * bus, which is still the NULL kzalloc left, rather than the mii bus it
   * allocated. None when the label is not reached; otherwise what that
   * mdiobus_free does and whether the allocated mii bus is still owned
   * by anything afterwards.
   */
  function MdioBusAddFailAsWritten(allocOk: bool, registerErr: int): Option<(Deref, bool)> {
    if !allocOk || registerErr == 0 then None
    else
      var miiField: Option<int> := None;
      Some((MdiobusFree(miiField), miiField != None))
  }

  /** As written, a failing mdiobus_register ends in a NULL dereference and leaks the allocated mii bus. */
  lemma MdioBusAddFailDerefsNull(allocOk: bool, registerErr: int)
    ensures MdioBusAddFailAsWritten(allocOk, registerErr) != None
        <==> allocOk && registerErr != 0
    ensures allocOk && registerErr != 0 ==> MdioBusAddFailAsWritten(allocOk, registerErr) == Some((NullDeref, false))
  {
  }

  /**
   * The intended failure path, which SmbusMasterAddOp and MdioMasterAddOp
   * model: the bus's error comes back, the master is reset and freed, and
   * the lists of masters are as they were.
   */
  lemma FailBusIntended(st: RegState, env: Env, maxRetries: int, addr: bv32, id: bv32, busCount: nat,
                        mid: bv16, mBusCount: bv16, speed: bv16)
    ensures SmbusFailBusAsWritten(st, env, id, busCount) != None ==>
      (var k := FirstAdapterFailure(env, id, 0, busCount);
       && SmbusMasterAddOp(st, env, maxRetries, addr, id, busCount)
          == (env.adapter(id, k), st.(log := st.log + [SmbusMasterReset(addr)]))
       && env.adapter(id, k) < 0)
    ensures MdioFailBusAsWritten(st, env, mid, mBusCount) != None ==>
      (var k := FirstMiiFailure(env, mid, 0, mBusCount as nat);
       && MdioMasterAddOp(st, env, addr, mid, mBusCount, speed)
          == (-ENOMEM, st.(log := st.log + [MdioMasterReset(addr)])))
    ensures (var k := FirstMiiFailure(env, mid, 0, mBusCount as nat);
      !MdioIdTaken(st.mdio, mid) && !env.oom && k < mBusCount as nat && env.miiAlloc(mid, k) ==>
        MdioMasterAddOp(st, env, addr, mid, mBusCount, speed)
          == (env.miiBus(mid, k), st.(log := st.log + [MdioMasterReset(addr)]))
        && env.miiBus(mid, k) != 0)
  {
  }

  // ---------------------------------------------------------------------
  // scd_find_mdio_bus and scd_mdio_device_add

  /** The first bus from `j` on with id `busId`. */
  function FindMdioBusIn(buses: seq<MdioBus>, busId: bv16, j: nat): Option<nat>
    decreases |buses| - j
  {
    if j >= |buses| then None
    else if buses[j].id == busId as int then Some(j)
    else FindMdioBusIn(buses, busId, j + 1)
  }

  /** The first bus with id `busId` of a master with id `masterId`, masters in order from `i`. */
  function FindMdioBus(ms: seq<MdioMasterRec>, masterId: bv16, busId: bv16, i: nat): Option<(nat, nat)>
    decreases |ms| - i
  {
    if i >= |ms| then None
    else if ms[i].id != masterId then FindMdioBus(ms, masterId, busId, i + 1)
    else match FindMdioBusIn(ms[i].buses, busId, 0)
      case Some(j) => Some((i, j))
      case None => FindMdioBus(ms, masterId, busId, i + 1)
  }

  predicate HasMdioBus(ms: seq<MdioMasterRec>, masterId: bv16, busId: bv16, i: nat) {
    exists a, b :: i <= a < |ms| && 0 <= b < |ms[a].buses| && ms[a].id == masterId && ms[a].buses[b].id == busId as int
  }

  lemma {:induction false} FindMdioBusInSpec(buses: seq<MdioBus>, busId: bv16, j: nat)
    ensures var r := FindMdioBusIn(buses, busId, j);
      && (r.None? <==> forall b :: j <= b < |buses| ==> buses[b].id != busId as int)
      && (r.Some? ==> j <= r.value < |buses| && buses[r.value].id == busId as int)
    decreases |buses| - j
  {
    if j < |buses| && buses[j].id != busId as int {
      FindMdioBusInSpec(buses, busId, j + 1);
    }
  }

  /** The search finds a bus exactly when one exists, and what it finds has the ids asked for. */
  lemma {:induction false} FindMdioBusSpec(ms: seq<MdioMasterRec>, masterId: bv16, busId: bv16, i: nat)
    ensures var r := FindMdioBus(ms, masterId, busId, i);
      && (r.None? <==> !HasMdioBus(ms, masterId, busId, i))
      && (r.Some? ==> i <= r.value.0 < |ms| && r.value.1 < |ms[r.value.0].buses|
                      && ms[r.value.0].id == masterId && ms[r.value.0].buses[r.value.1].id == busId as int)
    decreases |ms| - i
  {
    if i < |ms| {
      FindMdioBusSpec(ms, masterId, busId, i + 1);
      FindMdioBusInSpec(ms[i].buses, busId, 0);
      HasMdioBusStep(ms, masterId, busId, i);
    }
  }

  /** A bus exists from master `i` on when master `i` has one, or one exists from `i + 1` on. */
  lemma HasMdioBusStep(ms: seq<MdioMasterRec>, masterId: bv16, busId: bv16, i: nat)
    requires i < |ms|
    ensures HasMdioBus(ms, masterId, busId, i) <==>
      (ms[i].id == masterId && exists b :: 0 <= b < |ms[i].buses| && ms[i].buses[b].id == busId as int)
      || HasMdioBus(ms, masterId, busId, i + 1)
  {
    if HasMdioBus(ms, masterId, busId, i) {
      var a, b :| i <= a < |ms| && 0 <= b < |ms[a].buses| && ms[a].id == masterId && ms[a].buses[b].id == busId as int;
      if a > i {
        assert HasMdioBus(ms, masterId, busId, i + 1);
      }
    }
    if ms[i].id == masterId && exists b :: 0 <= b < |ms[i].buses| && ms[i].buses[b].id == busId as int {
      var b :| 0 <= b < |ms[i].buses| && ms[i].buses[b].id == busId as int;
      assert HasMdioBus(ms, masterId, busId, i);
    }
  }

  predicate DeviceIdTaken(devs: seq<MdioDevice>, devId: bv16) {
    exists k :: 0 <= k < |devs| && devs[k].id == devId
  }

  function AddDevice(ms: seq<MdioMasterRec>, a: nat, b: nat, d: MdioDevice): seq<MdioMasterRec>
    requires a < |ms| && b < |ms[a].buses|
  {
    var bus := ms[a].buses[b];
    ms[a := ms[a].(buses := ms[a].buses[b := bus.(devices := bus.devices + [d])])]
  }

  /** The device record __scd_mdio_device_add keeps: its phy id is the one its mdio interface is given. */
  function NewMdioDevice(devId: bv16, prtad: bv16, devad: bv16, clause: bv16): MdioDevice {
    MdioDevice(devId, prtad, devad, clause, MiiId(prtad as bv32, devad as bv32, clause as bv32))
  }

  /**
   * The phy id a device's mdio interface is given addresses the device
   * itself: it decodes to the device's devad and to clause 45 exactly when
   * the device's mode supports it, and a clause 22 id decodes to its port.
   */
  lemma NewMdioDeviceAddresses(devId: bv16, prtad: bv16, devad: bv16, clause: bv16)
    requires prtad < 0x400 && devad < 32
    ensures var d := NewMdioDevice(devId, prtad, devad, clause);
      && d.id == devId && d.prtad == prtad && d.devad == devad && d.clause == clause
      && PhyDevad(d.phyId) == devad as bv32
      && PhyClause(d.phyId) == (if clause as bv32 & MDIO_SUPPORTS_C45 != 0 then 1 else 0)
      && (clause as bv32 & MDIO_SUPPORTS_C45 == 0 ==> PhyPrtad(d.phyId) == prtad as bv32)
  {
    MiiIdDecode(prtad as bv32, devad as bv32, clause as bv32);
  }

  function MdioDeviceAddOp(st: RegState, env: Env, masterId: bv16, busId: bv16, devId: bv16,
                           prtad: bv16, devad: bv16, clause: bv16): (int, RegState)
  {
    match FindMdioBus(st.mdio, masterId, busId, 0)
    case None => (-EEXIST, st)
    case Some((a, b)) =>
      if a >= |st.mdio| || b >= |st.mdio[a].buses| then (-EEXIST, st)
      else if DeviceIdTaken(st.mdio[a].buses[b].devices, devId) then (-EEXIST, st)
      else
        var r := env.mdioDevice(masterId, busId as int, devId);
        if r != 0 then (r, st)
        else (0, st.(mdio := AddDevice(st.mdio, a, b, NewMdioDevice(devId, prtad, devad, clause))))
  }

  /**
   * A device is refused with -EEXIST both when no master with that id has
   * a bus with that id and when the bus already has a device with that
   * id; a refused or failed add changes nothing. An added device is
   * appended on its bus with the phy id built from its port, device and
   * mode.
   */
  lemma MdioDeviceAddSpec(st: RegState, env: Env, masterId: bv16, busId: bv16, devId: bv16,
                          prtad: bv16, devad: bv16, clause: bv16)
    ensures var (err, st') := MdioDeviceAddOp(st, env, masterId, busId, devId, prtad, devad, clause);
      && (!HasMdioBus(st.mdio, masterId, busId, 0) ==> err == -EEXIST)
      && (err != 0 ==> st' == st)
      && (err == 0 ==> exists a, b :: 0 <= a < |st.mdio| && 0 <= b < |st.mdio[a].buses|
                         && st.mdio[a].id == masterId && st.mdio[a].buses[b].id == busId as int
                         && !DeviceIdTaken(st.mdio[a].buses[b].devices, devId)
                         && st'.mdio == AddDevice(st.mdio, a, b, NewMdioDevice(devId, prtad, devad, clause)))
      && st'.smbus == st.smbus && st'.log == st.log
  {
    FindMdioBusSpec(st.mdio, masterId, busId, 0);
  }

  /** The bus found already holding the id refuses the device. */
  lemma MdioDeviceDuplicate(st: RegState, env: Env, masterId: bv16, busId: bv16, devId: bv16,
                            prtad: bv16, devad: bv16, clause: bv16)
    requires FindMdioBus(st.mdio, masterId, busId, 0).Some?
    requires var (a, b) := FindMdioBus(st.mdio, masterId, busId, 0).value;
      a < |st.mdio| && b < |st.mdio[a].buses| && DeviceIdTaken(st.mdio[a].buses[b].devices, devId)
    ensures MdioDeviceAddOp(st, env, masterId, busId, devId, prtad, devad, clause) == (-EEXIST, st)
  {
  }

  // ---------------------------------------------------------------------
  // scd_find_smbus and scd_set_smbus_params

  function FindSmbusIn(buses: seq<SmbusBus>, nr: int, j: nat): Option<nat>
    decreases |buses| - j
  {
    if j >= |buses| then None
    else if buses[j].nr == nr then Some(j)
    else FindSmbusIn(buses, nr, j + 1)
  }

  /** The first bus, masters in order from `i`, whose adapter has number `nr`. */
  function FindSmbus(ms: seq<SmbusMaster>, nr: int, i: nat): Option<(nat, nat)>
    decreases |ms| - i
  {
    if i >= |ms| then None
    else match FindSmbusIn(ms[i].buses, nr, 0)
      case Some(j) => Some((i, j))
      case None => FindSmbus(ms, nr, i + 1)
  }

  predicate HasSmbus(ms: seq<SmbusMaster>, nr: int, i: nat) {
    exists a, b :: i <= a < |ms| && 0 <= b < |ms[a].buses| && ms[a].buses[b].nr == nr
  }

  lemma {:induction false} FindSmbusInSpec(buses: seq<SmbusBus>, nr: int, j: nat)
    ensures var r := FindSmbusIn(buses, nr, j);
      && (r.None? <==> forall b :: j <= b < |buses| ==> buses[b].nr != nr)
      && (r.Some? ==> j <= r.value < |buses| && buses[r.value].nr == nr)
    decreases |buses| - j
  {
    if j < |buses| && buses[j].nr != nr {
      FindSmbusInSpec(buses, nr, j + 1);
    }
  }

  lemma {:induction false} FindSmbusSpec(ms: seq<SmbusMaster>, nr: int, i: nat)
    ensures var r := FindSmbus(ms, nr, i);
      && (r.None? <==> !HasSmbus(ms, nr, i))
      && (r.Some? ==> i <= r.value.0 < |ms| && r.value.1 < |ms[r.value.0].buses|
                      && ms[r.value.0].buses[r.value.1].nr == nr)
    decreases |ms| - i
  {
    if i < |ms| {
      FindSmbusSpec(ms, nr, i + 1);
      FindSmbusInSpec(ms[i].buses, nr, 0);
    }
  }

  function SetBusParams(ms: seq<SmbusMaster>, a: nat, b: nat, table: seq<BusParams>): seq<SmbusMaster>
    requires a < |ms| && b < |ms[a].buses|
  {
    ms[a := ms[a].(buses := ms[a].buses[b := ms[a].buses[b].(params := table)])]
  }

  /**
   * Find the bus by adapter number (-EINVAL when there is none), then
   * update the entry for the address in place, or allocate and append a
   * new one.
   */
  function SetSmbusParamsOp(st: RegState, env: Env, bus: bv16, p: BusParams): (int, RegState)
  {
    match FindSmbus(st.smbus, bus as int, 0)
    case None => (-EINVAL, st)
    case Some((a, b)) =>
      if a >= |st.smbus| || b >= |st.smbus[a].buses| then (-EINVAL, st)
      else
        var table := st.smbus[a].buses[b].params;
        if !HasAddr(table, p.addr) && env.oom then (-ENOMEM, st)
        else (0, st.(smbus := SetBusParams(st.smbus, a, b, Upsert(table, p))))
  }

  /**
   * -EINVAL exactly when no bus has that adapter number; -ENOMEM only when
   * a new entry had to be allocated; on success the bus's table looks the
   * address up to the new parameters, every other address as before, and
   * no other bus changes.
   */
  lemma SetSmbusParamsSpec(st: RegState, env: Env, bus: bv16, p: BusParams)
    ensures var (err, st') := SetSmbusParamsOp(st, env, bus, p);
      && (err == -EINVAL <==> !HasSmbus(st.smbus, bus as int, 0))
      && (err == 0 || err == -EINVAL || err == -ENOMEM)
      && (err != 0 ==> st' == st)
      && st'.mdio == st.mdio && st'.log == st.log
    ensures SetSmbusParamsOp(st, env, bus, p).0 == 0 ==> SetAt(st, SetSmbusParamsOp(st, env, bus, p).1, bus, p)
  {
    SetSmbusParamsCodes(st, env, bus, p);
    SetSmbusParamsSuccess(st, env, bus, p);
  }

  /**
   * The bus found for the adapter number holds the new entry in st', every
   * other address as in st, and no other bus changed.
   */
  ghost predicate SetAt(st: RegState, st': RegState, bus: bv16, p: BusParams) {
    && FindSmbus(st.smbus, bus as int, 0).Some?
    && var (a, b) := FindSmbus(st.smbus, bus as int, 0).value;
       && a < |st.smbus| && b < |st.smbus[a].buses| && st.smbus[a].buses[b].nr == bus as int
       && st'.smbus == SetBusParams(st.smbus, a, b, Upsert(st.smbus[a].buses[b].params, p))
       && Lookup(st'.smbus[a].buses[b].params, p.addr) == p
       && (forall x :: x != p.addr ==>
             Lookup(st'.smbus[a].buses[b].params, x) == Lookup(st.smbus[a].buses[b].params, x))
  }

  /** The error codes of SetSmbusParamsOp, and that a failure changes nothing. */
  lemma SetSmbusParamsCodes(st: RegState, env: Env, bus: bv16, p: BusParams)
    ensures var (err, st') := SetSmbusParamsOp(st, env, bus, p);
      && (err == -EINVAL <==> !HasSmbus(st.smbus, bus as int, 0))
      && (err == 0 || err == -EINVAL || err == -ENOMEM)
      && (err != 0 ==> st' == st)
      && st'.mdio == st.mdio && st'.log == st.log
  {
    FindSmbusSpec(st.smbus, bus as int, 0);
  }

  /** The success case of SetSmbusParamsOp. */
  lemma SetSmbusParamsSuccess(st: RegState, env: Env, bus: bv16, p: BusParams)
    ensures SetSmbusParamsOp(st, env, bus, p).0 == 0 ==> SetAt(st, SetSmbusParamsOp(st, env, bus, p).1, bus, p)
  {
    var f := FindSmbus(st.smbus, bus as int, 0);
    FindSmbusSpec(st.smbus, bus as int, 0);
    if f.Some? {
      var a, b := f.value.0, f.value.1;
      if !(!HasAddr(st.smbus[a].buses[b].params, p.addr) && env.oom) {
        SetSmbusParamsFound(st, env, bus, p, a, b);
      }
    }
  }

  /** The success case: the found bus's table gets the entry, looked up as the lemma above states. */
  lemma SetSmbusParamsFound(st: RegState, env: Env, bus: bv16, p: BusParams, a: nat, b: nat)
    requires a < |st.smbus| && b < |st.smbus[a].buses| && st.smbus[a].buses[b].nr == bus as int
    requires FindSmbus(st.smbus, bus as int, 0) == Some((a, b))
    requires !(!HasAddr(st.smbus[a].buses[b].params, p.addr) && env.oom)
    ensures SetSmbusParamsOp(st, env, bus, p).0 == 0
    ensures SetAt(st, SetSmbusParamsOp(st, env, bus, p).1, bus, p)
  {
    var table := st.smbus[a].buses[b].params;
    var st' := SetSmbusParamsOp(st, env, bus, p).1;
    assert st'.smbus[a].buses[b].params == Upsert(table, p);
    LookupAfterUpsert(table, p);
    forall x | x != p.addr
      ensures Lookup(Upsert(table, p), x) == Lookup(table, x)
    {
      LookupOtherUnchanged(table, p, x);
    }
  }

  // ---------------------------------------------------------------------
  // The context

  /** struct scd_context as far as the registry goes. */
  class Context {
    /** The size of the register window: no object may be placed beyond it. */
    const resSize: int
    /** The smbus_master_max_retries module parameter. */
    const maxRetries: int
    var initialized: bool
    var smbus: seq<SmbusMaster>
    var mdio: seq<MdioMasterRec>
    var log: seq<HwEvent>
    var peripherals: seq<Peripheral>

    function State(): RegState
      reads this
    {
      RegState(smbus, mdio, log, peripherals)
    }

    constructor (resSize: int, maxRetries: int)
      ensures this.resSize == resSize && this.maxRetries == maxRetries && !initialized
      ensures State() == RegState([], [], [], [])
    {
      this.resSize, this.maxRetries := resSize, maxRetries;
      initialized := false;
      smbus, mdio, log, peripherals := [], [], [], [];
    }

    /** The duplicate-id scan of scd_smbus_master_add. */
    method SmbusIdInUse(id: bv32) returns (taken: bool)
      ensures taken == SmbusIdTaken(smbus, id)
    {
      var i := 0;
      while i < |smbus|
        invariant 0 <= i <= |smbus|
        invariant forall k :: 0 <= k < i ==> smbus[k].id != id
        decreases |smbus| - i
      {
        if smbus[i].id == id {
          return true;
        }
        i := i + 1;
      }
      return false;
    }

    /** scd_smbus_master_add */
    method SmbusMasterAdd(env: Env, addr: bv32, id: bv32, busCount: bv32) returns (err: int)
      modifies this
      ensures (err, State()) == SmbusMasterAddOp(old(State()), env, maxRetries, addr, id, busCount as nat)
      ensures initialized == old(initialized)
    {
      ghost var st := State();
      var taken := SmbusIdInUse(id);
      if taken {
        return -EEXIST;
      }
      if env.oom {
        return -ENOMEM;
      }
      var n := busCount as nat;
      var buses, k := AddSmbusBuses(env, id, n);
      ghost var st1 := st.(log := st.log + [SmbusMasterReset(addr)]);
      if k < n {
        log := log + [SmbusMasterReset(addr)];
        assert State() == st1;
        return env.adapter(id, k);
      }
      log := log + [SmbusMasterReset(addr)];
      var ver := env.smbusVersion(addr);
      var m := SmbusMaster(id, addr + SMBUS_REQUEST_OFFSET, addr + SMBUS_CONTROL_STATUS_OFFSET,
                           addr + SMBUS_RESPONSE_OFFSET, maxRetries, ver >= 2, buses);
      assert m == NewSmbusMaster(env, maxRetries, addr, id, n);
      smbus := smbus + [m];
      assert State() == st1.(smbus := st.smbus + [m]);
      return 0;
    }

    method MdioIdInUse(id: bv16) returns (taken: bool)
      ensures taken == MdioIdTaken(mdio, id)
    {
      var i := 0;
      while i < |mdio|
        invariant 0 <= i <= |mdio|
        invariant forall k :: 0 <= k < i ==> mdio[k].id != id
        decreases |mdio| - i
      {
        if mdio[i].id == id {
          return true;
        }
        i := i + 1;
      }
      return false;
    }

    /** scd_mdio_master_add */
    method MdioMasterAdd(env: Env, addr: bv32, id: bv16, busCount: bv16, speed: bv16) returns (err: int)
      modifies this
      ensures (err, State()) == MdioMasterAddOp(old(State()), env, addr, id, busCount, speed)
      ensures initialized == old(initialized)
    {
      var taken := MdioIdInUse(id);
      if taken {
        return -EEXIST;
      }
      if env.oom {
        return -ENOMEM;
      }
      var buses, k := AddMdioBuses(env, id, busCount as nat);
      if k < busCount as nat {
        log := log + [MdioMasterReset(addr)];
        return MdioBusAdd(env, id, k);
      }
      log := log + [MdioMasterReset(addr)];
      mdio := mdio + [MdioMasterRec(id, addr, speed, buses)];
      return 0;
    }

    /** scd_find_mdio_bus */
    method FindMdioBusOf(masterId: bv16, busId: bv16) returns (r: Option<(nat, nat)>)
      ensures r == FindMdioBus(mdio, masterId, busId, 0)
    {
      var i := 0;
      while i < |mdio|
        invariant 0 <= i <= |mdio|
        invariant FindMdioBus(mdio, masterId, busId, i) == FindMdioBus(mdio, masterId, busId, 0)
        decreases |mdio| - i
      {
        if mdio[i].id == masterId {
          var buses := mdio[i].buses;
          var j := 0;
          while j < |buses|
            invariant 0 <= j <= |buses|
            invariant FindMdioBusIn(buses, busId, j) == FindMdioBusIn(buses, busId, 0)
            decreases |buses| - j
          {
            if buses[j].id == busId as int {
              return Some((i, j));
            }
            j := j + 1;
          }
        }
        i := i + 1;
      }
      return None;
    }

    /** scd_mdio_device_add */
    method MdioDeviceAdd(env: Env, masterId: bv16, busId: bv16, devId: bv16, prtad: bv16, devad: bv16,
                         clause: bv16) returns (err: int)
      modifies this
      ensures (err, State()) == MdioDeviceAddOp(old(State()), env, masterId, busId, devId, prtad, devad, clause)
      ensures initialized == old(initialized)
    {
      var found := FindMdioBusOf(masterId, busId);
      if found.None? {
        return -EEXIST;
      }
      var (a, b) := found.value;
      FindMdioBusSpec(mdio, masterId, busId, 0);
      var devs := mdio[a].buses[b].devices;
      var k := 0;
      while k < |devs|
        invariant 0 <= k <= |devs|
        invariant forall q :: 0 <= q < k ==> devs[q].id != devId
        decreases |devs| - k
      {
        if devs[k].id == devId {
          return -EEXIST;
        }
        k := k + 1;
      }
      err := env.mdioDevice(masterId, busId as int, devId);
      if err != 0 {
        return;
      }
      mdio := AddDevice(mdio, a, b, NewMdioDevice(devId, prtad, devad, clause));
    }

    /** scd_find_smbus */
    method FindSmbusBus(nr: int) returns (r: Option<(nat, nat)>)
      ensures r == FindSmbus(smbus, nr, 0)
    {
      var i := 0;
      while i < |smbus|
        invariant 0 <= i <= |smbus|
        invariant FindSmbus(smbus, nr, i) == FindSmbus(smbus, nr, 0)
        decreases |smbus| - i
      {
        var buses := smbus[i].buses;
        var j := 0;
        while j < |buses|
          invariant 0 <= j <= |buses|
          invariant FindSmbusIn(buses, nr, j) == FindSmbusIn(buses, nr, 0)
          decreases |buses| - j
        {
          if buses[j].nr == nr {
            return Some((i, j));
          }
          j := j + 1;
        }
        i := i + 1;
      }
      return None;
    }

    /** scd_set_smbus_params */
    method SetSmbusParams(env: Env, bus: bv16, p: BusParams) returns (err: int)
      modifies this
      ensures (err, State()) == SetSmbusParamsOp(old(State()), env, bus, p)
      ensures initialized == old(initialized)
    {
      var found := FindSmbusBus(bus as int);
      if found.None? {
        return -EINVAL;
      }
      var (a, b) := found.value;
      FindSmbusSpec(smbus, bus as int, 0);
      var table := smbus[a].buses[b].params;
      var has := HasAddrIn(table, p.addr);
      if !has && env.oom {
        return -ENOMEM;
      }
      var updated := SetParamsIn(table, p);
      smbus := SetBusParams(smbus, a, b, updated);
      return 0;
    }

    /** The registration of a peripheral: its add function's result, and the object kept on success. */
    method PeripheralAdd(env: Env, obj: Peripheral) returns (err: int)
      modifies this
      ensures err == env.peripheral(obj)
      ensures State() == if err == 0 then old(State()).(peripherals := old(peripherals) + [obj]) else old(State())
      ensures initialized == old(initialized)
    {
      err := env.peripheral(obj);
      if err == 0 {
        peripherals := peripherals + [obj];
      }
    }
  }

  /** The bus loop of scd_smbus_master_add: buses are added in order until one fails. */
  method AddSmbusBuses(env: Env, id: bv32, n: nat) returns (buses: seq<SmbusBus>, k: nat)
    ensures k == FirstAdapterFailure(env, id, 0, n)
    ensures k == n ==> buses == SmbusBuses(env, id, n)
  {
    buses := [];
    k := 0;
    while k < n
      invariant k <= n
      invariant FirstAdapterFailure(env, id, k, n) == FirstAdapterFailure(env, id, 0, n)
      invariant buses == SmbusBuses(env, id, k)
      decreases n - k
    {
      var nr := env.adapter(id, k);
      if nr < 0 {
        return;
      }
      buses := buses + [SmbusBus(k, nr, [])];
      k := k + 1;
    }
  }

  /** The bus loop of scd_mdio_master_add. */
  method AddMdioBuses(env: Env, id: bv16, n: nat) returns (buses: seq<MdioBus>, k: nat)
    ensures k == FirstMiiFailure(env, id, 0, n)
    ensures k == n ==> buses == MdioBuses(n)
  {
    buses := [];
    k := 0;
    while k < n
      invariant k <= n
      invariant FirstMiiFailure(env, id, k, n) == FirstMiiFailure(env, id, 0, n)
      invariant buses == MdioBuses(k)
      decreases n - k
    {
      if MdioBusAdd(env, id, k) != 0 {
        return;
      }
      buses := buses + [MdioBus(k, [])];
      k := k + 1;
    }
  }

  /** Whether the list has an entry for the address: the part of the list walk that decides on allocating. */
  method HasAddrIn(table: seq<BusParams>, addr: bv16) returns (has: bool)
    ensures has == HasAddr(table, addr)
  {
    var i := 0;
    while i < |table|
      invariant 0 <= i <= |table|
      invariant forall k :: 0 <= k < i ==> table[k].addr != addr
      decreases |table| - i
    {
      if table[i].addr == addr {
        return true;
      }
      i := i + 1;
    }
    return false;
  }
}
