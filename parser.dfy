/**
 * The configuration interface: text written to the new_object and
 * smbus_tweaks attributes is split into lines, each line into
 * space-separated tokens, and each line either creates an object or sets
 * the tuning of one device on one bus.
 */
module Parser {
  import opened Errno
  import opened Numbers
  import opened Tuning
  import opened Registry

  const MAX_CONFIG_LINE_SIZE: nat := 100
  const MASTER_DEFAULT_BUS_COUNT: bv32 := 8

  // ---------------------------------------------------------------------
  // Tokens

  /** The index of the first `c` in `s`, or |s|. */
  function IndexOf(s: string, c: char): (i: nat)
    ensures i <= |s| && (i < |s| ==> s[i] == c)
  {
    if s == [] then 0 else if s[0] == c then 0 else 1 + IndexOf(s[1..], c)
  }

  /** No `c` comes before the index found. */
  lemma {:induction false} IndexOfFirst(s: string, c: char)
    ensures forall k :: 0 <= k < IndexOf(s, c) ==> s[k] != c
  {
    if s != [] && s[0] != c {
      IndexOfFirst(s[1..], c);
    }
  }

  /** What strncpy leaves in a zeroed buffer: the text up to the first NUL. */
  function CStr(s: string): (t: string)
    ensures t == s[..IndexOf(s, '\0')]
  {
    s[..IndexOf(s, '\0')]
  }

  /**
   * strsep(&p, " "): the text up to the first space, and what follows it;
   * the rest becomes NULL once no space is left, and a NULL `p` yields
   * NULL.
   */
  function Strsep(p: Option<string>): (r: (Option<string>, Option<string>))
    ensures r.0.Some? <==> p.Some?
    ensures r.0.Some? ==> ' ' !in r.0.value
    ensures r.1.Some? ==> p.Some? && p.value == r.0.value + " " + r.1.value
    ensures p.Some? && r.1.None? ==> r.0 == p
  {
    match p
    case None => (None, None)
    case Some(s) =>
      IndexOfFirst(s, ' ');
      var i := IndexOf(s, ' ');
      if i < |s| then (Some(s[..i]), Some(s[i + 1..])) else (Some(s), None)
  }

  /** Splitting a token without a space off a text gives the token and the rest of the text. */
  lemma StrsepJoin(tok: string, rest: string)
    requires ' ' !in tok
    ensures Strsep(Some(tok + " " + rest)) == (Some(tok), Some(rest))
    ensures Strsep(Some(tok)) == (Some(tok), None)
  {
    var s := tok + " " + rest;
    IndexOfPrefix(tok, " " + rest, ' ');
    assert s == tok + (" " + rest);
    assert s[..|tok|] == tok && s[|tok| + 1..] == rest;
    IndexOfPrefix(tok, [], ' ');
    assert tok + [] == tok;
  }

  lemma {:induction false} IndexOfPrefix(a: string, b: string, c: char)
    requires c !in a
    requires b != [] ==> b[0] == c
    ensures IndexOf(a + b, c) == |a|
  {
    if a != [] {
      assert (a + b)[1..] == a[1..] + b;
      IndexOfPrefix(a[1..], b, c);
    }
  }

  /** PARSE_INT_OR_RETURN: a non-empty token that kstrto accepts. */
  function ParseInt(p: Option<string>, max: nat): (r: Result<(nat, Option<string>)>)
    ensures r.Ok? ==> r.value.0 <= max
    ensures r.Err? ==> r.code == -EINVAL || r.code == -ERANGE
    ensures p.None? ==> r == Err(-EINVAL)
  {
    var (tok, rest) := Strsep(p);
    if tok.None? || tok.value == [] then Err(-EINVAL)
    else
      KstrtoCodes(tok.value, max);
      var v :- Kstrto(tok.value, max);
      Ok((v, rest))
  }

  /** PARSE_ADDR_OR_RETURN: an integer that also lies within the register window. */
  function ParseAddr(p: Option<string>, resSize: int): (r: Result<(nat, Option<string>)>)
    ensures r.Ok? ==> r.value.0 <= U32_MAX && r.value.0 <= resSize
    ensures r.Err? ==> r.code == -EINVAL || r.code == -ERANGE
  {
    var r :- ParseInt(p, U32_MAX);
    if r.0 > resSize then Err(-EINVAL) else Ok(r)
  }

  /** PARSE_STR_OR_RETURN */
  function ParseStr(p: Option<string>): (r: Result<(string, Option<string>)>)
    ensures r.Ok? ==> r.value.0 != [] && ' ' !in r.value.0
    ensures r.Err? ==> r.code == -EINVAL
  {
    var (tok, rest) := Strsep(p);
    if tok.None? || tok.value == [] then Err(-EINVAL) else Ok((tok.value, rest))
  }

  /** PARSE_END_OR_RETURN: any further token, empty or not, is an error. */
  function ParseEnd(p: Option<string>): (r: Result<()>)
    ensures r.Ok? <==> p.None?
    ensures r.Err? ==> r.code == -EINVAL
  {
    var (tok, _) := Strsep(p);
    if tok.Some? then Err(-EINVAL) else Ok(())
  }

  // ---------------------------------------------------------------------
  // Objects

  datatype Command =
    | NewSmbusMaster(smbusAddr: bv32, smbusId: bv32, smbusBuses: bv32)
    | NewMdioMaster(mdioAddr: bv32, mdioId: bv16, mdioBuses: bv16, speed: bv16)
    | NewMdioDevice(master: bv16, bus: bv16, devId: bv16, prtad: bv16, devad: bv16, clause: bv16)
    | NewPeripheral(obj: Peripheral)

  /** new_smbus_master <addr> <accel_id> [<bus_count>]; an empty third token means the default 8 buses. */
  function SmbusMasterArgs(p: Option<string>, resSize: int): (r: Result<Command>)
    ensures r.Err? ==> r.code == -EINVAL || r.code == -ERANGE
    ensures p.None? ==> r == Err(-EINVAL)
  {
    if p.None? then Err(-EINVAL)
    else
      var a :- ParseAddr(p, resSize);
      var i :- ParseInt(a.1, U32_MAX);
      var n :- BusCountArg(i.1);
      Ok(NewSmbusMaster(a.0 as bv32, i.0 as bv32, n))
  }

  /**
   * The optional bus count of new_smbus_master: a missing or empty token
   * means the default, and then the rest of the line is not looked at.
   */
  function BusCountArg(p: Option<string>): (r: Result<bv32>)
    ensures r.Err? ==> r.code == -EINVAL || r.code == -ERANGE
    ensures p.None? || p == Some([]) ==> r == Ok(MASTER_DEFAULT_BUS_COUNT)
  {
    var (tok, rest) := Strsep(p);
    if tok.Some? && tok.value != [] then
      KstrtoCodes(tok.value, U32_MAX);
      var n :- Kstrto(tok.value, U32_MAX);
      var _ :- ParseEnd(rest);
      Ok(n as bv32)
    else Ok(MASTER_DEFAULT_BUS_COUNT)
  }

  /** new_mdio_master <addr> <id> <bus_count> <speed> */
  function MdioMasterArgs(p: Option<string>, resSize: int): (r: Result<Command>)
    ensures r.Err? ==> r.code == -EINVAL || r.code == -ERANGE
    ensures p.None? ==> r == Err(-EINVAL)
  {
    if p.None? then Err(-EINVAL)
    else
      var a :- ParseAddr(p, resSize);
      var i :- ParseInt(a.1, U16_MAX);
      var n :- ParseInt(i.1, U16_MAX);
      var s :- ParseInt(n.1, U16_MAX);
      var _ :- ParseEnd(s.1);
      Ok(NewMdioMaster(a.0 as bv32, i.0 as bv16, n.0 as bv16, s.0 as bv16))
  }

  /** new_mdio_device <master> <bus> <id> <portAddr> <devAddr> <clause> */
  function MdioDeviceArgs(p: Option<string>): (r: Result<Command>)
    ensures r.Err? ==> r.code == -EINVAL || r.code == -ERANGE
    ensures p.None? ==> r == Err(-EINVAL)
  {
    if p.None? then Err(-EINVAL)
    else
      var m :- ParseInt(p, U16_MAX);
      var b :- ParseInt(m.1, U16_MAX);
      var i :- ParseInt(b.1, U16_MAX);
      var pa :- ParseInt(i.1, U16_MAX);
      var d :- ParseInt(pa.1, U16_MAX);
      var c :- ParseInt(d.1, U16_MAX);
      var _ :- ParseEnd(c.1);
      Ok(NewMdioDevice(m.0 as bv16, b.0 as bv16, i.0 as bv16, pa.0 as bv16, d.0 as bv16, c.0 as bv16))
  }

  /** new_led <addr> <name> */
  function LedArgs(p: Option<string>, resSize: int): (r: Result<Command>)
    ensures r.Err? ==> r.code == -EINVAL || r.code == -ERANGE
    ensures p.None? ==> r == Err(-EINVAL)
  {
    if p.None? then Err(-EINVAL)
    else
      var a :- ParseAddr(p, resSize);
      var n :- ParseStr(a.1);
      var _ :- ParseEnd(n.1);
      Ok(NewPeripheral(Led(a.0 as bv32, n.0)))
  }

  /** new_sfp, new_qsfp, new_osfp <addr> <id> */
  function XcvrArgs(kind: XcvrType, p: Option<string>, resSize: int): (r: Result<Command>)
    ensures r.Err? ==> r.code == -EINVAL || r.code == -ERANGE
    ensures p.None? ==> r == Err(-EINVAL)
  {
    if p.None? then Err(-EINVAL)
    else
      var a :- ParseAddr(p, resSize);
      var i :- ParseInt(a.1, U32_MAX);
      var _ :- ParseEnd(i.1);
      Ok(NewPeripheral(Xcvr(kind, a.0 as bv32, i.0 as bv32)))
  }

  /** new_reset <addr> <name> <bitpos> */
  function ResetArgs(p: Option<string>, resSize: int): (r: Result<Command>)
    ensures r.Err? ==> r.code == -EINVAL || r.code == -ERANGE
    ensures p.None? ==> r == Err(-EINVAL)
  {
    if p.None? then Err(-EINVAL)
    else
      var a :- ParseAddr(p, resSize);
      var n :- ParseStr(a.1);
      var b :- ParseInt(n.1, U32_MAX);
      var _ :- ParseEnd(b.1);
      Ok(NewPeripheral(ResetLine(a.0 as bv32, n.0, b.0 as bv32)))
  }

  /** new_fan_group <addr> <platform> <fan_count> */
  function FanGroupArgs(p: Option<string>, resSize: int): (r: Result<Command>)
    ensures r.Err? ==> r.code == -EINVAL || r.code == -ERANGE
    ensures p.None? ==> r == Err(-EINVAL)
  {
    if p.None? then Err(-EINVAL)
    else
      var a :- ParseAddr(p, resSize);
      var pl :- ParseInt(a.1, U32_MAX);
      var c :- ParseInt(pl.1, U32_MAX);
      var _ :- ParseEnd(c.1);
      Ok(NewPeripheral(FanGroup(a.0 as bv32, pl.0 as bv32, c.0 as bv32)))
  }

  /** new_gpio <addr> <name> <bitpos> <ro> <activeLow> */
  function GpioArgs(p: Option<string>, resSize: int): (r: Result<Command>)
    ensures r.Err? ==> r.code == -EINVAL || r.code == -ERANGE
    ensures p.None? ==> r == Err(-EINVAL)
  {
    if p.None? then Err(-EINVAL)
    else
      var a :- ParseAddr(p, resSize);
      var n :- ParseStr(a.1);
      var b :- ParseInt(n.1, U32_MAX);
      var ro :- ParseInt(b.1, U32_MAX);
      var al :- ParseInt(ro.1, U32_MAX);
      var _ :- ParseEnd(al.1);
      Ok(NewPeripheral(Gpio(a.0 as bv32, n.0, b.0 as bv32, ro.0 as bv32, al.0 as bv32)))
  }

  /** The dispatch table, in its order. */
  const ObjectNames: seq<string> :=
    ["fan_group", "gpio", "led", "mdio_device", "mdio_master", "osfp", "qsfp", "reset", "sfp", "smbus_master"]

  /** The first table entry named `tok`, or the table's length. */
  function NameIndex(tok: string, i: nat): (k: nat)
    requires i <= |ObjectNames|
    ensures i <= k <= |ObjectNames|
    ensures k < |ObjectNames| ==> ObjectNames[k] == tok
    ensures forall j :: i <= j < k ==> ObjectNames[j] != tok
    decreases |ObjectNames| - i
  {
    if i == |ObjectNames| then i
    else if ObjectNames[i] == tok then i
    else NameIndex(tok, i + 1)
  }

  /** Every object kind is reached by its own name. */
  lemma NamesDistinct()
    ensures forall i, j :: 0 <= i < j < |ObjectNames| ==> ObjectNames[i] != ObjectNames[j]
  {
  }

  lemma {:induction false} NameIndexOf(k: nat, i: nat)
    requires i <= k < |ObjectNames|
    ensures NameIndex(ObjectNames[k], i) == k
    decreases k - i
  {
    NamesDistinct();
    if i < k {
      NameIndexOf(k, i + 1);
    }
  }

  /** The parse functions the dispatch table points to. */
  datatype ObjectParser =
    | ParseFanGroup | ParseGpio | ParseLed | ParseMdioDevice | ParseMdioMaster
    | ParseOsfp | ParseQsfp | ParseReset | ParseSfp | ParseSmbusMaster

  /** The table's second column, entry for entry with ObjectNames. */
  const ObjectParsers: seq<ObjectParser> :=
    [ParseFanGroup, ParseGpio, ParseLed, ParseMdioDevice, ParseMdioMaster,
     ParseOsfp, ParseQsfp, ParseReset, ParseSfp, ParseSmbusMaster]

  /** What each parse function reads from the rest of the line. */
  function RunParser(f: ObjectParser, p: Option<string>, resSize: int): (r: Result<Command>)
    ensures r.Err? ==> r.code == -EINVAL || r.code == -ERANGE
    ensures p.None? ==> r == Err(-EINVAL)
  {
    match f
    case ParseFanGroup => FanGroupArgs(p, resSize)
    case ParseGpio => GpioArgs(p, resSize)
    case ParseLed => LedArgs(p, resSize)
    case ParseMdioDevice => MdioDeviceArgs(p)
    case ParseMdioMaster => MdioMasterArgs(p, resSize)
    case ParseOsfp => XcvrArgs(Osfp, p, resSize)
    case ParseQsfp => XcvrArgs(Qsfp, p, resSize)
    case ParseReset => ResetArgs(p, resSize)
    case ParseSfp => XcvrArgs(Sfp, p, resSize)
    case ParseSmbusMaster => SmbusMasterArgs(p, resSize)
  }

  /** The argument parser of table entry `i`. */
  function ArgsFor(i: nat, p: Option<string>, resSize: int): (r: Result<Command>)
    requires i < |ObjectNames|
    ensures r.Err? ==> r.code == -EINVAL || r.code == -ERANGE
    ensures p.None? ==> r == Err(-EINVAL)
  {
    RunParser(ObjectParsers[i], p, resSize)
  }

  /** A parsed command applied to the registry: what its add function returns and leaves. */
  function Execute(st: RegState, env: Env, maxRetries: int, cmd: Command): (r: (int, RegState))
    ensures cmd.NewPeripheral? ==> r.1.smbus == st.smbus && r.1.mdio == st.mdio && r.1.log == st.log
    ensures cmd.NewPeripheral? ==> (r.0 == 0 <==> r.1.peripherals == st.peripherals + [cmd.obj])
    ensures cmd.NewPeripheral? && r.0 != 0 ==> r.1 == st
    ensures !cmd.NewPeripheral? ==> r.1.peripherals == st.peripherals
  {
    match cmd
    case NewSmbusMaster(addr, id, n) => SmbusMasterAddOp(st, env, maxRetries, addr, id, n as nat)
    case NewMdioMaster(addr, id, n, speed) => MdioMasterAddOp(st, env, addr, id, n, speed)
    case NewMdioDevice(m, b, id, pa, d, c) => MdioDeviceAddOp(st, env, m, b, id, pa, d, c)
    case NewPeripheral(obj) =>
      var r := env.peripheral(obj);
      (r, if r == 0 then st.(peripherals := st.peripherals + [obj]) else st)
  }

  /**
   * parse_new_object on one line: refuse 100 characters or more, take the
   * first token as the object kind, parse the rest for that kind and add
   * the object. A line that succeeds counts as consumed whole.
   */
  function NewObjectOp(st: RegState, env: Env, resSize: int, maxRetries: int, line: string): (r: (int, RegState))
    ensures r.0 < 0 || r.0 == |line|
    ensures |line| >= MAX_CONFIG_LINE_SIZE ==> r == (-EINVAL, st)
  {
    if |line| >= MAX_CONFIG_LINE_SIZE then (-EINVAL, st)
    else
      var (tok, rest) := Strsep(Some(CStr(line)));
      var i := NameIndex(tok.value, 0);
      if i == |ObjectNames| then (-EINVAL, st)
      else match ArgsFor(i, rest, resSize)
        case Err(e) => (e, st)
        case Ok(cmd) =>
          var (r, st') := Execute(st, env, maxRetries, cmd);
          (if r < 0 then r else |line|, st')
  }

  /** parse_smbus_tweak's fields, in their order: bus, addr, t, datr, datw, ed; nothing checks for more. */
  function TweakArgs(p: Option<string>): (r: Result<(bv16, BusParams)>)
    ensures r.Err? ==> r.code == -EINVAL || r.code == -ERANGE
  {
    var b :- ParseInt(p, U16_MAX);
    var a :- ParseInt(b.1, U16_MAX);
    var t :- ParseInt(a.1, U8_MAX);
    var dr :- ParseInt(t.1, U8_MAX);
    var dw :- ParseInt(dr.1, U8_MAX);
    var e :- ParseInt(dw.1, U8_MAX);
    Ok((b.0 as bv16, BusParams(a.0 as bv16, t.0 as bv8, dw.0 as bv8, dr.0 as bv8, e.0 as bv8)))
  }

  /** parse_smbus_tweak on one line. */
  function SmbusTweakOp(st: RegState, env: Env, line: string): (r: (int, RegState))
    ensures r.0 < 0 || r.0 == |line|
    ensures |line| >= MAX_CONFIG_LINE_SIZE ==> r == (-EINVAL, st)
    ensures r.0 < 0 ==> r.1 == st
  {
    if |line| >= MAX_CONFIG_LINE_SIZE then (-EINVAL, st)
    else match TweakArgs(Some(CStr(line)))
      case Err(e) => (e, st)
      case Ok((bus, p)) =>
        SetSmbusParamsSpec(st, env, bus, p);
        var (err, st') := SetSmbusParamsOp(st, env, bus, p);
        (if err == 0 then |line| else err, st')
  }

  datatype LineKind = NewObjects | SmbusTweaks

  /** One line of new_object or smbus_tweaks: a negative error, or the length of the line, as the store loop expects. */
  function LineOp(kind: LineKind, st: RegState, env: Env, resSize: int, maxRetries: int, line: string)
    : (r: (int, RegState))
    ensures r.0 < 0 || r.0 == |line|
    ensures |line| >= MAX_CONFIG_LINE_SIZE ==> r == (-EINVAL, st)
  {
    match kind
    case NewObjects => NewObjectOp(st, env, resSize, maxRetries, line)
    case SmbusTweaks => SmbusTweakOp(st, env, line)
  }

  /** A line that does not parse leaves the registry unchanged and fails with -EINVAL or -ERANGE. */
  lemma ParseErrorNoChange(st: RegState, env: Env, resSize: int, maxRetries: int, line: string)
    requires |line| < MAX_CONFIG_LINE_SIZE
    requires var (tok, rest) := Strsep(Some(CStr(line)));
      var i := NameIndex(tok.value, 0);
      i == |ObjectNames| || ArgsFor(i, rest, resSize).Err?
    ensures var (r, st') := NewObjectOp(st, env, resSize, maxRetries, line);
      st' == st && (r == -EINVAL || r == -ERANGE)
  {
  }
}
