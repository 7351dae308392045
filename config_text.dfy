/**
 * Configuration lines written out from the objects they describe, and the
 * proof that the parser reads each of them back as that object.
 */
module ConfigText {
  import opened Numbers
  import opened Registry
  import opened Parser

  /** Tokens separated by single spaces. */
  function Join(ts: seq<string>): string {
    if ts == [] then "" else if |ts| == 1 then ts[0] else ts[0] + " " + Join(ts[1..])
  }

  /** The argument text a parser starts from: NULL when there are no tokens at all. */
  function JoinOpt(ts: seq<string>): Option<string> {
    if ts == [] then None else Some(Join(ts))
  }

  /** A token the parser can hand back unchanged. */
  predicate Token(t: string) {
    t != [] && ' ' !in t && '\0' !in t
  }

  lemma DecimalToken(n: nat)
    ensures Token(Decimal(n))
  {
    var s := Digits(n, 10);
    assert DigitValue(' ') == 16 && DigitValue('\0') == 16;
    assert forall i :: 0 <= i < |s| ==> s[i] != ' ' && s[i] != '\0';
  }

  /** The text from token `i` on, as the parser sees it after taking `i` tokens off: NULL past the end. */
  function Rest(ts: seq<string>, i: nat): Option<string> {
    if i < |ts| then Some(Join(ts[i..])) else None
  }

  lemma RestZero(ts: seq<string>)
    ensures Rest(ts, 0) == JoinOpt(ts)
  {
    assert ts[0..] == ts;
  }

  /** strsep peels the token at `i` off the text from there on. */
  lemma StrsepAt(ts: seq<string>, i: nat)
    requires i < |ts| && ' ' !in ts[i]
    ensures Strsep(Rest(ts, i)) == (Some(ts[i]), Rest(ts, i + 1))
  {
    var u := ts[i..];
    assert u[0] == ts[i] && u[1..] == ts[i + 1..];
    StrsepJoin(ts[i], Join(ts[i + 1..]));
  }

  /** A token kstrto reads as `n` within `max`. */
  predicate Is(t: string, n: nat, max: nat) {
    Kstrto(t, max) == Ok(n)
  }

  /** A token that reads as `n` within `max`. */
  predicate Reads(t: string, n: nat, max: nat) {
    Token(t) && Is(t, n, max)
  }

  /** What %d writes for a value within a field's range is a token that reads back as that value. */
  lemma DecimalReads(n: nat, max: nat)
    requires n <= max <= U32_MAX
    ensures Reads(Decimal(n), n, max)
  {
    DecimalToken(n);
    KstrtoDecimal(n, max);
  }

  lemma ParseIntAt(ts: seq<string>, i: nat, n: nat, max: nat)
    requires i < |ts| && Reads(ts[i], n, max)
    ensures ParseInt(Rest(ts, i), max) == Ok((n, Rest(ts, i + 1)))
  {
    StrsepAt(ts, i);
  }

  lemma ParseStrAt(ts: seq<string>, i: nat)
    requires i < |ts| && Token(ts[i])
    ensures ParseStr(Rest(ts, i)) == Ok((ts[i], Rest(ts, i + 1)))
  {
    StrsepAt(ts, i);
  }

  /** No character other than the separator appears in a join of tokens without it. */
  lemma {:induction false} JoinExcludes(ts: seq<string>, c: char)
    requires c != ' '
    requires forall i :: 0 <= i < |ts| ==> c !in ts[i]
    ensures c !in Join(ts)
  {
    if |ts| > 1 {
      JoinExcludes(ts[1..], c);
    }
  }

  // ---------------------------------------------------------------------
  // One line per object

  predicate Ok32(a: bv32, resSize: int) {
    a as int <= resSize
  }

  /** The table entry of a command's object kind. */
  function KindIndex(cmd: Command): (i: nat)
    ensures i < |ObjectNames|
  {
    match cmd
    case NewSmbusMaster(_, _, _) => 9
    case NewMdioMaster(_, _, _, _) => 4
    case NewMdioDevice(_, _, _, _, _, _) => 3
    case NewPeripheral(obj) =>
      match obj
      case FanGroup(_, _, _) => 0
      case Gpio(_, _, _, _, _) => 1
      case Led(_, _) => 2
      case Xcvr(k, _, _) => if k == Osfp then 5 else if k == Qsfp then 6 else 8
      case ResetLine(_, _, _) => 7
  }

  /** The parse function the table holds for the command's kind. */
  function KindParser(cmd: Command): ObjectParser {
    match cmd
    case NewSmbusMaster(_, _, _) => ParseSmbusMaster
    case NewMdioMaster(_, _, _, _) => ParseMdioMaster
    case NewMdioDevice(_, _, _, _, _, _) => ParseMdioDevice
    case NewPeripheral(obj) =>
      match obj
      case FanGroup(_, _, _) => ParseFanGroup
      case Gpio(_, _, _, _, _) => ParseGpio
      case Led(_, _) => ParseLed
      case Xcvr(k, _, _) => if k == Osfp then ParseOsfp else if k == Qsfp then ParseQsfp else ParseSfp
      case ResetLine(_, _, _) => ParseReset
  }

  /** The kind's name and its parse function share one table entry. */
  lemma KindEntry(cmd: Command)
    ensures ObjectParsers[KindIndex(cmd)] == KindParser(cmd)
  {
  }

  /** The object's address lies in the register window, so the parser accepts it. */
  predicate InWindow(cmd: Command, resSize: int) {
    match cmd
    case NewSmbusMaster(a, _, _) => Ok32(a, resSize)
    case NewMdioMaster(a, _, _, _) => Ok32(a, resSize)
    case NewMdioDevice(_, _, _, _, _, _) => true
    case NewPeripheral(obj) => Ok32(obj.addr, resSize)
  }

  /** Every token is one the parser hands back unchanged. */
  predicate Tokens(ts: seq<string>) {
    forall i :: 0 <= i < |ts| ==> Token(ts[i])
  }

  /**
   * The tokens spell out the command's arguments in their order: each
   * integer token reads as the field's value within the field's range, a
   * name is the token itself, and the bus count of an SMBus master may be
   * left out when it is the default.
   */
  predicate Spells(ts: seq<string>, cmd: Command) {
    Tokens(ts) &&
    match cmd
    case NewSmbusMaster(a, id, n) =>
      (|ts| == 3 || (|ts| == 2 && n == MASTER_DEFAULT_BUS_COUNT)) &&
      Is(ts[0], a as nat, U32_MAX) && Is(ts[1], id as nat, U32_MAX) && (|ts| == 3 ==> Is(ts[2], n as nat, U32_MAX))
    case NewMdioMaster(a, id, n, sp) =>
      |ts| == 4 && Is(ts[0], a as nat, U32_MAX) && Is(ts[1], id as nat, U16_MAX) &&
      Is(ts[2], n as nat, U16_MAX) && Is(ts[3], sp as nat, U16_MAX)
    case NewMdioDevice(m, b, id, pa, d, c) =>
      |ts| == 6 && Is(ts[0], m as nat, U16_MAX) && Is(ts[1], b as nat, U16_MAX) && Is(ts[2], id as nat, U16_MAX) &&
      Is(ts[3], pa as nat, U16_MAX) && Is(ts[4], d as nat, U16_MAX) && Is(ts[5], c as nat, U16_MAX)
    case NewPeripheral(obj) =>
      match obj
      case FanGroup(a, pl, c) =>
        |ts| == 3 && Is(ts[0], a as nat, U32_MAX) && Is(ts[1], pl as nat, U32_MAX) && Is(ts[2], c as nat, U32_MAX)
      case Gpio(a, name, b, ro, al) =>
        |ts| == 5 && Is(ts[0], a as nat, U32_MAX) && ts[1] == name && Is(ts[2], b as nat, U32_MAX) &&
        Is(ts[3], ro as nat, U32_MAX) && Is(ts[4], al as nat, U32_MAX)
      case Led(a, name) =>
        |ts| == 2 && Is(ts[0], a as nat, U32_MAX) && ts[1] == name
      case Xcvr(_, a, id) =>
        |ts| == 2 && Is(ts[0], a as nat, U32_MAX) && Is(ts[1], id as nat, U32_MAX)
      case ResetLine(a, name, b) =>
        |ts| == 3 && Is(ts[0], a as nat, U32_MAX) && ts[1] == name && Is(ts[2], b as nat, U32_MAX)
  }

  // Each parser in steps: what every token parse returns decides what the
  // argument parser returns.

  lemma SmbusMasterSteps(p: Option<string>, q: Option<string>, r: Option<string>, a: bv32, id: bv32, n: bv32,
                         resSize: int)
    requires ParseInt(p, U32_MAX) == Ok((a as nat, q)) && Ok32(a, resSize)
    requires ParseInt(q, U32_MAX) == Ok((id as nat, r))
    requires BusCountArg(r) == Ok(n)
    ensures SmbusMasterArgs(p, resSize) == Ok(NewSmbusMaster(a, id, n))
  {
  }

  lemma MdioMasterSteps(p: Option<string>, q1: Option<string>, q2: Option<string>, q3: Option<string>,
                        a: bv32, id: bv16, n: bv16, sp: bv16, resSize: int)
    requires ParseInt(p, U32_MAX) == Ok((a as nat, q1)) && Ok32(a, resSize)
    requires ParseInt(q1, U16_MAX) == Ok((id as nat, q2))
    requires ParseInt(q2, U16_MAX) == Ok((n as nat, q3))
    requires ParseInt(q3, U16_MAX) == Ok((sp as nat, None))
    ensures MdioMasterArgs(p, resSize) == Ok(NewMdioMaster(a, id, n, sp))
  {
  }

  lemma MdioDeviceSteps(p: Option<string>, q1: Option<string>, q2: Option<string>, q3: Option<string>,
                        q4: Option<string>, q5: Option<string>, m: bv16, b: bv16, id: bv16, pa: bv16, d: bv16, c: bv16)
    requires ParseInt(p, U16_MAX) == Ok((m as nat, q1))
    requires ParseInt(q1, U16_MAX) == Ok((b as nat, q2))
    requires ParseInt(q2, U16_MAX) == Ok((id as nat, q3))
    requires ParseInt(q3, U16_MAX) == Ok((pa as nat, q4))
    requires ParseInt(q4, U16_MAX) == Ok((d as nat, q5))
    requires ParseInt(q5, U16_MAX) == Ok((c as nat, None))
    ensures MdioDeviceArgs(p) == Ok(NewMdioDevice(m, b, id, pa, d, c))
  {
  }

  lemma FanGroupSteps(p: Option<string>, q1: Option<string>, q2: Option<string>, a: bv32, pl: bv32, c: bv32,
                      resSize: int)
    requires ParseInt(p, U32_MAX) == Ok((a as nat, q1)) && Ok32(a, resSize)
    requires ParseInt(q1, U32_MAX) == Ok((pl as nat, q2))
    requires ParseInt(q2, U32_MAX) == Ok((c as nat, None))
    ensures FanGroupArgs(p, resSize) == Ok(NewPeripheral(FanGroup(a, pl, c)))
  {
  }

  lemma GpioSteps(p: Option<string>, q1: Option<string>, q2: Option<string>, q3: Option<string>, q4: Option<string>,
                  a: bv32, name: string, b: bv32, ro: bv32, al: bv32, resSize: int)
    requires ParseInt(p, U32_MAX) == Ok((a as nat, q1)) && Ok32(a, resSize)
    requires ParseStr(q1) == Ok((name, q2))
    requires ParseInt(q2, U32_MAX) == Ok((b as nat, q3))
    requires ParseInt(q3, U32_MAX) == Ok((ro as nat, q4))
    requires ParseInt(q4, U32_MAX) == Ok((al as nat, None))
    ensures GpioArgs(p, resSize) == Ok(NewPeripheral(Gpio(a, name, b, ro, al)))
  {
  }

  lemma LedSteps(p: Option<string>, q: Option<string>, a: bv32, name: string, resSize: int)
    requires ParseInt(p, U32_MAX) == Ok((a as nat, q)) && Ok32(a, resSize)
    requires ParseStr(q) == Ok((name, None))
    ensures LedArgs(p, resSize) == Ok(NewPeripheral(Led(a, name)))
  {
  }

  lemma XcvrSteps(k: XcvrType, p: Option<string>, q: Option<string>, a: bv32, id: bv32, resSize: int)
    requires ParseInt(p, U32_MAX) == Ok((a as nat, q)) && Ok32(a, resSize)
    requires ParseInt(q, U32_MAX) == Ok((id as nat, None))
    ensures XcvrArgs(k, p, resSize) == Ok(NewPeripheral(Xcvr(k, a, id)))
  {
  }

  lemma ResetSteps(p: Option<string>, q1: Option<string>, q2: Option<string>, a: bv32, name: string, b: bv32,
                   resSize: int)
    requires ParseInt(p, U32_MAX) == Ok((a as nat, q1)) && Ok32(a, resSize)
    requires ParseStr(q1) == Ok((name, q2))
    requires ParseInt(q2, U32_MAX) == Ok((b as nat, None))
    ensures ResetArgs(p, resSize) == Ok(NewPeripheral(ResetLine(a, name, b)))
  {
  }

  /** The bus count token's parse is what BusCountArg reads. */
  lemma BusCountParse(r: Option<string>, n: bv32)
    requires ParseInt(r, U32_MAX) == Ok((n as nat, None))
    ensures BusCountArg(r) == Ok(n)
  {
  }

  // Each object's tokens, taken off one after another, read back as that object.

  lemma SmbusMasterLine(ts: seq<string>, a: bv32, id: bv32, n: bv32, resSize: int)
    requires (|ts| == 3 || (|ts| == 2 && n == MASTER_DEFAULT_BUS_COUNT)) &&
      Reads(ts[0], a as nat, U32_MAX) && Reads(ts[1], id as nat, U32_MAX) && (|ts| == 3 ==> Reads(ts[2], n as nat, U32_MAX)) && Ok32(a, resSize)
    ensures SmbusMasterArgs(Rest(ts, 0), resSize) == Ok(NewSmbusMaster(a, id, n))
  {
    ParseIntAt(ts, 0, a as nat, U32_MAX);
    ParseIntAt(ts, 1, id as nat, U32_MAX);
    if |ts| == 3 {
      ParseIntAt(ts, 2, n as nat, U32_MAX);
      BusCountParse(Rest(ts, 2), n);
    }
    SmbusMasterSteps(Rest(ts, 0), Rest(ts, 1), Rest(ts, 2), a, id, n, resSize);
  }

  lemma MdioMasterLine(ts: seq<string>, a: bv32, id: bv16, n: bv16, sp: bv16, resSize: int)
    requires |ts| == 4 && Reads(ts[0], a as nat, U32_MAX) && Reads(ts[1], id as nat, U16_MAX) &&
      Reads(ts[2], n as nat, U16_MAX) && Reads(ts[3], sp as nat, U16_MAX) && Ok32(a, resSize)
    ensures MdioMasterArgs(Rest(ts, 0), resSize) == Ok(NewMdioMaster(a, id, n, sp))
  {
    ParseIntAt(ts, 0, a as nat, U32_MAX);
    ParseIntAt(ts, 1, id as nat, U16_MAX);
    ParseIntAt(ts, 2, n as nat, U16_MAX);
    ParseIntAt(ts, 3, sp as nat, U16_MAX);
    MdioMasterSteps(Rest(ts, 0), Rest(ts, 1), Rest(ts, 2), Rest(ts, 3), a, id, n, sp, resSize);
  }

  /** Three integer tokens in a row, taken off one after another. */
  lemma ParseThreeAt(ts: seq<string>, i: nat, x: nat, y: nat, z: nat, max: nat)
    requires i + 3 <= |ts| && Reads(ts[i], x, max) && Reads(ts[i + 1], y, max) && Reads(ts[i + 2], z, max)
    ensures ParseInt(Rest(ts, i), max) == Ok((x, Rest(ts, i + 1)))
    ensures ParseInt(Rest(ts, i + 1), max) == Ok((y, Rest(ts, i + 2)))
    ensures ParseInt(Rest(ts, i + 2), max) == Ok((z, Rest(ts, i + 3)))
  {
    ParseIntAt(ts, i, x, max);
    ParseIntAt(ts, i + 1, y, max);
    ParseIntAt(ts, i + 2, z, max);
  }

  lemma MdioDeviceLine(ts: seq<string>, m: bv16, b: bv16, id: bv16, pa: bv16, d: bv16, c: bv16)
    requires |ts| == 6 && Reads(ts[0], m as nat, U16_MAX) && Reads(ts[1], b as nat, U16_MAX) && Reads(ts[2], id as nat, U16_MAX) &&
      Reads(ts[3], pa as nat, U16_MAX) && Reads(ts[4], d as nat, U16_MAX) && Reads(ts[5], c as nat, U16_MAX)
    ensures MdioDeviceArgs(Rest(ts, 0)) == Ok(NewMdioDevice(m, b, id, pa, d, c))
  {
    ParseThreeAt(ts, 0, m as nat, b as nat, id as nat, U16_MAX);
    ParseThreeAt(ts, 3, pa as nat, d as nat, c as nat, U16_MAX);
    MdioDeviceSteps(Rest(ts, 0), Rest(ts, 1), Rest(ts, 2), Rest(ts, 3), Rest(ts, 4), Rest(ts, 5), m, b, id, pa, d, c);
  }

  lemma FanGroupLine(ts: seq<string>, a: bv32, pl: bv32, c: bv32, resSize: int)
    requires |ts| == 3 && Reads(ts[0], a as nat, U32_MAX) && Reads(ts[1], pl as nat, U32_MAX) && Reads(ts[2], c as nat, U32_MAX) && Ok32(a, resSize)
    ensures FanGroupArgs(Rest(ts, 0), resSize) == Ok(NewPeripheral(FanGroup(a, pl, c)))
  {
    ParseIntAt(ts, 0, a as nat, U32_MAX);
    ParseIntAt(ts, 1, pl as nat, U32_MAX);
    ParseIntAt(ts, 2, c as nat, U32_MAX);
    FanGroupSteps(Rest(ts, 0), Rest(ts, 1), Rest(ts, 2), a, pl, c, resSize);
  }

  lemma GpioLine(ts: seq<string>, a: bv32, name: string, b: bv32, ro: bv32, al: bv32, resSize: int)
    requires |ts| == 5 && Reads(ts[0], a as nat, U32_MAX) && Token(ts[1]) && ts[1] == name &&
      Reads(ts[2], b as nat, U32_MAX) && Reads(ts[3], ro as nat, U32_MAX) && Reads(ts[4], al as nat, U32_MAX) && Ok32(a, resSize)
    ensures GpioArgs(Rest(ts, 0), resSize) == Ok(NewPeripheral(Gpio(a, name, b, ro, al)))
  {
    ParseIntAt(ts, 0, a as nat, U32_MAX);
    ParseStrAt(ts, 1);
    ParseThreeAt(ts, 2, b as nat, ro as nat, al as nat, U32_MAX);
    GpioSteps(Rest(ts, 0), Rest(ts, 1), Rest(ts, 2), Rest(ts, 3), Rest(ts, 4), a, name, b, ro, al, resSize);
  }

  lemma LedLine(ts: seq<string>, a: bv32, name: string, resSize: int)
    requires |ts| == 2 && Reads(ts[0], a as nat, U32_MAX) && Token(ts[1]) && ts[1] == name && Ok32(a, resSize)
    ensures LedArgs(Rest(ts, 0), resSize) == Ok(NewPeripheral(Led(a, name)))
  {
    ParseIntAt(ts, 0, a as nat, U32_MAX);
    ParseStrAt(ts, 1);
    LedSteps(Rest(ts, 0), Rest(ts, 1), a, name, resSize);
  }

  lemma XcvrLine(k: XcvrType, ts: seq<string>, a: bv32, id: bv32, resSize: int)
    requires |ts| == 2 && Reads(ts[0], a as nat, U32_MAX) && Reads(ts[1], id as nat, U32_MAX) && Ok32(a, resSize)
    ensures XcvrArgs(k, Rest(ts, 0), resSize) == Ok(NewPeripheral(Xcvr(k, a, id)))
  {
    ParseIntAt(ts, 0, a as nat, U32_MAX);
    ParseIntAt(ts, 1, id as nat, U32_MAX);
    XcvrSteps(k, Rest(ts, 0), Rest(ts, 1), a, id, resSize);
  }

  lemma ResetLineLine(ts: seq<string>, a: bv32, name: string, b: bv32, resSize: int)
    requires |ts| == 3 && Reads(ts[0], a as nat, U32_MAX) && Token(ts[1]) && ts[1] == name && Reads(ts[2], b as nat, U32_MAX) && Ok32(a, resSize)
    ensures ResetArgs(Rest(ts, 0), resSize) == Ok(NewPeripheral(ResetLine(a, name, b)))
  {
    var p, q1, q2 := Rest(ts, 0), Rest(ts, 1), Rest(ts, 2);
    assert ParseInt(p, U32_MAX) == Ok((a as nat, q1)) by { ParseIntAt(ts, 0, a as nat, U32_MAX); }
    assert ParseStr(q1) == Ok((name, q2)) by { ParseStrAt(ts, 1); }
    assert ParseInt(q2, U32_MAX) == Ok((b as nat, None)) by { ParseIntAt(ts, 2, b as nat, U32_MAX); }
    ResetSteps(p, q1, q2, a, name, b, resSize);
  }

  /** Tokens that spell out an object's arguments parse back, through the dispatch table, to exactly that object. */
  lemma ArgsRoundTrip(cmd: Command, ts: seq<string>, resSize: int)
    requires InWindow(cmd, resSize) && Spells(ts, cmd)
    ensures ArgsFor(KindIndex(cmd), JoinOpt(ts), resSize) == Ok(cmd)
  {
    RestZero(ts);
    KindEntry(cmd);
    match cmd
    case NewSmbusMaster(a, id, n) => SmbusMasterLine(ts, a, id, n, resSize);
    case NewMdioMaster(a, id, n, sp) => MdioMasterLine(ts, a, id, n, sp, resSize);
    case NewMdioDevice(m, b, id, pa, d, c) => MdioDeviceLine(ts, m, b, id, pa, d, c);
    case NewPeripheral(obj) => PeripheralRoundTrip(obj, ts, resSize);
  }

  /** The same for the peripherals kept in the registry's objects. */
  lemma PeripheralRoundTrip(obj: Peripheral, ts: seq<string>, resSize: int)
    requires InWindow(NewPeripheral(obj), resSize) && Spells(ts, NewPeripheral(obj))
    ensures ArgsFor(KindIndex(NewPeripheral(obj)), Rest(ts, 0), resSize) == Ok(NewPeripheral(obj))
  {
    KindEntry(NewPeripheral(obj));
    match obj
    case FanGroup(a, pl, c) => FanGroupLine(ts, a, pl, c, resSize);
    case Gpio(a, name, b, ro, al) => GpioLine(ts, a, name, b, ro, al, resSize);
    case Led(a, name) => LedLine(ts, a, name, resSize);
    case Xcvr(k, a, id) => XcvrLine(k, ts, a, id, resSize);
    case ResetLine(a, name, b) => ResetLineLine(ts, a, name, b, resSize);
  }

  /** Each object kind's name is a token of its own. */
  lemma NameToken(k: nat)
    requires k < |ObjectNames|
    ensures Token(ObjectNames[k]) && '\n' !in ObjectNames[k]
  {
  }

  /** The whole line: the object kind, then its argument tokens. */
  function CommandLine(cmd: Command, ts: seq<string>): string {
    Join([ObjectNames[KindIndex(cmd)]] + ts)
  }

  /** A line of tokens after a kind name splits, at its first space, into the name and the tokens. */
  lemma LineSplits(k: nat, ts: seq<string>)
    requires k < |ObjectNames| && Tokens(ts)
    ensures var line := Join([ObjectNames[k]] + ts);
      Strsep(Some(CStr(line))) == (Some(ObjectNames[k]), JoinOpt(ts))
  {
    var us := [ObjectNames[k]] + ts;
    NameToken(k);
    assert forall i :: 0 <= i < |us| ==> '\0' !in us[i] by {
      assert forall i :: 1 <= i < |us| ==> us[i] == ts[i - 1];
    }
    JoinExcludes(us, '\0');
    assert CStr(Join(us)) == Join(us);
    StrsepAt(us, 0);
    RestZero(us);
    assert us[1..] == ts;
  }

  /**
   * A line written out for an object, short enough to be accepted, is
   * read back as that object, and then has the effect of adding it: the
   * add function's error, or the line counted as consumed whole.
   */
  lemma NewObjectRoundTrip(st: RegState, env: Env, resSize: int, maxRetries: int, cmd: Command, ts: seq<string>)
    requires InWindow(cmd, resSize) && Spells(ts, cmd) && |CommandLine(cmd, ts)| < MAX_CONFIG_LINE_SIZE
    ensures var line := CommandLine(cmd, ts);
      var (r, st') := Execute(st, env, maxRetries, cmd);
      NewObjectOp(st, env, resSize, maxRetries, line) == (if r < 0 then r else |line|, st')
  {
    LineSplits(KindIndex(cmd), ts);
    NameIndexOf(KindIndex(cmd), 0);
    ArgsRoundTrip(cmd, ts, resSize);
  }

  // ---------------------------------------------------------------------
  // Lines as the configuring program writes them

  /** Hexadecimal text with its 0x prefix reads back the same way. */
  lemma HexReads(n: nat, max: nat)
    requires n <= max <= U32_MAX
    ensures Reads("0x" + Digits(n, 16), n, max)
  {
    KstrtoHex(n, max);
    var h := Digits(n, 16);
    assert DigitValue(' ') == 16 && DigitValue('\0') == 16;
    assert forall i :: 0 <= i < |h| ==> h[i] != ' ' && h[i] != '\0';
    assert ' ' !in h && '\0' !in h;
  }
}
