/**
 * The two writable attributes of the configuration interface and the
 * readable one: new_object and smbus_tweaks split what is written into
 * lines and hand each line to its parser (parse_lines); smbus_tweaks,
 * when read, lists the tuning table of every bus.
 */
module ConfigStore {
  import opened Errno
  import opened Numbers
  import opened Tuning
  import opened Registry
  import opened Parser

  // ---------------------------------------------------------------------
  // Splitting into lines

  /**
   * strnchr(buf, left, '\n') from `pos`: the first newline, or none when
   * the buffer, or the string at a NUL, ends first.
   */
  function NextNewline(buf: string, pos: nat): (k: Option<nat>)
    requires pos <= |buf|
    ensures k.Some? ==> pos <= k.value < |buf| && buf[k.value] == '\n'
    decreases |buf| - pos
  {
    if pos == |buf| || buf[pos] == '\0' then None
    else if buf[pos] == '\n' then Some(pos)
    else NextNewline(buf, pos + 1)
  }

  /** No newline or NUL comes before the newline found. */
  lemma {:induction false} NextNewlineFirst(buf: string, pos: nat)
    requires pos <= |buf|
    ensures NextNewline(buf, pos).Some? ==>
      forall j :: pos <= j < NextNewline(buf, pos).value ==> buf[j] != '\n' && buf[j] != '\0'
    decreases |buf| - pos
  {
    if pos < |buf| && buf[pos] != '\0' && buf[pos] != '\n' {
      NextNewlineFirst(buf, pos + 1);
    }
  }

  /** And the first newline, with no NUL before it, is the one found. */
  lemma {:induction false} NextNewlineAt(buf: string, pos: nat, n: nat)
    requires pos <= n < |buf| && buf[n] == '\n'
    requires forall j :: pos <= j < n ==> buf[j] != '\n' && buf[j] != '\0'
    ensures NextNewline(buf, pos) == Some(n)
    decreases n - pos
  {
    if pos < n {
      NextNewlineAt(buf, pos + 1, n);
    }
  }

  /** Where the line starting at `pos` ends: at its newline, or at the end of the buffer. */
  function LineEnd(buf: string, pos: nat): (e: nat)
    requires pos <= |buf|
    ensures pos <= e <= |buf|
    ensures e < |buf| ==> buf[e] == '\n'
  {
    match NextNewline(buf, pos)
    case Some(k) => k
    case None => |buf|
  }

  /** The newlines at `p` skipped. */
  function SkipNewlines(buf: string, p: nat): (q: nat)
    requires p <= |buf|
    ensures p <= q <= |buf|
    ensures q < |buf| ==> buf[q] != '\n'
    ensures forall j :: p <= j < q ==> buf[j] == '\n'
    decreases |buf| - p
  {
    if p < |buf| && buf[p] == '\n' then SkipNewlines(buf, p + 1) else p
  }

  /** A line parser as parse_lines is given one: from the state and a line, its result and the new state. */
  type LineParser = (RegState, string) -> (int, RegState)

  /** The line parser of each attribute, with the context's settings. */
  function ParserOf(kind: LineKind, env: Env, resSize: int, maxRetries: int): LineParser {
    (st: RegState, line: string) => LineOp(kind, st, env, resSize, maxRetries, line)
  }

  /**
   * parse_lines from `pos` on: hand the line up to the next newline to the
   * line parser, stop at its first error, skip the newlines after it, and
   * once the buffer is used up report the whole buffer as consumed.
   */
  function LinesFrom(parse: LineParser, st: RegState, buf: string, pos: nat): (int, RegState)
    requires pos < |buf|
    decreases |buf| - pos
  {
    var e := LineEnd(buf, pos);
    var (r, st1) := parse(st, buf[pos..e]);
    if r < 0 then (r, st1)
    else
      var next := SkipNewlines(buf, e);
      if next == |buf| then (|buf|, st1)
      else LinesFrom(parse, st1, buf, next)
  }

  /** parse_lines: nothing to do for an empty write. */
  function ParseLinesOp(parse: LineParser, st: RegState, buf: string): (int, RegState) {
    if |buf| == 0 then (0, st) else LinesFrom(parse, st, buf, 0)
  }

  /** A write either fails with the error of one of its lines or is consumed whole. */
  lemma {:induction false} LinesFromResult(parse: LineParser, st: RegState, buf: string, pos: nat)
    requires pos < |buf|
    ensures var r := LinesFrom(parse, st, buf, pos).0;
      r == |buf| || exists line, st0 :: r == parse(st0, line).0 < 0
    decreases |buf| - pos
  {
    var e := LineEnd(buf, pos);
    var (r, st1) := parse(st, buf[pos..e]);
    if r >= 0 {
      var next := SkipNewlines(buf, e);
      if next < |buf| {
        LinesFromResult(parse, st1, buf, next);
      }
    }
  }

  /** The same for the whole write; an empty one changes nothing. */
  lemma ParseLinesResult(parse: LineParser, st: RegState, buf: string)
    ensures var (r, st') := ParseLinesOp(parse, st, buf);
      (r == |buf| || exists line, st0 :: r == parse(st0, line).0 < 0) && (|buf| == 0 ==> r == 0 && st' == st)
  {
    if |buf| > 0 {
      LinesFromResult(parse, st, buf, 0);
    }
  }

  /** A single line, without a newline or a NUL in it, is handed to the line parser as it is. */
  lemma OneLine(parse: LineParser, st: RegState, line: string)
    requires line != [] && '\n' !in line && '\0' !in line
    ensures var (r, st') := parse(st, line);
      ParseLinesOp(parse, st, line) == (if r < 0 then r else |line|, st')
  {
    assert line[0..|line|] == line;
  }

  /**
   * The first line of a longer write is handed to the line parser first;
   * when it succeeds, the rest of the write is parsed, from the state it
   * left, as if written on its own.
   */
  lemma FirstLine(parse: LineParser, st: RegState, line: string, more: string)
    requires line != [] && '\n' !in line && '\0' !in line
    requires more != [] && more[0] != '\n'
    ensures var buf := line + "\n" + more;
      var (r, st1) := parse(st, line);
      var (r2, st2) := ParseLinesOp(parse, st1, more);
      ParseLinesOp(parse, st, buf) == if r < 0 then (r, st1) else (if r2 < 0 then r2 else |buf|, st2)
  {
    var pre := line + "\n";
    var buf := pre + more;
    assert buf == line + "\n" + more;
    var n := |line|;
    assert forall j :: 0 <= j < n ==> buf[j] == line[j];
    assert buf[n] == '\n';
    NextNewlineAt(buf, 0, n);
    assert buf[0..n] == line;
    assert SkipNewlines(buf, n + 1) == n + 1;
    var (r, st1) := parse(st, line);
    if r >= 0 {
      LinesShift(parse, st1, pre, more, 0);
    }
  }

  /** Parsing the tail of a buffer from a line start is parsing that tail alone, up to the count reported. */
  lemma {:induction false} LinesShift(parse: LineParser, st: RegState, pre: string, more: string, pos: nat)
    requires pos < |more|
    ensures var (r, st') := LinesFrom(parse, st, more, pos);
      LinesFrom(parse, st, pre + more, |pre| + pos) == (if r < 0 then r else |pre + more|, st')
    decreases |more| - pos
  {
    var e := LineEnd(more, pos);
    ShiftStep(pre, more, pos);
    var (r, st1) := parse(st, more[pos..e]);
    if r >= 0 {
      var next := SkipNewlines(more, e);
      if next < |more| {
        LinesShift(parse, st1, pre, more, next);
      }
    }
  }

  /** One line of the tail, seen from the whole buffer: the same line, and the same newlines after it. */
  lemma ShiftStep(pre: string, more: string, pos: nat)
    requires pos < |more|
    ensures var buf := pre + more;
      var e := LineEnd(more, pos);
      LineEnd(buf, |pre| + pos) == |pre| + e && buf[|pre| + pos..|pre| + e] == more[pos..e] &&
      SkipNewlines(buf, |pre| + e) == |pre| + SkipNewlines(more, e)
  {
    ShiftNewline(pre, more, pos);
    var e := LineEnd(more, pos);
    ShiftSkip(pre, more, e);
    var buf := pre + more;
    assert buf[|pre| + pos..|pre| + e] == more[pos..e];
  }

  lemma {:induction false} ShiftNewline(pre: string, more: string, pos: nat)
    requires pos <= |more|
    ensures NextNewline(pre + more, |pre| + pos) ==
      match NextNewline(more, pos) case Some(k) => Some(|pre| + k) case None => None
    decreases |more| - pos
  {
    var buf := pre + more;
    if pos < |more| {
      assert buf[|pre| + pos] == more[pos];
      if more[pos] != '\0' && more[pos] != '\n' {
        ShiftNewline(pre, more, pos + 1);
      }
    }
  }

  lemma {:induction false} ShiftSkip(pre: string, more: string, p: nat)
    requires p <= |more|
    ensures SkipNewlines(pre + more, |pre| + p) == |pre| + SkipNewlines(more, p)
    decreases |more| - p
  {
    var buf := pre + more;
    if p < |more| {
      assert buf[|pre| + p] == more[p];
      if more[p] == '\n' {
        ShiftSkip(pre, more, p + 1);
      }
    }
  }

  // ---------------------------------------------------------------------
  // The line parsers on the context

  /** A parsed command applied to the context through its add function. */
  method RunCommand(ctx: Context, env: Env, cmd: Command) returns (r: int)
    modifies ctx
    ensures (r, ctx.State()) == Execute(old(ctx.State()), env, ctx.maxRetries, cmd)
    ensures ctx.initialized == old(ctx.initialized)
  {
    match cmd
    case NewSmbusMaster(addr, id, n) => r := ctx.SmbusMasterAdd(env, addr, id, n);
    case NewMdioMaster(addr, id, n, speed) => r := ctx.MdioMasterAdd(env, addr, id, n, speed);
    case NewMdioDevice(m, b, id, pa, d, c) => r := ctx.MdioDeviceAdd(env, m, b, id, pa, d, c);
    case NewPeripheral(obj) => r := ctx.PeripheralAdd(env, obj);
  }

  /** The walk of parse_new_object over the table's names. */
  method FindObject(tok: string) returns (i: nat)
    ensures i == NameIndex(tok, 0)
    ensures i < |ObjectNames| ==> ObjectNames[i] == tok
  {
    i := 0;
    while i < |ObjectNames| && ObjectNames[i] != tok
      invariant i <= |ObjectNames|
      invariant NameIndex(tok, i) == NameIndex(tok, 0)
      decreases |ObjectNames| - i
    {
      i := i + 1;
    }
  }

  /** parse_new_object */
  method ParseNewObject(ctx: Context, env: Env, line: string) returns (r: int)
    modifies ctx
    ensures (r, ctx.State()) == NewObjectOp(old(ctx.State()), env, ctx.resSize, ctx.maxRetries, line)
    ensures ctx.initialized == old(ctx.initialized)
  {
    if |line| >= MAX_CONFIG_LINE_SIZE {
      return -EINVAL;
    }
    var (tok, rest) := Strsep(Some(CStr(line)));
    var i := FindObject(tok.value);
    if i == |ObjectNames| {
      return -EINVAL;
    }
    var parsed := ArgsFor(i, rest, ctx.resSize);
    if parsed.Err? {
      return parsed.code;
    }
    r := RunCommand(ctx, env, parsed.value);
    if r >= 0 {
      r := |line|;
    }
  }

  /** parse_smbus_tweak */
  method ParseSmbusTweak(ctx: Context, env: Env, line: string) returns (r: int)
    modifies ctx
    ensures (r, ctx.State()) == SmbusTweakOp(old(ctx.State()), env, line)
    ensures ctx.initialized == old(ctx.initialized)
  {
    if |line| >= MAX_CONFIG_LINE_SIZE {
      return -EINVAL;
    }
    var parsed := TweakArgs(Some(CStr(line)));
    if parsed.Err? {
      return parsed.code;
    }
    var (bus, p) := parsed.value;
    var err := ctx.SetSmbusParams(env, bus, p);
    r := if err == 0 then |line| else err;
  }

  method ParseLine(kind: LineKind, ctx: Context, env: Env, line: string) returns (r: int)
    modifies ctx
    ensures (r, ctx.State()) == LineOp(kind, old(ctx.State()), env, ctx.resSize, ctx.maxRetries, line)
    ensures ctx.initialized == old(ctx.initialized)
  {
    match kind
    case NewObjects => r := ParseNewObject(ctx, env, line);
    case SmbusTweaks => r := ParseSmbusTweak(ctx, env, line);
  }

  /** strnchr(buf + pos, left, '\n') */
  method Strnchr(buf: string, pos: nat, left: nat) returns (nl: Option<nat>)
    requires pos + left == |buf|
    ensures nl == NextNewline(buf, pos)
  {
    var k := pos;
    while k < pos + left && buf[k] != '\0'
      invariant pos <= k <= |buf|
      invariant NextNewline(buf, k) == NextNewline(buf, pos)
      decreases |buf| - k
    {
      if buf[k] == '\n' {
        return Some(k);
      }
      k := k + 1;
    }
    return None;
  }

  /** parse_lines */
  method ParseLines(kind: LineKind, ctx: Context, env: Env, buf: string) returns (r: int)
    modifies ctx
    ensures (r, ctx.State()) == ParseLinesOp(ParserOf(kind, env, ctx.resSize, ctx.maxRetries), old(ctx.State()), buf)
    ensures ctx.initialized == old(ctx.initialized)
  {
    if |buf| == 0 {
      return 0;
    }
    var left := |buf|;
    var pos := 0;
    while true
      invariant pos < |buf| && left == |buf| - pos
      invariant ctx.initialized == old(ctx.initialized)
      invariant LinesFrom(ParserOf(kind, env, ctx.resSize, ctx.maxRetries), ctx.State(), buf, pos) ==
        ParseLinesOp(ParserOf(kind, env, ctx.resSize, ctx.maxRetries), old(ctx.State()), buf)
      decreases left
    {
      var nl := Strnchr(buf, pos, left);
      var e := if nl.Some? then nl.value else pos + left;
      assert e == LineEnd(buf, pos);
      var res := ParseLine(kind, ctx, env, buf[pos..e]);
      if res < 0 {
        return res;
      }
      assert res == e - pos;
      left := left - res;
      pos := e;
      while left > 0 && buf[pos] == '\n'
        invariant e <= pos <= |buf| && left == |buf| - pos
        invariant SkipNewlines(buf, pos) == SkipNewlines(buf, e)
        decreases left
      {
        pos := pos + 1;
        left := left - 1;
      }
      if left == 0 {
        break;
      }
    }
    r := |buf|;
  }

  /** The new_object attribute: refused once the context is initialized, and without a context. */
  method NewObjectStore(ctx: Context?, env: Env, buf: string) returns (r: int)
    modifies ctx
    ensures ctx == null ==> r == -ENODEV
    ensures ctx != null && old(ctx.initialized) ==> r == -EBUSY && ctx.State() == old(ctx.State())
    ensures ctx != null && !old(ctx.initialized) ==>
      (r, ctx.State()) == ParseLinesOp(ParserOf(NewObjects, env, ctx.resSize, ctx.maxRetries), old(ctx.State()), buf)
    ensures ctx != null ==> ctx.initialized == old(ctx.initialized)
  {
    if ctx == null {
      return -ENODEV;
    }
    if ctx.initialized {
      return -EBUSY;
    }
    r := ParseLines(NewObjects, ctx, env, buf);
  }

  /** The smbus_tweaks attribute, written. */
  method SmbusTweaksStore(ctx: Context?, env: Env, buf: string) returns (r: int)
    modifies ctx
    ensures ctx == null ==> r == -ENODEV
    ensures ctx != null ==>
      (r, ctx.State()) == ParseLinesOp(ParserOf(SmbusTweaks, env, ctx.resSize, ctx.maxRetries), old(ctx.State()), buf)
    ensures ctx != null ==> ctx.initialized == old(ctx.initialized)
  {
    if ctx == null {
      return -ENODEV;
    }
    r := ParseLines(SmbusTweaks, ctx, env, buf);
  }
}
