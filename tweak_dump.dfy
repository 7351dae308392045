/**
 * Reading the smbus_tweaks attribute: the tuning table of every bus of
 * every SMBus master, one entry per line, as much as fits in a page.
 */
module TweakDump {
  import opened Errno
  import opened Numbers
  import opened Tuning
  import opened Registry

  /** One entry: master/bus/address, the adapter number, then the four values, on a line of its own. */
  function TweakLine(m: SmbusMaster, b: SmbusBus, p: BusParams): string {
    TweakBody(m, b, p) + "\n"
  }

  function TweakBody(m: SmbusMaster, b: SmbusBus, p: BusParams): string {
    TweakKey(m, b, p) + ": adap=" + Decimal(b.nr) + TweakValues(p)
  }

  /** master/bus/address */
  function TweakKey(m: SmbusMaster, b: SmbusBus, p: BusParams): string {
    Decimal(Signed32(m.id)) + "/" + Decimal(b.id) + "/" + Hex02(p.addr as nat)
  }

  function TweakValues(p: BusParams): string {
    " t=" + Decimal(p.t as int) + " datr=" + Decimal(p.datr as int) + " datw=" + Decimal(p.datw as int) +
    " ed=" + Decimal(p.ed as int)
  }

  /** How one entry is printed, given its master, its bus and the entry itself. */
  type EntryFormat = (SmbusMaster, SmbusBus, BusParams) -> string

  /** The first `k` entries of a bus's table, in list order. */
  function ParamsText(fmt: EntryFormat, m: SmbusMaster, b: SmbusBus, k: nat): string
    requires k <= |b.params|
  {
    if k == 0 then [] else ParamsText(fmt, m, b, k - 1) + fmt(m, b, b.params[k - 1])
  }

  /** The tables of a master's first `j` buses. */
  function BusesText(fmt: EntryFormat, m: SmbusMaster, j: nat): string
    requires j <= |m.buses|
  {
    if j == 0 then [] else BusesText(fmt, m, j - 1) + ParamsText(fmt, m, m.buses[j - 1], |m.buses[j - 1].params|)
  }

  /** The buses of the first `i` masters. */
  function MastersText(fmt: EntryFormat, ms: seq<SmbusMaster>, i: nat): string
    requires i <= |ms|
  {
    if i == 0 then [] else MastersText(fmt, ms, i - 1) + BusesText(fmt, ms[i - 1], |ms[i - 1].buses|)
  }

  /** Every master's buses, every bus's table: the whole listing when the page is large enough. */
  function TweaksText(ms: seq<SmbusMaster>): string {
    MastersText(TweakLine, ms, |ms|)
  }

  /** What fits in a page of `max` bytes, one byte kept for the final NUL. */
  function Clip(s: string, max: nat): (t: string)
    ensures max > 0 ==> |t| < max
  {
    if max == 0 then [] else if |s| < max then s else s[..max - 1]
  }

  /** scnprintf(buf, size, ...): the characters written, never more than size - 1. */
  function Scnprintf(s: string, size: nat): (t: string)
    ensures t <= s
    ensures size == 0 ==> t == []
    ensures size > 0 ==> |t| == if |s| < size then |s| else size - 1
  {
    if size == 0 then [] else if |s| < size then s else s[..size - 1]
  }

  /** A page of no bytes holds nothing. */
  lemma ClipNothing(s: string)
    ensures Clip(s, 0) == []
  {
  }

  /** Appending a line with scnprintf into the rest of the page clips the longer text. */
  lemma ClipAppend(s: string, out: string, line: string, max: nat)
    requires out == Clip(s, max)
    ensures out + Scnprintf(line, max - |out|) == Clip(s + line, max)
    ensures |out + Scnprintf(line, max - |out|)| == max ==> max == 0
  {
    if max > 0 {
      if |s| < max {
        if |s + line| >= max {
          assert (s + line)[..max - 1] == s + line[..max - 1 - |s|];
        }
      } else {
        assert (s + line)[..max - 1] == s[..max - 1];
      }
    }
  }

  /**
   * The innermost loop of scd_dump_smbus_tweaks, over one bus's table,
   * appending to a page that holds the clipped text `s` so far; it stops
   * when the page is full, which only a page of no bytes at all can be.
   */
  method DumpParams(fmt: EntryFormat, m: SmbusMaster, b: SmbusBus, ghost s: string, out0: string, max: nat)
    returns (out: string, full: bool)
    requires out0 == Clip(s, max)
    ensures out == Clip(s + ParamsText(fmt, m, b, |b.params|), max)
    ensures full ==> max == 0
  {
    out, full := out0, false;
    var k := 0;
    ghost var text := s;
    while k < |b.params|
      invariant 0 <= k <= |b.params|
      invariant text == s + ParamsText(fmt, m, b, k)
      invariant out == Clip(text, max)
      decreases |b.params| - k
    {
      var line := fmt(m, b, b.params[k]);
      ClipAppend(text, out, line, max);
      out := out + Scnprintf(line, max - |out|);
      text := text + line;
      if |out| == max {
        return out, true;
      }
      k := k + 1;
    }
  }

  /** One more bus appends its table to the text so far. */
  lemma BusesStep(fmt: EntryFormat, m: SmbusMaster, s: string, j: nat)
    requires j < |m.buses|
    ensures s + BusesText(fmt, m, j + 1) == s + BusesText(fmt, m, j) + ParamsText(fmt, m, m.buses[j], |m.buses[j].params|)
  {
    assert BusesText(fmt, m, j + 1) == BusesText(fmt, m, j) + ParamsText(fmt, m, m.buses[j], |m.buses[j].params|);
  }

  /** The middle loop, over one master's buses. */
  method DumpBuses(fmt: EntryFormat, m: SmbusMaster, ghost s: string, out0: string, max: nat)
    returns (out: string, full: bool)
    requires out0 == Clip(s, max)
    ensures out == Clip(s + BusesText(fmt, m, |m.buses|), max)
    ensures full ==> max == 0
  {
    out, full := out0, false;
    var j := 0;
    while j < |m.buses|
      invariant 0 <= j <= |m.buses|
      invariant out == Clip(s + BusesText(fmt, m, j), max)
      decreases |m.buses| - j
    {
      var b := m.buses[j];
      ghost var pre := s + BusesText(fmt, m, j);
      BusesStep(fmt, m, s, j);
      out, full := DumpParams(fmt, m, b, pre, out, max);
      if full {
        ClipNothing(s + BusesText(fmt, m, |m.buses|));
        return;
      }
      j := j + 1;
    }
  }

  /** One more master appends its buses' tables to the text so far. */
  lemma MastersStep(fmt: EntryFormat, ms: seq<SmbusMaster>, i: nat)
    requires i < |ms|
    ensures MastersText(fmt, ms, i + 1) == MastersText(fmt, ms, i) + BusesText(fmt, ms[i], |ms[i].buses|)
  {
  }

  /** One pass of the outer loop: master `i` appends its buses' tables. */
  method DumpMaster(fmt: EntryFormat, ms: seq<SmbusMaster>, i: nat, out0: string, max: nat)
    returns (out: string, full: bool)
    requires i < |ms|
    requires out0 == Clip(MastersText(fmt, ms, i), max)
    ensures out == Clip(MastersText(fmt, ms, i + 1), max)
    ensures full ==> max == 0
  {
    MastersStep(fmt, ms, i);
    out, full := DumpBuses(fmt, ms[i], MastersText(fmt, ms, i), out0, max);
  }

  /** What the outer loop keeps: the page holds the first `i` masters' text, clipped. */
  predicate MastersDumped(fmt: EntryFormat, ms: seq<SmbusMaster>, i: nat, out: string, max: nat, full: bool) {
    i <= |ms| && out == Clip(MastersText(fmt, ms, i), max) && (full ==> max == 0)
  }

  /** The outer loop, over the masters; it stops early once the page is full. */
  method DumpMasters(fmt: EntryFormat, ms: seq<SmbusMaster>, max: nat) returns (out: string)
    ensures out == Clip(MastersText(fmt, ms, |ms|), max)
  {
    out := [];
    var i, full := 0, false;
    while i < |ms| && !full
      invariant MastersDumped(fmt, ms, i, out, max, full)
      decreases |ms| - i
    {
      out, full := DumpMaster(fmt, ms, i, out, max);
      i := i + 1;
    }
    if full {
      ClipNothing(MastersText(fmt, ms, |ms|));
    }
  }

  /** scd_dump_smbus_tweaks: the listing, clipped to the page, and always one byte short of it. */
  method DumpSmbusTweaks(ctx: Context, max: nat) returns (out: string)
    ensures out == Clip(TweaksText(ctx.smbus), max)
    ensures max > 0 ==> |out| < max
  {
    out := DumpMasters(TweakLine, ctx.smbus, max);
  }

  /** The clipped text is the start of the listing: all of it when it fits, else one byte short of the page. */
  lemma ClipSpec(s: string, max: nat)
    ensures Clip(s, max) <= s
    ensures |s| < max ==> Clip(s, max) == s
    ensures max > 0 && |s| >= max ==> |Clip(s, max)| == max - 1
  {
  }

  // ---------------------------------------------------------------------
  // One line per entry

  function Newlines(s: string): nat {
    multiset(s)['\n']
  }

  lemma DigitsNoNewline(n: nat, base: nat)
    requires 2 <= base <= 16
    ensures '\n' !in Digits(n, base)
  {
    var d := Digits(n, base);
    assert DigitValue('\n') == 16;
    assert forall i :: 0 <= i < |d| ==> d[i] != '\n';
  }

  lemma DecimalNoNewline(i: int)
    ensures '\n' !in Decimal(i)
  {
    DigitsNoNewline(if i < 0 then -i else i, 10);
  }

  lemma KeyNoNewline(m: SmbusMaster, b: SmbusBus, p: BusParams)
    ensures '\n' !in TweakKey(m, b, p)
  {
    DecimalNoNewline(Signed32(m.id));
    DecimalNoNewline(b.id);
    DigitsNoNewline(p.addr as nat, 16);
  }

  lemma ValuesNoNewline(p: BusParams)
    ensures '\n' !in TweakValues(p)
  {
    DecimalNoNewline(p.t as int);
    DecimalNoNewline(p.datr as int);
    DecimalNoNewline(p.datw as int);
    DecimalNoNewline(p.ed as int);
  }

  lemma BodyNoNewline(m: SmbusMaster, b: SmbusBus, p: BusParams)
    ensures '\n' !in TweakBody(m, b, p)
  {
    KeyNoNewline(m, b, p);
    ValuesNoNewline(p);
    DecimalNoNewline(b.nr);
  }

  lemma EndsLine(s: string)
    requires '\n' !in s
    ensures Newlines(s + "\n") == 1
  {
  }

  /** Each entry is printed on a line of its own. */
  lemma TweakLineOneLine(m: SmbusMaster, b: SmbusBus, p: BusParams)
    ensures Newlines(TweakLine(m, b, p)) == 1
  {
    BodyNoNewline(m, b, p);
    EndsLine(TweakBody(m, b, p));
  }

  /** The number of entries in the tables of the first `i` masters. */
  function EntryCount(ms: seq<SmbusMaster>, i: nat): nat
    requires i <= |ms|
  {
    if i == 0 then 0 else EntryCount(ms, i - 1) + BusEntryCount(ms[i - 1], |ms[i - 1].buses|)
  }

  function BusEntryCount(m: SmbusMaster, j: nat): nat
    requires j <= |m.buses|
  {
    if j == 0 then 0 else BusEntryCount(m, j - 1) + |m.buses[j - 1].params|
  }

  /** A format that prints every entry on a line of its own. */
  ghost predicate OneLineEach(fmt: EntryFormat) {
    forall m, b, p :: Newlines(fmt(m, b, p)) == 1
  }

  lemma NewlinesAppend(s: string, t: string)
    ensures Newlines(s + t) == Newlines(s) + Newlines(t)
  {
  }

  lemma {:induction false} ParamsLines(fmt: EntryFormat, m: SmbusMaster, b: SmbusBus, k: nat)
    requires OneLineEach(fmt) && k <= |b.params|
    ensures Newlines(ParamsText(fmt, m, b, k)) == k
  {
    if k > 0 {
      ParamsLines(fmt, m, b, k - 1);
      NewlinesAppend(ParamsText(fmt, m, b, k - 1), fmt(m, b, b.params[k - 1]));
    }
  }

  lemma {:induction false} BusesLines(fmt: EntryFormat, m: SmbusMaster, j: nat)
    requires OneLineEach(fmt) && j <= |m.buses|
    ensures Newlines(BusesText(fmt, m, j)) == BusEntryCount(m, j)
  {
    if j > 0 {
      BusesLines(fmt, m, j - 1);
      var b := m.buses[j - 1];
      ParamsLines(fmt, m, b, |b.params|);
      NewlinesAppend(BusesText(fmt, m, j - 1), ParamsText(fmt, m, b, |b.params|));
    }
  }

  lemma {:induction false} MastersLines(fmt: EntryFormat, ms: seq<SmbusMaster>, i: nat)
    requires OneLineEach(fmt) && i <= |ms|
    ensures Newlines(MastersText(fmt, ms, i)) == EntryCount(ms, i)
  {
    if i > 0 {
      MastersLines(fmt, ms, i - 1);
      BusesLines(fmt, ms[i - 1], |ms[i - 1].buses|);
      NewlinesAppend(MastersText(fmt, ms, i - 1), BusesText(fmt, ms[i - 1], |ms[i - 1].buses|));
    }
  }

  /** The full listing has one line for every entry of every bus's table. */
  lemma ListingLines(ms: seq<SmbusMaster>)
    ensures Newlines(TweaksText(ms)) == EntryCount(ms, |ms|)
  {
    forall m, b, p ensures Newlines(TweakLine(m, b, p)) == 1 {
      TweakLineOneLine(m, b, p);
    }
    MastersLines(TweakLine, ms, |ms|);
  }

  /** The show side of the smbus_tweaks attribute, on a page. */
  method ShowSmbusTweaks(ctx: Context?) returns (r: Result<string>)
    ensures ctx == null ==> r == Err(-ENODEV)
    ensures ctx != null ==> r == Ok(Clip(TweaksText(ctx.smbus), PAGE_SIZE))
  {
    if ctx == null {
      return Err(-ENODEV);
    }
    var out := DumpSmbusTweaks(ctx, PAGE_SIZE);
    return Ok(out);
  }

  const PAGE_SIZE: nat := 4096
}
