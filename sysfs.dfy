/**
 * The conversions and small decisions of the sysfs-backed inventory objects
 * (arista/core/driver/kernel/sysfs.py): the memoised entry path, the linear
 * pwm scaling, boolean entries, the LED value/colour maps, RGB LEDs, GPIO
 * polarity, and fan health and speed.
 *
 * An entry's file holds an integer; the text written and parsed around it
 * (Python's `str` and `int`) is not modelled. A missing entry is `None`.
 */
module Sysfs {
  import opened Registry

  // ---------------------------------------------------------------------
  // SysfsEntry.entryPath

  /** A sysfs entry whose path is asked of a callback once and then remembered. */
  class Entry {
    const name: string
    const pathCallback: string -> string
    var entryPath_: Option<string>
    /** How many times the callback has been run. */
    ghost var callbackRuns: nat

    ghost predicate Valid()
      reads this
    {
      && (entryPath_.Some? ==> entryPath_.value == pathCallback(name))
      && callbackRuns == (if entryPath_.Some? then 1 else 0)
    }

    constructor (name: string, pathCallback: string -> string)
      ensures Valid()
      ensures this.name == name && this.pathCallback == pathCallback && entryPath_ == None
    {
      this.name := name;
      this.pathCallback := pathCallback;
      entryPath_ := None;
      callbackRuns := 0;
    }

    /** The path; the callback runs on the first access only. */
    method EntryPath() returns (path: string)
      requires Valid()
      modifies this
      ensures Valid()
      ensures path == pathCallback(name) && entryPath_ == Some(path)
      ensures callbackRuns == 1
      ensures old(entryPath_).Some? ==> callbackRuns == old(callbackRuns)
    {
      if entryPath_.None? {
        entryPath_ := Some(pathCallback(name));
        callbackRuns := callbackRuns + 1;
      }
      path := entryPath_.value;
    }
  }

  // ---------------------------------------------------------------------
  // SysfsEntryIntLinear

  /** Python's `//`: the quotient rounded toward minus infinity. */
  function FloorDiv(a: int, b: int): (q: int)
    requires b != 0
    ensures b > 0 ==> b * q <= a < b * q + b
    ensures b < 0 ==> b * q + b < a <= b * q
  {
    if b > 0 then a / b else (-a) / (-b)
  }

  /**
   * _linearConversion: shift by the source range's start, scale by the
   * target range's width, floor-divide by the source range's end, shift by
   * the target range's start. `None` is Python's ZeroDivisionError.
   */
  function Linear(value: int, fromRange: (int, int), toRange: (int, int)): (r: Option<int>)
    ensures r.None? <==> fromRange.1 == 0
    ensures r.Some? && fromRange.1 > 0 ==>
      var n := (value - fromRange.0) * (toRange.1 - toRange.0);
      fromRange.1 * (r.value - toRange.0) <= n < fromRange.1 * (r.value - toRange.0) + fromRange.1
  {
    if fromRange.1 == 0 then None
    else Some(FloorDiv((value - fromRange.0) * (toRange.1 - toRange.0), fromRange.1) + toRange.0)
  }

  const PWM_PERCENT_RANGE: (int, int) := (0, 100)

  /** The fan pwm entry read as percent: raw over (0, maxPwm) scaled to (0, 100). */
  function ReadPwm(raw: int, maxPwm: int): (r: Option<int>)
    ensures r.Some? <==> maxPwm != 0
    ensures maxPwm > 0 && 0 <= raw <= maxPwm ==> 0 <= r.value <= 100
  {
    var r := Linear(raw, (0, maxPwm), PWM_PERCENT_RANGE);
    if maxPwm > 0 && 0 <= raw <= maxPwm then
      PercentBounds(raw, maxPwm, r.value);
      r
    else r
  }

  /** A floor quotient of raw * 100 by maxPwm lies in 0..100 when raw does in 0..maxPwm. */
  lemma PercentBounds(raw: int, maxPwm: int, q: int)
    requires 0 <= raw <= maxPwm && maxPwm > 0
    requires maxPwm * q <= raw * 100 < maxPwm * q + maxPwm
    ensures 0 <= q <= 100
  {
    assert maxPwm * (q + 1) > 0;
    PositiveFactor(maxPwm, q + 1);
    assert maxPwm * q <= maxPwm * 100;
    FactorLe(maxPwm, q, 100);
  }

  lemma PositiveFactor(d: int, a: int)
    requires d > 0 && d * a > 0
    ensures a > 0
  {
  }

  lemma FactorLe(d: int, a: int, b: int)
    requires d > 0 && d * a <= d * b
    ensures a <= b
  {
  }

  /** The fan pwm entry written from percent, with the ranges swapped; the division is by 100. */
  function WritePwm(speed: int, maxPwm: int): (raw: int)
    ensures 100 * raw <= speed * maxPwm < 100 * raw + 100
  {
    Linear(speed, PWM_PERCENT_RANGE, (0, maxPwm)).value
  }

  /** Raw 0 reads as 0 percent and raw maxPwm as 100; a zero maxPwm fails every read. */
  lemma PwmReadEnds(maxPwm: int)
    ensures maxPwm != 0 ==> ReadPwm(0, maxPwm) == Some(0) && ReadPwm(maxPwm, maxPwm) == Some(100)
    ensures maxPwm == 0 ==> ReadPwm(0, maxPwm).None?
  {
    if maxPwm != 0 {
      FloorDivExact(100, maxPwm);
    }
  }

  /** 0 percent writes raw 0 and 100 percent writes raw maxPwm. */
  lemma PwmWriteEnds(maxPwm: int)
    ensures WritePwm(0, maxPwm) == 0 && WritePwm(100, maxPwm) == maxPwm
  {
    FloorDivExact(maxPwm, 100);
  }

  lemma FloorDivExact(q: int, b: int)
    requires b != 0
    ensures FloorDiv(q * b, b) == q
  {
    var r := FloorDiv(q * b, b);
    if b > 0 {
      if r < q {
        MulMono(b, r + 1, q);
        assert false;
      } else if r > q {
        MulMono(b, q + 1, r);
        assert false;
      }
    } else {
      if r < q {
        MulMono(-b, r + 1, q);
        assert false;
      } else if r > q {
        MulMono(-b, q + 1, r);
        assert false;
      }
    }
  }

  lemma MulMono(d: nat, a: int, b: int)
    requires a <= b
    ensures d * a <= d * b
  {
    assert d * b == d * a + d * (b - a);
  }

  /**
   * Writing a speed and reading it back never overshoots, and with a raw
   * range of at least 100 steps it loses at most one percent.
   */
  lemma PwmRoundTrip(speed: int, maxPwm: int)
    requires maxPwm > 0
    ensures ReadPwm(WritePwm(speed, maxPwm), maxPwm).Some?
    ensures ReadPwm(WritePwm(speed, maxPwm), maxPwm).value <= speed
    ensures maxPwm >= 100 ==> ReadPwm(WritePwm(speed, maxPwm), maxPwm).value >= speed - 1
  {
    var raw := WritePwm(speed, maxPwm);
    var back := ReadPwm(raw, maxPwm).value;
    assert maxPwm * back <= raw * 100 < maxPwm * back + maxPwm;
    if back > speed {
      MulMono(maxPwm, speed + 1, back);
      assert false;
    }
    if maxPwm >= 100 && back < speed - 1 {
      MulMono(maxPwm, back + 2, speed);
      assert false;
    }
  }

  // ---------------------------------------------------------------------
  // SysfsEntryBool

  /** A boolean entry reads as true when its integer is non-zero. */
  function BoolRead(value: int): bool {
    value != 0
  }

  /** And is written as 1 or 0. */
  function BoolWrite(b: bool): (value: int)
    ensures value == 0 || value == 1
  {
    if b then 1 else 0
  }

  lemma BoolRoundTrip(b: bool)
    ensures BoolRead(BoolWrite(b)) == b
  {
  }

  // ---------------------------------------------------------------------
  // Dictionaries built from their items, and inverted

  /** The dictionary of a list of items; a later item wins. */
  function ToMap<K, V>(items: seq<(K, V)>): (m: map<K, V>)
    ensures forall i :: 0 <= i < |items| ==> items[i].0 in m
    ensures forall k :: k in m ==> exists i :: 0 <= i < |items| && items[i] == (k, m[k])
  {
    if |items| == 0 then map[]
    else ToMap(items[..|items| - 1])[items[|items| - 1].0 := items[|items| - 1].1]
  }

  /** `{v: k for k, v in items}`: the inverse of a dictionary given by its items, a later item winning. */
  function Invert<K, V>(items: seq<(K, V)>): (m: map<V, K>)
    ensures forall i :: 0 <= i < |items| ==> items[i].1 in m
    ensures forall v :: v in m ==> exists i :: 0 <= i < |items| && items[i].1 == v
  {
    if |items| == 0 then map[]
    else Invert(items[..|items| - 1])[items[|items| - 1].1 := items[|items| - 1].0]
  }

  /** A dictionary's items have distinct keys. */
  predicate DistinctKeys<K(==), V>(items: seq<(K, V)>) {
    forall i, j :: 0 <= i < j < |items| ==> items[i].0 != items[j].0
  }

  /** A Python dictionary, as its items in insertion order: no key appears twice. */
  type Dict<K(==), V> = items: seq<(K, V)> | DistinctKeys(items) witness []

  /** With distinct keys, each item's key maps to its value. */
  lemma {:induction false} ToMapItem<K, V>(items: seq<(K, V)>, i: nat)
    requires DistinctKeys(items) && i < |items|
    ensures ToMap(items)[items[i].0] == items[i].1
  {
    var n := |items| - 1;
    if i < n {
      ToMapItem(items[..n], i);
    }
  }

  /** The inverse sends each value to an item's key carrying that value. */
  lemma {:induction false} InvertItem<K, V>(items: seq<(K, V)>, v: V)
    requires v in Invert(items)
    ensures exists i :: 0 <= i < |items| && items[i] == (Invert(items)[v], v)
  {
    var n := |items| - 1;
    if items[n].1 != v {
      InvertItem(items[..n], v);
      var i :| 0 <= i < n && items[..n][i] == (Invert(items[..n])[v], v);
      assert items[i] == (Invert(items)[v], v);
    } else {
      assert items[n] == (Invert(items)[v], v);
    }
  }

  /**
   * The inverse undoes the dictionary: for every value it holds, the key it
   * gives maps back to that value.
   */
  lemma InvertUndoes<K, V>(items: seq<(K, V)>, v: V)
    requires DistinctKeys(items) && v in Invert(items)
    ensures Invert(items)[v] in ToMap(items) && ToMap(items)[Invert(items)[v]] == v
  {
    InvertItem(items, v);
    var i :| 0 <= i < |items| && items[i] == (Invert(items)[v], v);
    ToMapItem(items, i);
  }

  // ---------------------------------------------------------------------
  // SysfsEntryCustomLed

  /** The colours of the inventory; any other colour value is `Unlisted`. */
  datatype LedColor = Off | Green | Red | Blue | Amber | Unlisted(name: string)

  /** The default brightness-to-colour items. */
  const DEFAULT_VALUE_COLORS: Dict<int, LedColor> := [(0, Off), (1, Green), (2, Red), (3, Amber)]

  /** `value2color or {...}`: missing or empty items fall back to the default. */
  function ValueColors(given: Option<Dict<int, LedColor>>): (items: Dict<int, LedColor>)
    ensures |items| > 0
    ensures given.Some? && |given.value| > 0 ==> items == given.value
  {
    if given.Some? && |given.value| > 0 then given.value else DEFAULT_VALUE_COLORS
  }

  /** Reading a brightness: its colour, or `None` for Python's KeyError. */
  function CustomLedRead(items: Dict<int, LedColor>, value: int): (c: Option<LedColor>)
    ensures c.Some? <==> value in ToMap(items)
  {
    var m := ToMap(items);
    if value in m then Some(m[value]) else None
  }

  /** Writing a colour: its brightness through the inverted items, or `None` for KeyError. */
  function CustomLedWrite(items: Dict<int, LedColor>, color: LedColor): (v: Option<int>)
    ensures v.Some? <==> exists i :: 0 <= i < |items| && items[i].1 == color
  {
    var m := Invert(items);
    if color in m then Some(m[color]) else None
  }

  /** Every colour the items hold can be written, and reads back as itself. */
  lemma CustomLedRoundTrip(items: Dict<int, LedColor>, color: LedColor)
    requires exists i :: 0 <= i < |items| && items[i].1 == color
    ensures CustomLedWrite(items, color).Some?
    ensures CustomLedRead(items, CustomLedWrite(items, color).value) == Some(color)
  {
    InvertUndoes(items, color);
  }

  /** With the default items, off, green, red and amber round-trip, and the other colours cannot be written. */
  lemma DefaultLedColors(color: LedColor)
    ensures color in {Off, Green, Red, Amber} ==>
      var v := CustomLedWrite(DEFAULT_VALUE_COLORS, color);
      v.Some? && CustomLedRead(DEFAULT_VALUE_COLORS, v.value) == Some(color)
    ensures color !in {Off, Green, Red, Amber} ==> CustomLedWrite(DEFAULT_VALUE_COLORS, color).None?
  {
    var items := DEFAULT_VALUE_COLORS;
    if color in {Off, Green, Red, Amber} {
      var i := if color == Off then 0 else if color == Green then 1 else if color == Red then 2 else 3;
      assert items[i].1 == color;
      CustomLedRoundTrip(items, color);
    }
  }

  // ---------------------------------------------------------------------
  // LedRgbSysfsImpl

  /** The colours the RGB table lists. */
  predicate RgbListed(color: LedColor) {
    color in {Off, Red, Green, Blue, Amber}
  }

  /** `color2values.get(color, (0, 0, 0))`: the (red, green, blue) brightnesses of a colour. */
  function RgbValues(color: LedColor): (values: seq<int>)
    ensures |values| == 3
    ensures !RgbListed(color) ==> values == [0, 0, 0]
  {
    match color
    case Off => [0, 0, 0]
    case Red => [1, 0, 0]
    case Green => [0, 1, 0]
    case Blue => [0, 0, 1]
    case Amber => [1, 1, 0]
    case Unlisted(_) => [0, 0, 0]
  }

  /** `values2color.get(values)`: the inverted table. */
  function ValuesColor(values: seq<int>): Option<LedColor> {
    if values == [0, 0, 0] then Some(Off)
    else if values == [1, 0, 0] then Some(Red)
    else if values == [0, 1, 0] then Some(Green)
    else if values == [0, 0, 1] then Some(Blue)
    else if values == [1, 1, 0] then Some(Amber)
    else None
  }

  /** The two tables are inverse: each listed colour's triple maps back to it, and each triple that maps to a colour is that colour's. */
  lemma RgbInverse(color: LedColor, values: seq<int>)
    ensures RgbListed(color) ==> ValuesColor(RgbValues(color)) == Some(color)
    ensures ValuesColor(values).Some? ==>
      RgbListed(ValuesColor(values).value) && RgbValues(ValuesColor(values).value) == values
  {
  }

  /** The brightnesses after writing `values` to the entries that exist; missing ones stay missing. */
  function Written(brightness: seq<Option<int>>, values: seq<int>): (b: seq<Option<int>>)
    requires |brightness| == |values|
    ensures |b| == |brightness|
    ensures forall i :: 0 <= i < |b| ==> b[i] == if brightness[i].Some? then Some(values[i]) else None
  {
    seq(|brightness|, i requires 0 <= i < |brightness| => if brightness[i].Some? then Some(values[i]) else None)
  }

  /** getColor: a missing entry reads as 0; a triple outside the table is `None`. */
  function RgbColor(brightness: seq<Option<int>>): (c: Option<LedColor>)
    ensures |brightness| != 3 ==> c.None?
    ensures c.Some? ==> RgbListed(c.value)
    ensures c.Some? ==>
      forall i :: 0 <= i < 3 ==> RgbValues(c.value)[i] == if brightness[i].Some? then brightness[i].value else 0
  {
    ValuesColor(seq(|brightness|, i requires 0 <= i < |brightness| => if brightness[i].Some? then brightness[i].value else 0))
  }

  /** With every entry present, a listed colour reads back as itself and any other colour as off. */
  lemma RgbRoundTrip(brightness: seq<Option<int>>, color: LedColor)
    requires |brightness| == 3 && forall i :: 0 <= i < 3 ==> brightness[i].Some?
    ensures RgbColor(Written(brightness, RgbValues(color))) == Some(if RgbListed(color) then color else Off)
  {
    var w := Written(brightness, RgbValues(color));
    assert seq(3, i requires 0 <= i < 3 => if w[i].Some? then w[i].value else 0) == RgbValues(color);
    RgbInverse(color, RgbValues(color));
  }

  /** An RGB LED: its red, green and blue brightness entries, `None` where an entry is missing. */
  class RgbLed {
    var brightness: seq<Option<int>>

    constructor (brightness: seq<Option<int>>)
      requires |brightness| == 3
      ensures this.brightness == brightness
    {
      this.brightness := brightness;
    }

    /** setColor: write the colour's triple to each existing entry. */
    method SetColor(color: LedColor) returns (ok: bool)
      requires |brightness| == 3
      modifies this
      ensures brightness == Written(old(brightness), RgbValues(color))
      ensures ok
    {
      var values := RgbValues(color);
      var i := 0;
      while i < 3
        invariant 0 <= i <= 3 && |brightness| == 3
        invariant forall j :: 0 <= j < i ==> brightness[j] == if old(brightness)[j].Some? then Some(values[j]) else None
        invariant forall j :: i <= j < 3 ==> brightness[j] == old(brightness)[j]
      {
        if brightness[i].Some? {
          brightness := brightness[i := Some(values[i])];
        }
        i := i + 1;
      }
      ok := true;
    }

    /** getColor. */
    function GetColor(): (c: Option<LedColor>)
      reads this
      ensures c.Some? ==> RgbListed(c.value)
      ensures |brightness| == 3 && (forall i :: 0 <= i < 3 ==> brightness[i] == Some(0)) ==> c == Some(Off)
    {
      RgbColor(brightness)
    }
  }

  // ---------------------------------------------------------------------
  // GpioSysfsImpl

  /** isActiveLow: a line inverted in hardware is read as active high. */
  function IsActiveLow(activeLow: bool, hwActiveLow: bool): bool {
    if hwActiveLow then false else activeLow
  }

  /** _activeValue. */
  function ActiveValue(activeLow: bool, hwActiveLow: bool): (v: int)
    ensures v == BoolWrite(!IsActiveLow(activeLow, hwActiveLow))
  {
    if IsActiveLow(activeLow, hwActiveLow) then 0 else 1
  }

  /** isActive: the raw boolean compared with the active value; always true in simulation. */
  function IsActive(raw: bool, activeLow: bool, hwActiveLow: bool, inSimulation: bool): (a: bool)
    ensures !inSimulation ==> (a <==> raw != IsActiveLow(activeLow, hwActiveLow))
  {
    if inSimulation then true else BoolWrite(raw) == ActiveValue(activeLow, hwActiveLow)
  }

  /** setActive: the raw value written for `value`. */
  function SetActiveRaw(value: bool, activeLow: bool, hwActiveLow: bool): (raw: bool)
    ensures raw == (value != IsActiveLow(activeLow, hwActiveLow))
  {
    if IsActiveLow(activeLow, hwActiveLow) then !value else value
  }

  /** Against an entry that keeps what is written, isActive after setActive(v) is v. */
  lemma GpioRoundTrip(value: bool, activeLow: bool, hwActiveLow: bool)
    ensures IsActive(BoolRead(BoolWrite(SetActiveRaw(value, activeLow, hwActiveLow))), activeLow, hwActiveLow, false)
      == value
  {
    BoolRoundTrip(SetActiveRaw(value, activeLow, hwActiveLow));
  }

  // ---------------------------------------------------------------------
  // FanSysfsImpl

  /**
   * getFault: true when the fault GPIO exists and is active, else false when
   * the fault entry is missing, else the entry's value.
   */
  function GetFault(faultGpioActive: Option<bool>, faultEntry: Option<bool>): (fault: bool)
    ensures fault <==> faultGpioActive == Some(true) || faultEntry == Some(true)
  {
    if faultGpioActive.Some? && faultGpioActive.value then true
    else if faultEntry.None? then false
    else faultEntry.value
  }

  /** getStatus: false when the fan is absent, else not faulted. */
  function GetStatus(present: bool, fault: bool): (ok: bool)
    ensures ok ==> present
    ensures present ==> ok == !fault
  {
    if !present then false else !fault
  }

  /** A fan is healthy exactly when it is present and neither its GPIO nor its fault entry reports a fault. */
  lemma FanHealthy(present: bool, faultGpioActive: Option<bool>, faultEntry: Option<bool>)
    ensures GetStatus(present, GetFault(faultGpioActive, faultEntry))
      <==> present && faultGpioActive != Some(true) && faultEntry != Some(true)
  {
  }

  const MAX_FAN_SPEED: int := 100

  /** What setSpeed logs. */
  datatype SpeedLog = ReducedFromMax | SetToMax | Quiet

  /** A fan's pwm entry and the last speed asked of it. */
  class FanSpeed {
    const maxPwm: int
    var lastSpeed: Option<int>
    /** The pwm entry's raw value; `None` when it is missing. */
    var pwm: Option<int>

    constructor (maxPwm: int, pwm: Option<int>)
      ensures this.maxPwm == maxPwm && this.pwm == pwm && lastSpeed == None
    {
      this.maxPwm := maxPwm;
      this.pwm := pwm;
      lastSpeed := None;
    }

    /** setSpeed: log leaving or reaching full speed, remember the speed, write it scaled. */
    method SetSpeed(speed: int) returns (ok: bool, log: SpeedLog)
      modifies this
      ensures lastSpeed == Some(speed)
      ensures log == ReducedFromMax <==> old(lastSpeed) == Some(MAX_FAN_SPEED) && speed != MAX_FAN_SPEED
      ensures log == SetToMax <==> old(lastSpeed) != Some(MAX_FAN_SPEED) && speed == MAX_FAN_SPEED
      ensures ok <==> old(pwm).Some?
      ensures pwm == if ok then Some(WritePwm(speed, maxPwm)) else None
    {
      if lastSpeed == Some(MAX_FAN_SPEED) && speed != MAX_FAN_SPEED {
        log := ReducedFromMax;
      } else if lastSpeed != Some(MAX_FAN_SPEED) && speed == MAX_FAN_SPEED {
        log := SetToMax;
      } else {
        log := Quiet;
      }
      lastSpeed := Some(speed);
      if pwm.Some? {
        pwm := Some(WritePwm(speed, maxPwm));
        ok := true;
      } else {
        ok := false;
      }
    }

    /** getSpeed: the pwm entry in percent, 0 when it is missing; `None` when maxPwm is 0. */
    function Speed(): (s: Option<int>)
      reads this
      ensures pwm.None? ==> s == Some(0)
      ensures pwm.Some? ==> (s.Some? <==> maxPwm != 0)
      ensures pwm.Some? && 0 <= pwm.value <= maxPwm && maxPwm > 0 ==> 0 <= s.value <= 100
    {
      if pwm.Some? then ReadPwm(pwm.value, maxPwm) else Some(0)
    }
  }

  // ---------------------------------------------------------------------
  // GenericSysfsImpl._getOr

  /** _getOr: the entry's value when it exists, else the first default that is not None. */
  method GetOr<T>(entry: Option<T>, defaults: seq<Option<T>>) returns (r: Option<T>)
    ensures entry.Some? ==> r == entry
    ensures entry.None? && r.None? ==> forall i :: 0 <= i < |defaults| ==> defaults[i].None?
    ensures entry.None? && r.Some? ==>
      exists i :: 0 <= i < |defaults| && defaults[i] == r && forall j :: 0 <= j < i ==> defaults[j].None?
  {
    if entry.Some? {
      return entry;
    }
    var i := 0;
    while i < |defaults|
      invariant 0 <= i <= |defaults|
      invariant forall j :: 0 <= j < i ==> defaults[j].None?
    {
      if defaults[i].Some? {
        return defaults[i];
      }
      i := i + 1;
    }
    return None;
  }
}
