/**
 * The register bit attributes of the driver: GPIO lines, transceiver
 * status and control bits with their clear-on-read latches, reset lines
 * driven through a set/clear register pair, the fan LED, fault and
 * tachometer registers, and the LED brightness table. The register file
 * itself is outside the model: a register read is a parameter, and a
 * register write is a result.
 */
module RegisterBits {
  import opened Errno
  import opened Numbers
  import opened Registry

  /** A bit index of a u32 register; shifting 1 by 32 or more is undefined in C. */
  type BitIndex = b: bv32 | b < 32

  function Mask(bit: BitIndex): bv32 {
    1 << bit
  }

  predicate BitSet(reg: bv32, bit: BitIndex) {
    reg & Mask(bit) != 0
  }

  lemma MaskNonZero(bit: BitIndex)
    ensures Mask(bit) != 0
  {
  }

  // Facts about one mask, one per lemma: the solver handles each alone far faster than together.

  lemma OrMeets(reg: bv32, m: bv32)
    requires m != 0
    ensures (reg | m) & m != 0
  {
  }

  lemma OrKeepsRest(reg: bv32, m: bv32)
    ensures (reg | m) & !m == reg & !m
  {
  }

  lemma OrIdle(reg: bv32, m: bv32)
    ensures reg & m == m ==> reg | m == reg
  {
  }

  lemma AndNotMisses(reg: bv32, m: bv32)
    ensures (reg & !m) & m == 0
  {
  }

  lemma AndNotKeepsRest(reg: bv32, m: bv32)
    ensures (reg & !m) & !m == reg & !m
  {
  }

  lemma AndNotIdle(reg: bv32, m: bv32)
    ensures reg & m == 0 ==> reg & !m == reg
  {
  }

  lemma SetBit(reg: bv32, bit: BitIndex)
    ensures BitSet(reg | Mask(bit), bit)
    ensures (reg | Mask(bit)) & !Mask(bit) == reg & !Mask(bit)
    ensures BitSet(reg, bit) ==> reg | Mask(bit) == reg
  {
    MaskNonZero(bit);
    SingleBit(reg, bit);
    OrMeets(reg, Mask(bit));
    OrKeepsRest(reg, Mask(bit));
    OrIdle(reg, Mask(bit));
  }

  lemma ClearBit(reg: bv32, bit: BitIndex)
    ensures !BitSet(reg & !Mask(bit), bit)
    ensures (reg & !Mask(bit)) & !Mask(bit) == reg & !Mask(bit)
    ensures !BitSet(reg, bit) ==> reg & !Mask(bit) == reg
  {
    AndNotMisses(reg, Mask(bit));
    AndNotKeepsRest(reg, Mask(bit));
    AndNotIdle(reg, Mask(bit));
  }

  /** A mask has one bit: a word meets it exactly when it holds all of it. */
  lemma SingleBit(reg: bv32, bit: BitIndex)
    ensures BitSet(reg, bit) <==> reg & Mask(bit) == Mask(bit)
  {
  }

  /** Two words that agree outside the mask of `bit` agree on every other bit. */
  lemma OutsideBit(a: bv32, b: bv32, bit: BitIndex, j: BitIndex)
    requires a & !Mask(bit) == b & !Mask(bit) && j != bit
    ensures BitSet(a, j) == BitSet(b, j)
  {
  }

  function Flag(b: bool): nat {
    if b then 1 else 0
  }

  /** The text a "%u\n" show routine writes. */
  function ShowU32(v: nat): string {
    Decimal(v) + "\n"
  }

  /**
   * What the store routines of GPIO, transceiver and reset attributes
   * accept: kstrtol in base 10, and then only the values 0 and 1.
   */
  function ParseFlag(buf: string): (r: Result<bool>)
    ensures r.Ok? <==> Kstrtol(buf) == Ok(0) || Kstrtol(buf) == Ok(1)
    ensures r.Ok? ==> Kstrtol(buf) == Ok(Flag(r.value))
    ensures r.Err? ==> r.code == -EINVAL || r.code == -ERANGE
  {
    var v :- Kstrtol(buf);
    if v != 0 && v != 1 then Err(-EINVAL) else Ok(v == 1)
  }

  /** What a show routine writes for a 0/1 value, a store routine reads back. */
  lemma ParseFlagShow(b: bool)
    ensures ParseFlag(ShowU32(Flag(b))) == Ok(b)
  {
    var s := ShowU32(Flag(b));
    assert Digits(Flag(b), 10) == [DigitChar(Flag(b))];
    assert s == [if b then '1' else '0', '\n'];
    assert DigitRun(s, 10, 1) == 0;
    assert DigitRun(s, 10, 0) == 1;
  }

  /** A register write: the address and the word. */
  datatype RegWrite = RegWrite(addr: bv32, word: bv32)

  /** The outcome of a store routine: what it returns and the register write it makes, if any. */
  datatype StoreResult = StoreResult(ret: int, write: Option<RegWrite>)

  // ---------------------------------------------------------------------
  // GPIO lines

  /** Whether a line is active: its bit, inverted for an active-low line. */
  predicate Level(reg: bv32, bit: BitIndex, activeLow: bool) {
    BitSet(reg, bit) != activeLow
  }

  /** attribute_gpio_get: 1 for an active line, 0 for an inactive one. */
  function GpioValue(reg: bv32, bit: BitIndex, activeLow: bool): (v: nat)
    ensures v == Flag(Level(reg, bit, activeLow))
  {
    var res := if BitSet(reg, bit) then 1 else 0;
    if activeLow then (if res == 0 then 1 else 0) else res
  }

  function GpioShow(reg: bv32, bit: BitIndex, activeLow: bool): string {
    ShowU32(GpioValue(reg, bit, activeLow))
  }

  /**
   * The read-modify-write of attribute_gpio_set and attribute_xcvr_set as
   * the driver writes it: the active-low clear ORs in the complement of
   * the bit's mask.
   */
  function UpdateAsWritten(reg: bv32, bit: BitIndex, activeLow: bool, value: bool): bv32 {
    if activeLow then
      if value then reg & !Mask(bit) else reg | !Mask(bit)
    else
      if value then reg | Mask(bit) else reg & !Mask(bit)
  }

  /** As written, making an active-low line inactive leaves its bit alone and sets every other bit. */
  lemma ActiveLowClearAsWritten(reg: bv32, bit: BitIndex)
    ensures BitSet(UpdateAsWritten(reg, bit, true, false), bit) == BitSet(reg, bit)
    ensures UpdateAsWritten(reg, bit, true, false) | Mask(bit) == 0xFFFF_FFFF
  {
    var m := Mask(bit);
    assert (reg | !m) & m == reg & m;
    assert (reg | !m) | m == 0xFFFF_FFFF;
  }

  /** So writing 0 to an active line leaves it active, and the other 31 bits of the register are lost. */
  lemma ActiveLowClearFails()
    ensures UpdateAsWritten(0, 0, true, false) == 0xFFFF_FFFE
    ensures Level(UpdateAsWritten(0, 0, true, false), 0, true)
  {
  }

  /** The update the store routines evidently intend: the line takes the level `value`, no other bit moves. */
  function Update(reg: bv32, bit: BitIndex, activeLow: bool, value: bool): (r: bv32)
    ensures Level(r, bit, activeLow) == value
    ensures r & !Mask(bit) == reg & !Mask(bit)
  {
    WriteBit(reg, bit, value != activeLow)
  }

  /** Driving a line to the level it already has leaves the register as it was. */
  lemma UpdateIdle(reg: bv32, bit: BitIndex, activeLow: bool)
    ensures Update(reg, bit, activeLow, Level(reg, bit, activeLow)) == reg
  {
    if BitSet(reg, bit) {
      SetBit(reg, bit);
    } else {
      ClearBit(reg, bit);
    }
  }

  /** The two agree everywhere except the active-low clear. */
  lemma UpdateAgrees(reg: bv32, bit: BitIndex, activeLow: bool, value: bool)
    requires !activeLow || value
    ensures UpdateAsWritten(reg, bit, activeLow, value) == Update(reg, bit, activeLow, value)
  {
  }

  /** attribute_gpio_set with the corrected update: parse the flag, then read-modify-write the line's register. */
  function GpioSet(buf: string, count: int, addr: bv32, reg: bv32, bit: BitIndex, activeLow: bool): (r: StoreResult)
    ensures r.write.Some? <==> ParseFlag(buf).Ok?
    ensures r.write.None? ==> r.ret == ParseFlag(buf).code && r.ret < 0
    ensures r.write.Some? ==>
      r.ret == count && r.write.value == RegWrite(addr, Update(reg, bit, activeLow, ParseFlag(buf).value))
  {
    match ParseFlag(buf)
    case Err(e) => StoreResult(e, None)
    case Ok(value) => StoreResult(count, Some(RegWrite(addr, Update(reg, bit, activeLow, value))))
  }

  /** Writing back what the show routine read leaves the register as it was. */
  lemma GpioEcho(count: int, addr: bv32, reg: bv32, bit: BitIndex, activeLow: bool)
    ensures GpioSet(GpioShow(reg, bit, activeLow), count, addr, reg, bit, activeLow)
      == StoreResult(count, Some(RegWrite(addr, reg)))
  {
    var b := Level(reg, bit, activeLow);
    ParseFlagShow(b);
    assert GpioShow(reg, bit, activeLow) == ShowU32(Flag(b));
    UpdateIdle(reg, bit, activeLow);
  }

  /** As written, echoing the 0 an active-low line with its bit set shows sets every other bit. */
  lemma GpioEchoAsWritten()
    ensures !Level(1, 0, true)
    ensures UpdateAsWritten(1, 0, true, false) == 0xFFFF_FFFF
  {
  }

  // ---------------------------------------------------------------------
  // Transceiver attributes

  const XCVR_ATTR_MAX_COUNT: nat := 9

  /** The configuration of a transceiver's attribute i, which reads and drives bit i. */
  datatype XcvrAttr = XcvrAttr(activeLow: bool, clearOnRead: bool)

  /** Attribute i's latch after a read: set once its bit is seen set, if it is clear-on-read. */
  function LatchBit(a: XcvrAttr, was: bool, reg: bv32, i: nat): (l: bool)
    requires i < XCVR_ATTR_MAX_COUNT
    ensures was ==> l
    ensures l ==> was || BitSet(reg, i as bv32)
    ensures !a.clearOnRead ==> l == was
  {
    if a.clearOnRead then was || BitSet(reg, i as bv32) else was
  }

  /** The latches after one read of the register: each clear-on-read bit seen set is latched. */
  function Latch(attrs: seq<XcvrAttr>, latched: seq<bool>, reg: bv32): (l: seq<bool>)
    requires |attrs| == |latched| == XCVR_ATTR_MAX_COUNT
    ensures |l| == XCVR_ATTR_MAX_COUNT
    ensures forall k :: 0 <= k < XCVR_ATTR_MAX_COUNT ==> l[k] == LatchBit(attrs[k], latched[k], reg, k)
  {
    seq(XCVR_ATTR_MAX_COUNT, i requires 0 <= i < XCVR_ATTR_MAX_COUNT => LatchBit(attrs[i], latched[i], reg, i))
  }

  /** The latches after a series of reads. */
  function LatchAll(attrs: seq<XcvrAttr>, latched: seq<bool>, regs: seq<bv32>): (l: seq<bool>)
    requires |attrs| == |latched| == XCVR_ATTR_MAX_COUNT
    ensures |l| == XCVR_ATTR_MAX_COUNT
    ensures forall k :: 0 <= k < XCVR_ATTR_MAX_COUNT && latched[k] ==> l[k]
    ensures forall k :: 0 <= k < XCVR_ATTR_MAX_COUNT && !attrs[k].clearOnRead ==> l[k] == latched[k]
    ensures forall k :: 0 <= k < XCVR_ATTR_MAX_COUNT && l[k] && !latched[k] ==> attrs[k].clearOnRead
    decreases |regs|
  {
    if regs == [] then latched
    else LatchAll(attrs, Latch(attrs, latched, regs[0]), regs[1..])
  }

  /**
   * A latch is set after a series of reads exactly when it was set before,
   * or its attribute is clear-on-read and one of the reads saw the bit set.
   */
  lemma {:induction false} LatchAllSticky(attrs: seq<XcvrAttr>, latched: seq<bool>, regs: seq<bv32>, i: nat)
    requires |attrs| == |latched| == XCVR_ATTR_MAX_COUNT && i < XCVR_ATTR_MAX_COUNT
    ensures LatchAll(attrs, latched, regs)[i]
      <==> latched[i] || (attrs[i].clearOnRead && exists k :: 0 <= k < |regs| && BitSet(regs[k], i as bv32))
    decreases |regs|
  {
    if regs != [] {
      var rest := regs[1..];
      var next := Latch(attrs, latched, regs[0]);
      assert next[i] == LatchBit(attrs[i], latched[i], regs[0], i);
      LatchAllSticky(attrs, next, rest, i);
      if attrs[i].clearOnRead {
        if k :| 0 <= k < |rest| && BitSet(rest[k], i as bv32) {
          assert regs[k + 1] == rest[k];
        }
        if k :| 0 <= k < |regs| && BitSet(regs[k], i as bv32) {
          if k > 0 {
            assert rest[k - 1] == regs[k];
          }
        }
      }
    }
  }

  /** A transceiver: the configuration of its attributes and the latches the reads accumulate. */
  class Xcvr {
    const attrs: seq<XcvrAttr>
    var latched: seq<bool>

    ghost predicate Valid()
      reads this
    {
      |attrs| == XCVR_ATTR_MAX_COUNT && |latched| == XCVR_ATTR_MAX_COUNT
    }

    /** A transceiver as registered: nothing is latched. */
    constructor (attrs: seq<XcvrAttr>)
      requires |attrs| == XCVR_ATTR_MAX_COUNT
      ensures Valid() && this.attrs == attrs && latched == seq(XCVR_ATTR_MAX_COUNT, _ => false)
    {
      this.attrs := attrs;
      latched := seq(XCVR_ATTR_MAX_COUNT, _ => false);
    }

    /** scd_xcvr_read_register: the register word, with every clear-on-read bit seen set latched. */
    method ReadRegister(reg: bv32) returns (r: bv32)
      requires Valid()
      modifies this
      ensures Valid() && r == reg && latched == Latch(attrs, old(latched), reg)
    {
      ghost var was := latched;
      ghost var seen := Latch(attrs, was, reg);
      var i := 0;
      while i < XCVR_ATTR_MAX_COUNT
        invariant 0 <= i <= XCVR_ATTR_MAX_COUNT && |latched| == XCVR_ATTR_MAX_COUNT
        invariant forall k :: 0 <= k < XCVR_ATTR_MAX_COUNT ==> latched[k] == if k < i then seen[k] else was[k]
      {
        if attrs[i].clearOnRead {
          latched := latched[i := LatchBit(attrs[i], latched[i], reg, i)];
        }
        i := i + 1;
      }
      assert latched == seen;
      r := reg;
    }

    /**
     * attribute_xcvr_get: the level as for a GPIO line; for a clear-on-read
     * attribute, ORed with its latch, which the read then clears.
     */
    method Get(bit: nat, reg: bv32) returns (text: string)
      requires Valid() && bit < XCVR_ATTR_MAX_COUNT
      modifies this
      ensures Valid()
      ensures var seen := Latch(attrs, old(latched), reg);
        text == ShowU32(Flag((BitSet(reg, bit as bv32) != attrs[bit].activeLow) || (attrs[bit].clearOnRead && seen[bit])))
        && latched == if attrs[bit].clearOnRead then seen[bit := false] else seen
    {
      var r := ReadRegister(reg);
      var res := GpioValue(r, bit as bv32, attrs[bit].activeLow);
      if attrs[bit].clearOnRead {
        res := if latched[bit] || res == 1 then 1 else 0;
        latched := latched[bit := false];
      }
      text := ShowU32(res);
    }

    /**
     * attribute_xcvr_set: the GPIO store on the transceiver's register;
     * once the flag parses, the register read latches as any read does.
     */
    method Set(buf: string, count: int, addr: bv32, bit: nat, reg: bv32) returns (r: StoreResult)
      requires Valid() && bit < XCVR_ATTR_MAX_COUNT
      modifies this
      ensures Valid()
      ensures r == GpioSet(buf, count, addr, reg, bit as bv32, attrs[bit].activeLow)
      ensures latched == if ParseFlag(buf).Ok? then Latch(attrs, old(latched), reg) else old(latched)
    {
      var flag := ParseFlag(buf);
      if flag.Err? {
        return StoreResult(flag.code, None);
      }
      var word := ReadRegister(reg);
      r := StoreResult(count, Some(RegWrite(addr, Update(word, bit as bv32, attrs[bit].activeLow, flag.value))));
    }
  }

  // ---------------------------------------------------------------------
  // Reset lines

  const RESET_SET_OFFSET: bv32 := 0x00
  const RESET_CLEAR_OFFSET: bv32 := 0x10

  /** attribute_reset_get: the line's bit. */
  function ResetValue(reg: bv32, bit: BitIndex): (v: nat)
    ensures v == Flag(BitSet(reg, bit))
  {
    if BitSet(reg, bit) then 1 else 0
  }

  /** The write attribute_reset_set makes for a flag: the bit's mask, at the set or the clear register. */
  function ResetWrite(addr: bv32, bit: BitIndex, value: bool): (w: RegWrite)
    ensures w.addr == addr + if value then RESET_SET_OFFSET else RESET_CLEAR_OFFSET
    ensures w.word == Mask(bit)
    ensures BitSet(w.word, bit) && w.word & !Mask(bit) == 0
  {
    var offset := if value then RESET_SET_OFFSET else RESET_CLEAR_OFFSET;
    SetBit(0, bit);
    RegWrite(addr + offset, Mask(bit))
  }

  /** attribute_reset_set: parse the flag, then make its write. */
  function ResetSet(buf: string, count: int, addr: bv32, bit: BitIndex): (r: StoreResult)
    ensures r.write.Some? <==> ParseFlag(buf).Ok?
    ensures r.write.None? ==> r.ret == ParseFlag(buf).code && r.ret < 0
    ensures r.write.Some? ==> r.ret == count && r.write.value == ResetWrite(addr, bit, ParseFlag(buf).value)
  {
    match ParseFlag(buf)
    case Err(e) => StoreResult(e, None)
    case Ok(value) => StoreResult(count, Some(ResetWrite(addr, bit, value)))
  }

  /**
   * The reset block as the driver uses it: the register at `addr` holds
   * the lines; a word written at the set offset sets its bits, a word
   * written at the clear offset clears them.
   */
  function ResetApply(lines: bv32, addr: bv32, w: RegWrite): bv32 {
    if w.addr == addr + RESET_SET_OFFSET then lines | w.word
    else if w.addr == addr + RESET_CLEAR_OFFSET then lines & !w.word
    else lines
  }

  /** A mask written at the set offset sets its bits. */
  lemma ApplySet(lines: bv32, addr: bv32, word: bv32, w: RegWrite)
    requires w.addr == addr + RESET_SET_OFFSET && w.word == word
    ensures ResetApply(lines, addr, w) == lines | word
  {
  }

  /** A mask written at the clear offset clears them. */
  lemma ApplyClear(lines: bv32, addr: bv32, word: bv32, w: RegWrite)
    requires w.addr == addr + RESET_CLEAR_OFFSET && w.word == word
    ensures ResetApply(lines, addr, w) == lines & !word
  {
  }

  /** A word written at any other address leaves the lines alone. */
  lemma ApplyOther(lines: bv32, addr: bv32, w: RegWrite)
    requires w.addr != addr + RESET_SET_OFFSET && w.addr != addr + RESET_CLEAR_OFFSET
    ensures ResetApply(lines, addr, w) == lines
  {
  }

  /** A flag's write drives the line to the flag. */
  lemma ResetWriteLine(lines: bv32, addr: bv32, bit: BitIndex, value: bool)
    ensures BitSet(ResetApply(lines, addr, ResetWrite(addr, bit, value)), bit) == value
  {
    if value {
      ApplySet(lines, addr, Mask(bit), ResetWrite(addr, bit, value));
      SetBit(lines, bit);
    } else {
      ApplyClear(lines, addr, Mask(bit), ResetWrite(addr, bit, value));
      ClearBit(lines, bit);
    }
  }

  /** And moves no other line. */
  lemma ResetWriteOthers(lines: bv32, addr: bv32, bit: BitIndex, value: bool)
    ensures ResetApply(lines, addr, ResetWrite(addr, bit, value)) & !Mask(bit) == lines & !Mask(bit)
  {
    if value {
      ApplySet(lines, addr, Mask(bit), ResetWrite(addr, bit, value));
      SetBit(lines, bit);
    } else {
      ApplyClear(lines, addr, Mask(bit), ResetWrite(addr, bit, value));
      ClearBit(lines, bit);
    }
  }

  /** Writing a flag's text to a reset attribute makes the line read back that flag, and no other line moves. */
  lemma ResetRoundTrip(b: bool, count: int, addr: bv32, bit: BitIndex, lines: bv32)
    ensures var r := ResetSet(ShowU32(Flag(b)), count, addr, bit);
      r.write.Some? && r.ret == count
      && ResetValue(ResetApply(lines, addr, r.write.value), bit) == Flag(b)
      && ResetApply(lines, addr, r.write.value) & !Mask(bit) == lines & !Mask(bit)
  {
    ParseFlagShow(b);
    var r := ResetSet(ShowU32(Flag(b)), count, addr, bit);
    assert r == StoreResult(count, Some(ResetWrite(addr, bit, b)));
    ResetWriteLine(lines, addr, bit, b);
    ResetWriteOthers(lines, addr, bit, b);
  }

  // ---------------------------------------------------------------------
  // Fans

  /** scd_fan_fault_show: 1 when the fan's bit in the ok register is clear. */
  function FanFault(reg: bv32, index: BitIndex): (v: nat)
    ensures v == Flag(!BitSet(reg, index))
  {
    if reg & Mask(index) == 0 then 1 else 0
  }

  /** scd_fan_led_read: the green mask if the fan's green bit is set, plus the red mask if its red bit is, in u32. */
  function FanLedRead(regG: bv32, regR: bv32, index: BitIndex, maskGreen: bv32, maskRed: bv32): bv32 {
    var val: bv32 := 0;
    var val := if BitSet(regG, index) then val + maskGreen else val;
    if BitSet(regR, index) then val + maskRed else val
  }

  /** A register with one bit set or cleared. */
  function WriteBit(reg: bv32, index: BitIndex, on: bool): (w: bv32)
    ensures BitSet(w, index) == on && w & !Mask(index) == reg & !Mask(index)
  {
    if on then SetBit(reg, index); reg | Mask(index)
    else ClearBit(reg, index); reg & !Mask(index)
  }

  /** Writing a bit its present value leaves the register as it was. */
  lemma WriteBitIdle(reg: bv32, index: BitIndex)
    ensures WriteBit(reg, index, BitSet(reg, index)) == reg
  {
    if BitSet(reg, index) {
      SetBit(reg, index);
    } else {
      ClearBit(reg, index);
    }
  }

  /** scd_fan_led_write: the words written to the green and red registers. */
  function FanLedWrite(regG: bv32, regR: bv32, index: BitIndex, maskGreen: bv32, maskRed: bv32, val: bv32): (w: (bv32, bv32))
    ensures BitSet(w.0, index) == (val & maskGreen != 0) && BitSet(w.1, index) == (val & maskRed != 0)
    ensures w.0 & !Mask(index) == regG & !Mask(index) && w.1 & !Mask(index) == regR & !Mask(index)
  {
    var green := WriteBit(regG, index, val & maskGreen != 0);
    var red := WriteBit(regR, index, val & maskRed != 0);
    (green, red)
  }

  /** Adding disjoint masks is joining them. */
  lemma SumIsOr(a: bv32, b: bv32)
    requires a & b == 0
    ensures a + b == a | b
  {
  }

  /** The read in each of its four cases. */
  lemma ReadOff(regG: bv32, regR: bv32, index: BitIndex, maskGreen: bv32, maskRed: bv32)
    requires !BitSet(regG, index) && !BitSet(regR, index)
    ensures FanLedRead(regG, regR, index, maskGreen, maskRed) == 0
  {
  }

  lemma ReadGreen(regG: bv32, regR: bv32, index: BitIndex, maskGreen: bv32, maskRed: bv32)
    requires BitSet(regG, index) && !BitSet(regR, index)
    ensures FanLedRead(regG, regR, index, maskGreen, maskRed) == maskGreen
  {
  }

  lemma ReadRed(regG: bv32, regR: bv32, index: BitIndex, maskGreen: bv32, maskRed: bv32)
    requires !BitSet(regG, index) && BitSet(regR, index)
    ensures FanLedRead(regG, regR, index, maskGreen, maskRed) == maskRed
  {
  }

  lemma ReadBoth(regG: bv32, regR: bv32, index: BitIndex, maskGreen: bv32, maskRed: bv32)
    requires maskGreen & maskRed == 0
    requires BitSet(regG, index) && BitSet(regR, index)
    ensures FanLedRead(regG, regR, index, maskGreen, maskRed) == maskGreen | maskRed
  {
    SumIsOr(maskGreen, maskRed);
  }

  // What each of the four values meets, over disjoint masks.

  lemma MeetsGreen(maskGreen: bv32, maskRed: bv32, val: bv32)
    requires maskGreen & maskRed == 0 && val == maskGreen
    ensures val & maskGreen == maskGreen && val & maskRed == 0
  {
  }

  lemma MeetsRed(maskGreen: bv32, maskRed: bv32, val: bv32)
    requires maskGreen & maskRed == 0 && val == maskRed
    ensures val & maskGreen == 0 && val & maskRed == maskRed
  {
  }

  lemma MeetsBoth(maskGreen: bv32, maskRed: bv32, val: bv32)
    requires maskGreen & maskRed == 0 && val == maskGreen | maskRed
    ensures val & maskGreen == maskGreen && val & maskRed == maskRed
  {
  }

  // Reading after writing each of the four values, one value per lemma.

  lemma RoundTripOff(regG: bv32, regR: bv32, index: BitIndex, maskGreen: bv32, maskRed: bv32, val: bv32)
    requires val == 0
    ensures var w := FanLedWrite(regG, regR, index, maskGreen, maskRed, val);
      FanLedRead(w.0, w.1, index, maskGreen, maskRed) == val
  {
    var w := FanLedWrite(regG, regR, index, maskGreen, maskRed, val);
    ReadOff(w.0, w.1, index, maskGreen, maskRed);
  }

  lemma RoundTripGreen(regG: bv32, regR: bv32, index: BitIndex, maskGreen: bv32, maskRed: bv32, val: bv32)
    requires maskGreen & maskRed == 0 && maskGreen != 0 && val == maskGreen
    ensures var w := FanLedWrite(regG, regR, index, maskGreen, maskRed, val);
      FanLedRead(w.0, w.1, index, maskGreen, maskRed) == val
  {
    MeetsGreen(maskGreen, maskRed, val);
    var w := FanLedWrite(regG, regR, index, maskGreen, maskRed, val);
    ReadGreen(w.0, w.1, index, maskGreen, maskRed);
  }

  lemma RoundTripRed(regG: bv32, regR: bv32, index: BitIndex, maskGreen: bv32, maskRed: bv32, val: bv32)
    requires maskGreen & maskRed == 0 && maskRed != 0 && val == maskRed
    ensures var w := FanLedWrite(regG, regR, index, maskGreen, maskRed, val);
      FanLedRead(w.0, w.1, index, maskGreen, maskRed) == val
  {
    MeetsRed(maskGreen, maskRed, val);
    var w := FanLedWrite(regG, regR, index, maskGreen, maskRed, val);
    ReadRed(w.0, w.1, index, maskGreen, maskRed);
  }

  lemma RoundTripBoth(regG: bv32, regR: bv32, index: BitIndex, maskGreen: bv32, maskRed: bv32, val: bv32)
    requires maskGreen & maskRed == 0 && maskGreen != 0 && maskRed != 0 && val == maskGreen | maskRed
    ensures var w := FanLedWrite(regG, regR, index, maskGreen, maskRed, val);
      FanLedRead(w.0, w.1, index, maskGreen, maskRed) == val
  {
    MeetsBoth(maskGreen, maskRed, val);
    var w := FanLedWrite(regG, regR, index, maskGreen, maskRed, val);
    ReadBoth(w.0, w.1, index, maskGreen, maskRed);
  }

  /**
   * With disjoint non-zero colour masks, writing off, green, red or both
   * (the green mask plus the red one, as the read adds them) reads back the
   * same value.
   */
  lemma FanLedRoundTrip(regG: bv32, regR: bv32, index: BitIndex, maskGreen: bv32, maskRed: bv32, val: bv32)
    requires maskGreen & maskRed == 0 && maskGreen != 0 && maskRed != 0
    requires val == 0 || val == maskGreen || val == maskRed || val == maskGreen + maskRed
    ensures var w := FanLedWrite(regG, regR, index, maskGreen, maskRed, val);
      FanLedRead(w.0, w.1, index, maskGreen, maskRed) == val
  {
    if val == 0 {
      RoundTripOff(regG, regR, index, maskGreen, maskRed, val);
    } else if val == maskGreen {
      RoundTripGreen(regG, regR, index, maskGreen, maskRed, val);
    } else if val == maskRed {
      RoundTripRed(regG, regR, index, maskGreen, maskRed, val);
    } else {
      SumIsOr(maskGreen, maskRed);
      RoundTripBoth(regG, regR, index, maskGreen, maskRed, val);
    }
  }

  /** Writing back a value that holds exactly the colours whose bits are set changes neither register. */
  lemma WriteBackIdle(regG: bv32, regR: bv32, index: BitIndex, maskGreen: bv32, maskRed: bv32, val: bv32)
    requires (val & maskGreen != 0) == BitSet(regG, index) && (val & maskRed != 0) == BitSet(regR, index)
    ensures FanLedWrite(regG, regR, index, maskGreen, maskRed, val) == (regG, regR)
  {
    WriteBitIdle(regG, index);
    WriteBitIdle(regR, index);
  }

  /** With disjoint non-zero colour masks, writing back what was read changes neither register. */
  lemma FanLedWriteBack(regG: bv32, regR: bv32, index: BitIndex, maskGreen: bv32, maskRed: bv32)
    requires maskGreen & maskRed == 0 && maskGreen != 0 && maskRed != 0
    ensures FanLedWrite(regG, regR, index, maskGreen, maskRed, FanLedRead(regG, regR, index, maskGreen, maskRed))
      == (regG, regR)
  {
    var val := FanLedRead(regG, regR, index, maskGreen, maskRed);
    if BitSet(regG, index) && BitSet(regR, index) {
      ReadBoth(regG, regR, index, maskGreen, maskRed);
      MeetsBoth(maskGreen, maskRed, val);
    } else if BitSet(regG, index) {
      ReadGreen(regG, regR, index, maskGreen, maskRed);
      MeetsGreen(maskGreen, maskRed, val);
    } else if BitSet(regR, index) {
      ReadRed(regG, regR, index, maskGreen, maskRed);
      MeetsRed(maskGreen, maskRed, val);
    } else {
      ReadOff(regG, regR, index, maskGreen, maskRed);
    }
    WriteBackIdle(regG, regR, index, maskGreen, maskRed, val);
  }

  const U32_MOD: nat := 0x1_0000_0000

  /** The tachometer formula on a non-zero count: hz * 60 in u32, over the count, over the pulses per turn. */
  function Rpm(tach: nat, hz: nat, pulses: nat): (r: nat)
    requires 0 < tach && 0 < pulses && hz <= U32_MAX && pulses <= U32_MAX
    ensures r <= U32_MAX
  {
    var x := (hz * 60) % U32_MOD;
    DivLe(x, tach);
    DivLe(x / tach, pulses);
    x / tach / pulses
  }

  /**
   * scd_fan_input_show: the tachometer count under the platform's mask,
   * or -EDOM when the count or the pulses are zero.
   */
  function FanRpm(reg: bv32, maskTach: bv32, hz: nat, pulses: nat): (r: Result<nat>)
    requires hz <= U32_MAX && pulses <= U32_MAX
    ensures r.Err? <==> reg & maskTach == 0 || pulses == 0
    ensures r.Err? ==> r.code == -EDOM
    ensures r.Ok? ==> r.value <= U32_MAX
  {
    var tach := (reg & maskTach) as nat;
    if tach != 0 && pulses != 0 then Ok(Rpm(tach, hz, pulses))
    else Err(-EDOM)
  }

  lemma MulLe(d: nat, a: nat, b: nat)
    requires a <= b
    ensures d * a <= d * b
  {
    assert d * b == d * a + d * (b - a);
  }

  lemma MulComm(a: nat, b: nat)
    ensures a * b == b * a
  {
  }

  /** A quotient is at most the dividend. */
  lemma DivLe(x: nat, d: nat)
    requires d > 0
    ensures x / d <= x
  {
    var q := x / d;
    var r := x % d;
    assert x == d * q + r;
    MulLe(q, 1, d);
    MulComm(q, d);
  }

  lemma MulSucc(d: nat, a: nat)
    ensures d * (a + 1) == d * a + d
  {
  }

  lemma Distrib(a: nat, b: nat, q: nat, r: nat)
    ensures a * (b * q + r) == (a * b) * q + a * r
  {
  }

  /** A quotient is determined by any decomposition with a remainder below the divisor. */
  lemma DivUnique(x: nat, d: nat, q: nat, r: nat)
    requires d > 0 && r < d && x == d * q + r
    ensures x / d == q
  {
    var q0 := x / d;
    var r0 := x % d;
    assert x == d * q0 + r0;
    if q0 > q {
      MulSucc(d, q);
      MulLe(d, q + 1, q0);
      assert false;
    } else if q0 < q {
      MulSucc(d, q0);
      MulLe(d, q0 + 1, q);
      assert false;
    }
  }

  /** The two remainders together stay below the product of the divisors. */
  lemma RemaindersBelow(a: nat, b: nat, r: nat, r2: nat)
    requires r < a && r2 < b
    ensures a * r2 + r < a * b
  {
    MulLe(a, r2, b - 1);
    MulSucc(a, b - 1);
  }

  /** Substituting one quotient-and-remainder into another. */
  lemma NestedSplit(x: nat, a: nat, b: nat, q: nat, r: nat, q2: nat, r2: nat)
    requires x == a * q + r && q == b * q2 + r2
    ensures x == (a * b) * q2 + (a * r2 + r)
  {
    Distrib(a, b, q2, r2);
  }

  /** Dividing by `a` and then by `b` splits `x` into a multiple of `a * b` and what is left over. */
  lemma DivDivSplit(x: nat, a: nat, b: nat)
    requires a > 0 && b > 0
    ensures x == (a * b) * (x / a / b) + (a * (x / a % b) + x % a)
  {
    NestedSplit(x, a, b, x / a, x % a, x / a / b, x / a % b);
  }

  /** Dividing by one divisor and then another is dividing by their product. */
  lemma DivDiv(x: nat, a: nat, b: nat)
    requires a > 0 && b > 0
    ensures x / a / b == x / (a * b)
  {
    DivDivSplit(x, a, b);
    RemaindersBelow(a, b, x % a, x / a % b);
    DivUnique(x, a * b, x / a / b, a * (x / a % b) + x % a);
  }

  /** The reading is turns per minute: the u32 product over count times pulses, exact when hz * 60 fits. */
  lemma RpmTurns(tach: nat, hz: nat, pulses: nat)
    requires 0 < tach && 0 < pulses && hz <= U32_MAX && pulses <= U32_MAX
    ensures Rpm(tach, hz, pulses) == (hz * 60) % U32_MOD / (tach * pulses)
    ensures hz * 60 < U32_MOD ==> Rpm(tach, hz, pulses) == hz * 60 / (tach * pulses)
  {
    var x := (hz * 60) % U32_MOD;
    assert Rpm(tach, hz, pulses) == x / tach / pulses;
    DivDiv(x, tach, pulses);
    if hz * 60 < U32_MOD {
      ModSmall(hz * 60, U32_MOD);
    }
  }

  lemma ModSmall(a: nat, m: nat)
    requires a < m
    ensures a % m == a
  {
  }

  // ---------------------------------------------------------------------
  // LEDs

  /** led_brightness_set: the word written for each brightness; anything past 6 is written as 3. */
  function LedRegister(value: int): (w: bv32)
    ensures LedLevel(w).Some?
  {
    if value == 0 then 0x0006ff00
    else if value == 1 then 0x1006ff00
    else if value == 2 then 0x0806ff00
    else if value == 3 then 0x1806ff00
    else if value == 4 then 0x1406ff00
    else if value == 5 then 0x0C06ff00
    else if value == 6 then 0x1C06ff00
    else 0x1806ff00
  }

  /** The brightness a word stands for, if it is one of the table's. */
  function LedLevel(reg: bv32): Option<nat> {
    if reg == 0x0006ff00 then Some(0)
    else if reg == 0x1006ff00 then Some(1)
    else if reg == 0x0806ff00 then Some(2)
    else if reg == 0x1806ff00 then Some(3)
    else if reg == 0x1406ff00 then Some(4)
    else if reg == 0x0C06ff00 then Some(5)
    else if reg == 0x1C06ff00 then Some(6)
    else None
  }

  /** The seven brightnesses have seven distinct words, and every other value is written as 3. */
  lemma LedTable(value: int)
    ensures 0 <= value <= 6 ==> LedLevel(LedRegister(value)) == Some(value)
    ensures !(0 <= value <= 6) ==> LedRegister(value) == LedRegister(3)
  {
  }

  /** Only the table's words decode, each to the brightness that writes it. */
  lemma LedLevelExact(reg: bv32)
    ensures LedLevel(reg).Some? ==> LedLevel(reg).value <= 6 && LedRegister(LedLevel(reg).value) == reg
  {
  }
}
