/**
 * Integer text as the kernel reads and writes it: the kstrtou8/u16/u32
 * family with base 0 (lib/kstrtox.c of Linux; a decimal, octal with a
 * leading 0, or hexadecimal with a leading 0x, after an optional +, and
 * an optional final newline), and the %d and %02x conversions.
 */
module Numbers {
  import opened Errno

  datatype Result<T> = Ok(value: T) | Err(code: int) {
    predicate IsFailure() {
      Err?
    }

    function PropagateFailure<U>(): Result<U>
      requires Err?
    {
      Err(code)
    }

    function Extract(): T
      requires Ok?
    {
      value
    }
  }

  /** The value of a digit character in bases up to 16; 16 for anything else. */
  function DigitValue(c: char): (v: nat)
    ensures v <= 16
  {
    if '0' <= c <= '9' then c as int - '0' as int
    else if 'a' <= c <= 'f' then c as int - 'a' as int + 10
    else if 'A' <= c <= 'F' then c as int - 'A' as int + 10
    else 16
  }

  predicate IsXDigit(c: char) {
    DigitValue(c) < 16
  }

  /** The number of digits of base `base` starting at `k`. */
  function DigitRun(s: string, base: nat, k: nat): (n: nat)
    ensures n == 0 || k + n <= |s|
    ensures forall i :: k <= i < k + n ==> DigitValue(s[i]) < base
    ensures k + n < |s| ==> DigitValue(s[k + n]) >= base
    decreases |s| - k
  {
    if k < |s| && DigitValue(s[k]) < base then 1 + DigitRun(s, base, k + 1) else 0
  }

  /** The value of a digit string, accumulated from the most significant digit as _parse_integer does. */
  function ValueOf(t: string, base: nat): nat {
    if t == [] then 0 else ValueOf(t[..|t| - 1], base) * base + DigitValue(t[|t| - 1])
  }

  /** The value of the digits s[start..end], accumulated the same way, read in place. */
  function ValueAt(s: string, base: nat, start: nat, end: nat): nat
    requires start <= end <= |s|
    decreases end - start
  {
    if end == start then 0 else ValueAt(s, base, start, end - 1) * base + DigitValue(s[end - 1])
  }

  lemma {:induction false} ValueAtSlice(s: string, base: nat, start: nat, end: nat)
    requires start <= end <= |s|
    ensures ValueAt(s, base, start, end) == ValueOf(s[start..end], base)
    decreases end - start
  {
    if end > start {
      ValueAtSlice(s, base, start, end - 1);
      var t := s[start..end];
      assert t[..|t| - 1] == s[start..end - 1];
    }
  }

  /** _parse_integer_fixup_radix for base 0 on the text from `o`: the base and where the digits begin. */
  function FixupRadix(s: string, o: nat): (r: (nat, nat))
    requires o <= |s|
    ensures o <= r.1 <= |s|
  {
    if o < |s| && s[o] == '0' then
      if o + 2 < |s| && (s[o + 1] == 'x' || s[o + 1] == 'X') && IsXDigit(s[o + 2]) then (16, o + 2) else (8, o)
    else (10, o)
  }

  const ULLONG_MAX: nat := 0xFFFF_FFFF_FFFF_FFFF

  /**
   * _kstrtoull after the radix prefix: the digits of `base` from `start`;
   * overflow is reported before a missing digit, and only a newline may
   * follow the digits.
   */
  function ParseUll(s: string, base: nat, start: nat): (r: Result<nat>)
    requires start <= |s|
    ensures r.Ok? ==> r.value <= ULLONG_MAX && start < |s| && DigitValue(s[start]) < base
    ensures r.Ok? ==> forall i :: start <= i < |s| ==> DigitValue(s[i]) < base || (i == |s| - 1 && s[i] == '\n')
    ensures r.Err? ==> r.code == -EINVAL || r.code == -ERANGE
    ensures start == |s| ==> r == Err(-EINVAL)
  {
    var n := DigitRun(s, base, start);
    var e := start + n;
    var v := ValueAt(s, base, start, e);
    if v > ULLONG_MAX then Err(-ERANGE)
    else if n == 0 then Err(-EINVAL)
    else if e == |s| || (e + 1 == |s| && s[e] == '\n') then Ok(v)
    else Err(-EINVAL)
  }

  /** kstrtoull(s, 0): an optional +, then the radix prefix and the digits. */
  function Kstrtoull(s: string): (r: Result<nat>)
    ensures r.Ok? ==> r.value <= ULLONG_MAX
    ensures r.Err? ==> r.code == -EINVAL || r.code == -ERANGE
    ensures |s| > 0 && s[0] == '-' ==> r == Err(-EINVAL)
  {
    var o := if |s| > 0 && s[0] == '+' then 1 else 0;
    var (base, start) := FixupRadix(s, o);
    ParseUll(s, base, start)
  }

  /** kstrtoull(s, 10): an optional +, then decimal digits; base 10 takes no prefix. */
  function Kstrtoull10(s: string): (r: Result<nat>)
    ensures r.Ok? ==> r.value <= ULLONG_MAX
    ensures r.Ok? ==> forall i :: 0 <= i < |s| ==> '0' <= s[i] <= '9' || (i == 0 && s[i] == '+') || (i == |s| - 1 && s[i] == '\n')
    ensures r.Err? ==> r.code == -EINVAL || r.code == -ERANGE
    ensures |s| > 0 && s[0] == '-' ==> r == Err(-EINVAL)
  {
    var o := if |s| > 0 && s[0] == '+' then 1 else 0;
    ParseUll(s, 10, o)
  }

  const LLONG_MAX: nat := 0x7FFF_FFFF_FFFF_FFFF

  /**
   * kstrtol(s, 10) on a 64-bit kernel (kstrtoll): a leading - negates the
   * unsigned parse of the rest (_kstrtoull, which takes no second sign),
   * which may reach 2^63; otherwise kstrtoull, with its optional +, and
   * the value must stay below 2^63.
   */
  function Kstrtol(s: string): (r: Result<int>)
    ensures r.Ok? ==> -(LLONG_MAX + 1) <= r.value <= LLONG_MAX
    ensures r.Err? ==> r.code == -EINVAL || r.code == -ERANGE
  {
    if |s| > 0 && s[0] == '-' then
      var t :- ParseUll(s, 10, 1);
      if t > LLONG_MAX + 1 then Err(-ERANGE) else Ok(-(t as int))
    else
      var t :- Kstrtoull10(s);
      if t > LLONG_MAX then Err(-ERANGE) else Ok(t)
  }

  const U8_MAX: nat := 0xFF
  const U16_MAX: nat := 0xFFFF
  const U32_MAX: nat := 0xFFFF_FFFF

  /** kstrtou8/u16/u32(s, 0): the 64-bit parse, then a range check against the type's maximum. */
  function Kstrto(s: string, max: nat): (r: Result<nat>)
    ensures r.Ok? <==> Kstrtoull(s).Ok? && Kstrtoull(s).value <= max
    ensures r.Ok? ==> r.value == Kstrtoull(s).value
    ensures r.Err? && Kstrtoull(s).Ok? ==> r.code == -ERANGE
  {
    var v :- Kstrtoull(s);
    if v > max then Err(-ERANGE) else Ok(v)
  }

  /** A parse yields a value in range, or -EINVAL, or -ERANGE; an empty token never parses. */
  lemma KstrtoCodes(s: string, max: nat)
    ensures match Kstrto(s, max)
      case Ok(v) => v <= max
      case Err(e) => e == -EINVAL || e == -ERANGE
    ensures s == [] ==> Kstrto(s, max) == Err(-EINVAL)
  {
  }

  // ---------------------------------------------------------------------
  // Formatting

  /** The digits %d and %x write: 0-9 and lower-case a-f. */
  predicate LowerHex(c: char) {
    '0' <= c <= '9' || 'a' <= c <= 'f'
  }

  function DigitChar(d: nat): (c: char)
    requires d < 16
    ensures DigitValue(c) == d && LowerHex(c)
  {
    if d < 10 then ('0' as int + d) as char else ('a' as int + d - 10) as char
  }

  /** Euclidean division by a base: a smaller quotient and a digit. */
  lemma DivBase(n: nat, base: nat)
    requires 2 <= base <= 16 && n >= base
    ensures 0 < n / base < n && n % base < base && n == n / base * base + n % base
  {
  }

  /** The digits of `n` in base `base`, most significant first, without leading zeros. */
  function Digits(n: nat, base: nat): (s: string)
    requires 2 <= base <= 16
    ensures |s| >= 1
    ensures forall i :: 0 <= i < |s| ==> DigitValue(s[i]) < base
    decreases n
  {
    if n < base then [DigitChar(n)]
    else
      DivBase(n, base);
      Digits(n / base, base) + [DigitChar(n % base)]
  }

  /** Only zero is written with a leading zero digit. */
  lemma {:induction false} DigitsLead(n: nat, base: nat)
    requires 2 <= base <= 16
    ensures (Digits(n, base)[0] == '0') <==> n == 0
    decreases n
  {
    if n >= base {
      DivBase(n, base);
      DigitsLead(n / base, base);
      assert Digits(n, base)[0] == Digits(n / base, base)[0];
    }
  }

  /** Reading the digits back gives the number. */
  lemma {:induction false} DigitsValue(n: nat, base: nat)
    requires 2 <= base <= 16
    ensures ValueOf(Digits(n, base), base) == n
    decreases n
  {
    if n >= base {
      DivBase(n, base);
      DigitsValue(n / base, base);
      var s := Digits(n, base);
      assert s[..|s| - 1] == Digits(n / base, base);
      assert ValueOf(s, base) == ValueOf(Digits(n / base, base), base) * base + n % base;
    }
  }

  /** %d */
  function Decimal(i: int): string {
    if i < 0 then "-" + Digits(-i, 10) else Digits(i, 10)
  }

  /** %02x of a non-negative value: lower-case hex, padded to two digits. */
  function Hex02(n: nat): (s: string)
    ensures |s| >= 2
  {
    var h := Digits(n, 16);
    if |h| < 2 then "0" + h else h
  }

  lemma {:induction false} DigitsLower(n: nat, base: nat)
    requires 2 <= base <= 16
    ensures forall i :: 0 <= i < |Digits(n, base)| ==> LowerHex(Digits(n, base)[i])
    decreases n
  {
    if n >= base {
      DivBase(n, base);
      DigitsLower(n / base, base);
      assert Digits(n, base) == Digits(n / base, base) + [DigitChar(n % base)];
    }
  }

  /**
   * %02x prints the lower-case hex digits of `n` with no leading zero,
   * after a single 0 when there is only one digit; read as hex it is `n`.
   */
  lemma Hex02Spec(n: nat)
    ensures var h := Hex02(n);
      && |h| == (if n < 16 then 2 else |Digits(n, 16)|)
      && (forall i :: 0 <= i < |h| ==> LowerHex(h[i]))
      && ValueOf(h, 16) == n
      && (h[0] == '0' <==> n < 16)
  {
    var d := Digits(n, 16);
    var h := Hex02(n);
    DigitsLower(n, 16);
    DigitsValue(n, 16);
    DigitsLead(n, 16);
    if n < 16 {
      assert d == [DigitChar(n)];
      assert h == "0" + d;
      assert h[..1] == "0";
      assert ValueOf("0", 16) == 0;
    } else {
      DivBase(n, 16);
      assert d == Digits(n / 16, 16) + [DigitChar(n % 16)];
      assert h == d;
    }
  }

  /** With a 0x prefix the %02x text parses back to the value. */
  lemma Hex02Reads(n: nat, max: nat)
    requires n <= max && n <= ULLONG_MAX
    ensures Kstrto("0x" + Hex02(n), max) == Ok(n)
  {
    var h := Hex02(n);
    var s := "0x" + h;
    Hex02Spec(n);
    assert s[0] == '0' && s[1] == 'x' && s[2] == h[0];
    assert s[2..] == h;
    assert forall i :: 2 <= i < |s| ==> s[i] == h[i - 2] && LowerHex(s[i]);
    assert FixupRadix(s, 0) == (16, 2);
    KstrtoullDigits(s, 16, 2);
  }

  /** A u32 printed with %d: its two's-complement value as an int. */
  function Signed32(x: bv32): int {
    if x < 0x8000_0000 then x as int else x as int - 0x1_0000_0000
  }

  lemma DigitRunAll(s: string, base: nat, k: nat)
    requires k <= |s|
    requires forall i :: k <= i < |s| ==> DigitValue(s[i]) < base
    ensures DigitRun(s, base, k) == |s| - k
  {
  }

  /** A digit string that starts at `start` and runs to the end parses to its value. */
  lemma KstrtoullDigits(s: string, base: nat, start: nat)
    requires s != [] && s[0] != '+' && FixupRadix(s, 0) == (base, start) && start < |s|
    requires forall i :: start <= i < |s| ==> DigitValue(s[i]) < base
    requires ValueOf(s[start..], base) <= ULLONG_MAX
    ensures Kstrtoull(s) == Ok(ValueOf(s[start..], base))
  {
    DigitRunAll(s, base, start);
    ValueAtSlice(s, base, start, |s|);
    assert s[start..|s|] == s[start..];
  }

  /** What %d writes, the parser reads back: the decimal text of any value in range parses to it. */
  lemma KstrtoDecimal(n: nat, max: nat)
    requires n <= max && n <= ULLONG_MAX
    ensures Kstrto(Decimal(n), max) == Ok(n)
  {
    var s := Digits(n, 10);
    DigitsLead(n, 10);
    DigitsValue(n, 10);
    if n == 0 {
      assert s == "0" && s[0..] == s;
      KstrtoullDigits(s, 8, 0);
    } else {
      assert FixupRadix(s, 0) == (10, 0);
      assert s[0..] == s;
      KstrtoullDigits(s, 10, 0);
    }
  }

  /** So does a hexadecimal text with its 0x prefix. */
  lemma KstrtoHex(n: nat, max: nat)
    requires n <= max && n <= ULLONG_MAX
    ensures Kstrto("0x" + Digits(n, 16), max) == Ok(n)
  {
    var h := Digits(n, 16);
    var s := "0x" + h;
    DigitsValue(n, 16);
    assert s[0] == '0' && s[1] == 'x' && s[2] == h[0];
    assert s[2..] == h;
    assert FixupRadix(s, 0) == (16, 2);
    KstrtoullDigits(s, 16, 2);
  }

  /** A decimal run from `start` to the end, or to a final newline, parses to its value. */
  lemma ParseUllDigits(s: string, base: nat, start: nat)
    requires start < |s|
    requires forall i :: start <= i < |s| ==> DigitValue(s[i]) < base
    requires ValueOf(s[start..], base) <= ULLONG_MAX
    ensures ParseUll(s, base, start) == Ok(ValueOf(s[start..], base))
  {
    DigitRunAll(s, base, start);
    ValueAtSlice(s, base, start, |s|);
    assert s[start..|s|] == s[start..];
  }

  const LLONG_MIN: int := -(LLONG_MAX + 1)

  /** The digits of `n` in a base, read from `start` on in a text that ends with them. */
  lemma DigitsParse(s: string, n: nat, base: nat, start: nat)
    requires 2 <= base <= 16 && n <= ULLONG_MAX
    requires start < |s| && s[start..] == Digits(n, base)
    ensures ParseUll(s, base, start) == Ok(n)
  {
    var d := Digits(n, base);
    DigitsValue(n, base);
    assert forall i :: start <= i < |s| ==> s[i] == d[i - start];
    ParseUllDigits(s, base, start);
  }

  /** What %d writes of a signed 64-bit value, kstrtol reads back. */
  lemma KstrtolDecimal(n: int)
    requires LLONG_MIN <= n <= LLONG_MAX
    ensures Kstrtol(Decimal(n)) == Ok(n)
  {
    var s := Decimal(n);
    if n < 0 {
      assert s == "-" + Digits(-n, 10);
      assert s[1..] == Digits(-n, 10);
      DigitsParse(s, -n, 10, 1);
      assert Kstrtol(s) == Ok(-(-n));
    } else {
      var d := Digits(n, 10);
      assert s == d;
      assert DigitValue(d[0]) < 10;
      assert d[0..] == d;
      DigitsParse(d, n, 10, 0);
      assert Kstrtoull10(d) == Ok(n);
    }
  }

  /** Only one sign is taken: a - followed by another sign is -EINVAL. */
  lemma KstrtolOneSign(s: string)
    requires |s| >= 2 && s[0] == '-' && (s[1] == '+' || s[1] == '-')
    ensures Kstrtol(s) == Err(-EINVAL)
  {
    assert DigitRun(s, 10, 1) == 0;
  }
}
