/** Integer behaviour of the C++ and Arduino primitives the firmware relies
    on: fixed-width unsigned and signed storage, C's truncating division,
    Arduino's `map`, `String(int)` and `String::toInt`. */
module Arduino {

  datatype Option<T> = None | Some(value: T)

  const U8: int := 0x100
  const U16: int := 0x1_0000
  const U32: int := 0x1_0000_0000

  /** A value an `unsigned long` (32 bits on the ESP32) can hold. */
  predicate IsU32(x: int) { 0 <= x < U32 }

  /** `a - b` on two `unsigned long` values: the difference modulo 2^32. */
  function WrapSub(a: int, b: int): (d: int)
    ensures 0 <= d < U32
    ensures IsU32(a) && IsU32(b) && b <= a ==> d == a - b
    ensures IsU32(a) && IsU32(b) && a < b ==> d == a - b + U32
  {
    (a - b) % U32
  }

  /** `a + b` on `unsigned long` values. */
  function WrapAdd(a: int, b: int): (s: int)
    ensures IsU32(s)
    ensures a + b - s == U32 * ((a + b) / U32)
    ensures 0 <= a + b < U32 ==> s == a + b
  {
    (a + b) % U32
  }

  /** Storing an `int` into a `uint8_t`: the value modulo 256. */
  function ToU8(x: int): (r: int)
    ensures 0 <= r < U8
    ensures 0 <= x < U8 ==> r == x
  {
    x % U8
  }

  /** Storing an `int` into a `uint16_t`. */
  function ToU16(x: int): (r: int)
    ensures 0 <= r < U16
    ensures 0 <= x < U16 ==> r == x
  {
    x % U16
  }

  /** Storing an `int` into an `int8_t` (two's complement truncation). */
  function ToInt8(x: int): (r: int)
    ensures -128 <= r < 128
    ensures -128 <= x < 128 ==> r == x
  {
    (x + 128) % U8 - 128
  }

  /** The truncations keep the value modulo the width: they only drop the
      high bits. */
  lemma TruncationsCongruent(x: int)
    ensures (x - ToU8(x)) % U8 == 0
    ensures (x - ToU16(x)) % U16 == 0
    ensures (x - ToInt8(x)) % U8 == 0
  {
    ModUnique(x - ToU8(x), U8, x / U8, 0);
    ModUnique(x - ToU16(x), U16, x / U16, 0);
    ModUnique(x - ToInt8(x), U8, (x + 128) / U8, 0);
  }

  /** C's `%` for a positive divisor: the remainder takes the sign of the
      dividend (Dafny's own `%` never goes negative). */
  function CRem(a: int, b: int): (r: int)
    requires b > 0
    ensures a >= 0 ==> r == a % b
    ensures -b < r < b
    ensures a >= 0 ==> r >= 0
    ensures a <= 0 ==> r <= 0
  {
    if a >= 0 then a % b else -((-a) % b)
  }

  /** C's `/` for a positive divisor. With `CRem` it satisfies C's identity
      `(a / b) * b + a % b == a`, and the quotient truncates toward zero:
      `q * b` lies between 0 and `a`, on the dividend's side. */
  function CDiv(a: int, b: int): (q: int)
    requires b > 0
    ensures q * b + CRem(a, b) == a
    ensures 0 <= a ==> 0 <= q * b <= a
    ensures a < 0 ==> a <= q * b <= 0
    ensures a >= 0 ==> q == a / b
  {
    if a >= 0 then a / b else -((-a) / b)
  }

  /** Dividing an exact multiple gives the factor back, whatever its sign. */
  lemma CDivMultiple(d: int, k: int)
    requires d > 0
    ensures CDiv(d * k, d) == k
  {
    if k >= 0 {
      MulNonNeg(d, k);
      DivUnique(d * k, d, k, 0);
    } else {
      MulNonNeg(d, -k);
      assert -(d * k) == d * (-k);
      DivUnique(-(d * k), d, -k, 0);
    }
  }

  /** Arduino's `map(x, inMin, inMax, outMin, outMax)`, computed on `long`
      with C's truncating division: the ends of the input range go to the
      ends of the output range. */
  function ArduinoMap(x: int, inMin: int, inMax: int, outMin: int, outMax: int): (r: int)
    requires inMin < inMax
    ensures x == inMin ==> r == outMin
    ensures x == inMax ==> r == outMax
  {
    CDivMultiple(inMax - inMin, outMax - outMin);
    assert (inMax - inMin) * (outMax - outMin) == (outMax - outMin) * (inMax - inMin);
    CDiv((x - inMin) * (outMax - outMin), inMax - inMin) + outMin
  }

  /** An input inside [inMin, inMax] maps inside [outMin, outMax]. */
  lemma ArduinoMapRange(x: int, inMin: int, inMax: int, outMin: int, outMax: int)
    requires inMin <= x <= inMax && inMin < inMax && outMin <= outMax
    ensures outMin <= ArduinoMap(x, inMin, inMax, outMin, outMax) <= outMax
  {
    var d, k := inMax - inMin, outMax - outMin;
    MulMonotone(x - inMin, d, k);
    assert d * k == k * d;
    DivBelow((x - inMin) * k, d, k);
  }

  /** `map` onto [0, outMax] from [0, inMax] is bounded on non-negative inputs. */
  lemma ArduinoMapBounds(x: int, inMax: int, outMax: int)
    requires 0 <= x <= inMax && 0 < inMax && 0 <= outMax
    ensures 0 <= ArduinoMap(x, 0, inMax, 0, outMax) <= outMax
    ensures ArduinoMap(x, 0, inMax, 0, outMax) == x * outMax / inMax
  {
    assert 0 <= x * outMax <= inMax * outMax by {
      MulMonotone(x, inMax, outMax);
    }
    DivBelow(x * outMax, inMax, outMax);
  }

  lemma MulMonotone(x: int, y: int, k: int)
    requires 0 <= x <= y && 0 <= k
    ensures 0 <= x * k <= y * k
  {
  }

  lemma MulNonNeg(n: int, k: int)
    requires 0 <= n && 0 <= k
    ensures 0 <= n * k
  {
  }

  /** The remainder is the unique one in [0, n): any decomposition
      `a == n * q + r` with `r` in range gives `a % n == r`. */
  lemma ModUnique(a: int, n: int, q: int, r: int)
    requires 0 < n && a == n * q + r && 0 <= r < n
    ensures a % n == r
  {
    var k := q - a / n;
    assert n * k == a % n - r;
    if k > 0 {
      assert n * k == n * (k - 1) + n;
      MulNonNeg(n, k - 1);
    } else if k < 0 {
      assert n * k == -(n * (-k - 1)) - n;
      MulNonNeg(n, -k - 1);
    }
  }

  /** The quotient is the unique one: `a == n * q + r` with `r` in [0, n)
      gives `a / n == q`. */
  lemma DivUnique(a: int, n: int, q: int, r: int)
    requires 0 < n && a == n * q + r && 0 <= r < n
    ensures a / n == q
  {
    ModUnique(a, n, q, r);
  }

  lemma DivBelow(a: int, d: int, k: int)
    requires 0 <= a <= d * k && 0 < d
    ensures 0 <= a / d <= k
  {
  }

  // ---- Decimal text ----

  predicate IsDigit(c: char) { '0' <= c <= '9' }

  predicate AllDigits(s: string) { forall i :: 0 <= i < |s| ==> IsDigit(s[i]) }

  function DigitChar(d: int): (c: char)
    requires 0 <= d < 10
    ensures IsDigit(c)
  {
    (('0' as int) + d) as char
  }

  function DigitValue(c: char): (d: int)
    requires IsDigit(c)
    ensures 0 <= d < 10
  {
    (c as int) - ('0' as int)
  }

  /** The decimal digits of `n`, most significant first, no leading zeros. */
  function NatString(n: nat): (s: string)
    ensures |s| > 0 && AllDigits(s)
    ensures |s| > 1 ==> s[0] != '0'
    decreases n
  {
    if n < 10 then [DigitChar(n)] else NatString(n / 10) + [DigitChar(n % 10)]
  }

  /** Arduino's `String(n)` for an integer. */
  function IntString(n: int): (s: string)
    ensures |s| > 0 && (s[0] == '-' <==> n < 0)
    ensures n >= 0 ==> AllDigits(s)
    ensures n < 0 ==> |s| > 1 && AllDigits(s[1..])
  {
    if n < 0 then "-" + NatString(-n) else NatString(n)
  }

  /** The number a string of decimal digits denotes. */
  function DigitsValue(s: string): nat
    requires AllDigits(s)
    decreases |s|
  {
    if s == [] then 0 else DigitsValue(s[..|s| - 1]) * 10 + DigitValue(s[|s| - 1])
  }

  /** The length of the run of digits `s` starts with. */
  function LeadingDigits(s: string): (n: nat)
    ensures n <= |s|
    ensures AllDigits(s[..n])
    ensures n < |s| ==> !IsDigit(s[n])
    decreases |s|
  {
    if s != [] && IsDigit(s[0]) then
      var k := LeadingDigits(s[1..]);
      assert s[..k + 1] == [s[0]] + s[1..][..k];
      k + 1
    else 0
  }

  /** The white-space characters C's `isspace` recognises. */
  predicate IsSpace(c: char) { c == ' ' || c == '\t' || c == '\n' || c == '\r' || c == '\U{B}' || c == '\U{C}' }

  function SkipSpaces(s: string): (t: string)
    ensures |t| <= |s| && t == s[|s| - |t|..]
    ensures t != [] ==> !IsSpace(t[0])
    decreases |s|
  {
    if s != [] && IsSpace(s[0]) then SkipSpaces(s[1..]) else s
  }

  /** The value of the digit run that starts `s` (0 when there is none). */
  function PrefixValue(s: string): nat
  {
    DigitsValue(s[..LeadingDigits(s)])
  }

  /** Arduino's `String::toInt`, i.e. C's `atol`: leading white space, an
      optional sign, then the longest run of digits; no digits gives 0. */
  function ToInt(s: string): (r: int)
    ensures var t := SkipSpaces(s); t != [] && t[0] == '-' ==> r <= 0
    ensures var t := SkipSpaces(s); !(t != [] && t[0] == '-') ==> r >= 0
    ensures var t := SkipSpaces(s); (t == [] || !(IsDigit(t[0]) || t[0] == '-' || t[0] == '+')) ==> r == 0
  {
    var t := SkipSpaces(s);
    if t != [] && t[0] == '-' then -(PrefixValue(t[1..]) as int)
    else if t != [] && t[0] == '+' then PrefixValue(t[1..])
    else PrefixValue(t)
  }

  lemma {:induction false} NatStringValue(n: nat)
    ensures DigitsValue(NatString(n)) == n
    decreases n
  {
    if n >= 10 {
      var s := NatString(n);
      NatStringValue(n / 10);
      assert s[..|s| - 1] == NatString(n / 10);
      assert DigitValue(s[|s| - 1]) == n % 10;
    }
  }

  lemma {:induction false} AllDigitsRun(s: string)
    requires AllDigits(s)
    ensures LeadingDigits(s) == |s|
    decreases |s|
  {
    if s != [] {
      AllDigitsRun(s[1..]);
    }
  }

  /** A digit string read by `toInt` gives its own value. */
  lemma DigitsPrefixValue(d: string)
    requires AllDigits(d)
    ensures PrefixValue(d) == DigitsValue(d)
  {
    AllDigitsRun(d);
    assert d[..LeadingDigits(d)] == d;
  }

  /** `toInt` of a non-empty digit string is its value. */
  lemma ToIntOfDigits(d: string)
    requires d != [] && AllDigits(d)
    ensures ToInt(d) == DigitsValue(d)
  {
    assert IsDigit(d[0]);
    assert SkipSpaces(d) == d;
    DigitsPrefixValue(d);
  }

  /** `toInt` of a minus sign and a non-empty digit string is its negated value. */
  lemma ToIntOfNegDigits(d: string)
    requires d != [] && AllDigits(d)
    ensures ToInt("-" + d) == -(DigitsValue(d) as int)
  {
    var s := "-" + d;
    assert s[0] == '-';
    assert SkipSpaces(s) == s;
    assert s[1..] == d;
    DigitsPrefixValue(d);
  }

  /** `String(n).toInt()` gives `n` back: the decimal text round-trips. */
  lemma ToIntOfIntString(n: int)
    ensures ToInt(IntString(n)) == n
  {
    if n < 0 {
      NatStringValue(-n);
      ToIntOfNegDigits(NatString(-n));
    } else {
      NatStringValue(n);
      ToIntOfDigits(NatString(n));
    }
  }
}
