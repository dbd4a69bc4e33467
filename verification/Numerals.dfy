/** Machine integers, powers of ten and decimal digit strings.

    The widths are those of the source's integer types. A number is written by
    `Numeral`, `Padded` and `Signed` and read back by `ParseUnsigned` and
    `ParseSigned`; `Val` is what a string of digits denotes, so that writing and
    reading can be compared with a number. */
module Numerals {
  import opened Wrappers

  const I8_MIN := -0x80
  const I8_MAX := 0x7F
  const I16_MIN := -0x8000
  const I16_MAX := 0x7FFF
  const I32_MIN := -0x8000_0000
  const I32_MAX := 0x7FFF_FFFF
  const I64_MIN := -0x8000_0000_0000_0000
  const I64_MAX := 0x7FFF_FFFF_FFFF_FFFF
  const I128_MIN := -0x8000_0000_0000_0000_0000_0000_0000_0000
  const I128_MAX := 0x7FFF_FFFF_FFFF_FFFF_FFFF_FFFF_FFFF_FFFF
  const U32_MAX := 0xFFFF_FFFF
  const I256_MAX := 0x7FFF_FFFF_FFFF_FFFF_FFFF_FFFF_FFFF_FFFF_FFFF_FFFF_FFFF_FFFF_FFFF_FFFF_FFFF_FFFF

  type u8 = n: int | 0 <= n <= 0xFF
  type u32 = n: int | 0 <= n <= U32_MAX
  type i64 = n: int | I64_MIN <= n <= I64_MAX
  type i128 = n: int | I128_MIN <= n <= I128_MAX

  function Abs(n: int): nat {
    if n < 0 then -n else n
  }

  function Min(a: nat, b: nat): nat {
    if a <= b then a else b
  }

  function Clamp(n: int, min: int, max: int): int
    requires min <= max
  {
    if n < min then min else if n > max then max else n
  }

  lemma ProductMonotone(a: nat, b: nat, n: nat)
    requires a <= b
    ensures a * n <= b * n
  {
  }

  /** Quotient and remainder of a magnitude. */
  function DivMod(m: nat, d: nat): (r: (nat, nat))
    requires d > 0
    ensures m == r.0 * d + r.1 && r.1 < d
  {
    (m / d, m % d)
  }

  // Powers of ten

  function Pow10(k: nat): (p: nat)
    ensures p >= 1
  {
    if k == 0 then 1 else 10 * Pow10(k - 1)
  }

  lemma {:induction false} Pow10Add(a: nat, b: nat)
    ensures Pow10(a + b) == Pow10(a) * Pow10(b)
  {
    if a > 0 {
      Pow10Add(a - 1, b);
      assert a + b - 1 == (a - 1) + b;
      assert 10 * (Pow10(a - 1) * Pow10(b)) == (10 * Pow10(a - 1)) * Pow10(b);
    }
  }

  lemma {:induction false} Pow10Monotone(a: nat, b: nat)
    requires a <= b
    ensures Pow10(a) <= Pow10(b)
    decreases b - a
  {
    if a < b {
      Pow10Monotone(a, b - 1);
    }
  }

  lemma Pow10Product(a: nat, b: nat, x: int, y: int)
    requires Pow10(a) == x && Pow10(b) == y
    ensures Pow10(a + b) == x * y
  {
    Pow10Add(a, b);
  }

  /** 38 digits fit 128 bits and 39 do not. */
  lemma Pow10Fits128()
    ensures Pow10(38) <= I128_MAX < Pow10(39)
  {
    Pow10Product(10, 9, 1_0000000000, 1_000000000);
    Pow10Product(19, 19, 1_0000000000_000000000, 1_0000000000_000000000);
    Pow10Product(38, 1, 1_0000000000_0000000000_0000000000_00000000, 10);
  }

  const DECIMAL256_MAX_PRECISION := 76

  /** 76 digits fit 256 bits. */
  lemma Pow10Fits256()
    ensures Pow10(76) <= I256_MAX
  {
    Pow10Product(10, 9, 1_0000000000, 1_000000000);
    Pow10Product(19, 19, 1_0000000000_000000000, 1_0000000000_000000000);
    Pow10Product(38, 38, 1_0000000000_0000000000_0000000000_00000000, 1_0000000000_0000000000_0000000000_00000000);
  }

  // Digit strings

  predicate IsDigit(c: char) {
    '0' <= c <= '9'
  }

  predicate AllDigits(s: string) {
    forall i | 0 <= i < |s| :: IsDigit(s[i])
  }

  function DigitOf(c: char): (d: nat)
    requires IsDigit(c)
    ensures d < 10
  {
    c as int - '0' as int
  }

  function DigitChar(d: nat): (c: char)
    requires d < 10
    ensures IsDigit(c) && DigitOf(c) == d
  {
    ('0' as int + d) as char
  }

  /** The number a digit string denotes. */
  function Val(s: string): nat
    requires AllDigits(s)
  {
    if s == "" then 0 else 10 * Val(s[..|s| - 1]) + DigitOf(s[|s| - 1])
  }

  lemma {:induction false} ValConcat(a: string, b: string)
    requires AllDigits(a) && AllDigits(b)
    ensures AllDigits(a + b)
    ensures Val(a + b) == Val(a) * Pow10(|b|) + Val(b)
  {
    if b == "" {
      assert a + b == a;
    } else {
      var b' := b[..|b| - 1];
      assert (a + b)[..|a + b| - 1] == a + b';
      ValConcat(a, b');
      TenTimes(Val(a), Pow10(|b'|), Val(b'));
    }
  }

  lemma TenTimes(x: nat, y: nat, z: nat)
    ensures 10 * (x * y + z) == x * (10 * y) + 10 * z
  {
  }

  lemma {:induction false} ValBound(s: string)
    requires AllDigits(s)
    ensures Val(s) < Pow10(|s|)
  {
    if s != "" {
      ValBound(s[..|s| - 1]);
    }
  }

  function Zeros(k: nat): (z: string)
    ensures |z| == k && AllDigits(z)
  {
    seq(k, _ => '0')
  }

  lemma {:induction false} ValZeros(k: nat)
    ensures Val(Zeros(k)) == 0
  {
    if k > 0 {
      ValZeros(k - 1);
      assert Zeros(k)[..k - 1] == Zeros(k - 1);
    }
  }

  /** `n.to_string()` for an unsigned integer. */
  function Numeral(n: nat): (s: string)
    ensures |s| >= 1 && AllDigits(s)
    ensures Val(s) == n
    ensures n != 0 ==> s[0] != '0'
  {
    if n < 10 then
      assert [DigitChar(n)][..0] == "";
      [DigitChar(n)]
    else
      var head := Numeral(n / 10);
      var s := head + [DigitChar(n % 10)];
      assert s[..|s| - 1] == head;
      s
  }

  lemma {:induction false} NumeralBound(n: nat, k: nat)
    requires k >= 1 && n < Pow10(k)
    ensures |Numeral(n)| <= k
  {
    if n >= 10 {
      assert Pow10(1) == 10;
      assert Pow10(k) == 10 * Pow10(k - 1);
      NumeralBound(n / 10, k - 1);
    }
  }

  /** `{:0width$}` for an unsigned integer: left padding with zeros, never truncating. */
  function Padded(n: nat, width: nat): (s: string)
    ensures |s| >= width && |s| >= 1 && AllDigits(s)
    ensures Val(s) == n
  {
    var digits := Numeral(n);
    if |digits| >= width then digits else
      var zeros := Zeros(width - |digits|);
      ValConcat(zeros, digits);
      ValZeros(|zeros|);
      zeros + digits
  }

  lemma PaddedExact(n: nat, width: nat)
    requires width >= 1 && n < Pow10(width)
    ensures |Padded(n, width)| == width
  {
    NumeralBound(n, width);
  }

  /** Signed `to_string()`. */
  function Signed(n: int): string {
    if n < 0 then "-" + Numeral(-n) else Numeral(n)
  }

  /** `str::parse` for an unsigned integer type with the given maximum: an
      optional plus sign, then at least one digit, then a range check. */
  function ParseUnsigned(text: string, max: nat): (r: Option<nat>)
    ensures r.Some? ==> r.value <= max
  {
    var digits := if text != "" && text[0] == '+' then text[1..] else text;
    if digits == "" || !AllDigits(digits) || Val(digits) > max then None else Some(Val(digits))
  }

  /** `str::parse` for a signed integer type. */
  function ParseSigned(text: string, min: int, max: int): (r: Option<int>)
    ensures r.Some? ==> min <= r.value <= max
  {
    var negative := text != "" && text[0] == '-';
    var digits := if text != "" && (text[0] == '-' || text[0] == '+') then text[1..] else text;
    if digits == "" || !AllDigits(digits) then None else
      var n: int := if negative then -(Val(digits) as int) else Val(digits);
      if min <= n <= max then Some(n) else None
  }

  lemma ParseNumeral(n: nat, max: nat)
    requires n <= max
    ensures ParseUnsigned(Numeral(n), max) == Some(n)
  {
    assert IsDigit(Numeral(n)[0]);
  }

  /** Digits without a sign read as their value. */
  lemma ParseSignedDigits(s: string, min: int, max: int)
    requires AllDigits(s) && s != "" && min <= Val(s) <= max
    ensures ParseSigned(s, min, max) == Some(Val(s))
  {
    assert IsDigit(s[0]);
  }

  lemma ParseSignedNumeral(n: int, min: int, max: int)
    requires min <= n <= max
    ensures ParseSigned(Signed(n), min, max) == Some(n)
  {
    if n < 0 {
      assert Signed(n)[1..] == Numeral(-n);
    } else {
      assert IsDigit(Numeral(n)[0]);
    }
  }
}
