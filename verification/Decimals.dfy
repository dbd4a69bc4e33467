/** The three DECIMAL conversions name the same number. */
module Decimals {
  import opened Wrappers
  import opened Numerals

  const DECIMAL128_MAX_PRECISION := 38

  /** Scales a generator may attach to a fixed-point value: ten to the scale
      has to fit 128 bits for the value to be rendered at all. */
  type ValueScale = s: nat | s <= 38

  datatype DecimalError =
    | NotADecimal
    | TooManyPlaces
    | DoesNotFit
    | ExceedsPrecision
    | PrecisionTooLarge

  datatype DecimalText = DecimalText(negative: bool, whole: string, fraction: string)

  /** `format_decimal_units`: sign, whole part, point, exactly `scale` digits. */
  function FormatDecimalUnits(units: int, scale: nat): string {
    if scale == 0 then Signed(units) else
      var (whole, fraction) := DivMod(Abs(units), Pow10(scale));
      (if units < 0 then "-" else "") + Numeral(whole) + "." + Padded(fraction, scale)
  }

  /** Index of the first point, or the length when there is none. */
  function PointIndex(digits: string): (k: nat)
    ensures k <= |digits|
    ensures k < |digits| ==> digits[k] == '.'
    ensures forall i | 0 <= i < k :: digits[i] != '.'
  {
    if digits == "" || digits[0] == '.' then 0 else 1 + PointIndex(digits[1..])
  }

  /** A leading sign, and what follows it. */
  function StripSign(text: string): (bool, string) {
    if text != "" && text[0] == '-' then (true, text[1..])
    else if text != "" && text[0] == '+' then (false, text[1..])
    else (false, text)
  }

  function SplitAtPoint(digits: string): (string, string) {
    var point := PointIndex(digits);
    (digits[..point], if point < |digits| then digits[point + 1..] else "")
  }

  function SplitDecimalText(text: string): (r: Result<DecimalText, DecimalError>)
    ensures r.Ok? ==>
              && AllDigits(r.value.whole) && AllDigits(r.value.fraction)
              && |r.value.whole| + |r.value.fraction| >= 1
  {
    var (negative, digits) := StripSign(text);
    var (whole, fraction) := SplitAtPoint(digits);
    if (whole == "" && fraction == "") || !AllDigits(whole) || !AllDigits(fraction)
    then Err(NotADecimal)
    else Ok(DecimalText(negative, whole, fraction))
  }

  /** Whole and fraction digits, the fraction filled with zeros to `scale`. */
  function AtScale(parts: DecimalText, scale: nat): string
    requires |parts.fraction| <= scale
  {
    parts.whole + parts.fraction + Zeros(scale - |parts.fraction|)
  }

  function WithSign(negative: bool, magnitude: int): int {
    if negative then -magnitude else magnitude
  }

  /** `10i128.checked_pow(precision)`. */
  function PrecisionLimit(precision: nat): Result<int, DecimalError> {
    if Pow10(precision) <= I128_MAX then Ok(Pow10(precision)) else Err(PrecisionTooLarge)
  }

  /** The text route of `as_decimal`. */
  function TextToDecimal(text: string, precision: nat, scale: nat): Result<int, DecimalError> {
    var parts :- SplitDecimalText(text);
    if |parts.fraction| > scale then Err(TooManyPlaces) else
      var padded := AtScale(parts, scale);
      AtScaleDigits(parts, scale);
      match ParseSigned(padded, I128_MIN, I128_MAX)
      case None => Err(DoesNotFit)
      case Some(unscaled) =>
        var limit :- PrecisionLimit(precision);
        if unscaled >= limit then Err(ExceedsPrecision)
        else Ok(WithSign(parts.negative, unscaled))
  }

  /** Units moved to another scale, refusing to drop digits or to leave 128 bits. */
  function MoveScale(units: i128, fromScale: ValueScale, scale: ValueScale): Result<int, DecimalError> {
    if fromScale == scale then Ok(units)
    else if fromScale < scale then
      var product := units * Pow10(scale - fromScale);
      if I128_MIN <= product <= I128_MAX then Ok(product) else Err(DoesNotFit)
    else
      var divisor := Pow10(fromScale - scale);
      // The remainder is zero below, so truncation and flooring agree.
      if units % divisor != 0 then Err(TooManyPlaces) else Ok(units / divisor)
  }

  /** The typed route, `rescale_decimal`. A scale difference above 38 would
      overflow the source's power of ten, so callers stay within it. */
  function RescaleDecimal(units: i128, fromScale: ValueScale, precision: nat, scale: ValueScale)
    : Result<int, DecimalError>
  {
    var unscaled :- MoveScale(units, fromScale, scale);
    var limit :- PrecisionLimit(precision);
    if Abs(unscaled) >= limit then Err(ExceedsPrecision) else Ok(unscaled)
  }

  /** `trim_start_matches('0')`. */
  function TrimZeros(digits: string): (r: string)
    requires AllDigits(digits)
    ensures AllDigits(r) && |r| <= |digits|
    ensures r != "" ==> r[0] != '0'
  {
    if digits != "" && digits[0] == '0' then TrimZeros(digits[1..]) else digits
  }

  /** The text route of `as_decimal256`. */
  function TextToDecimal256(text: string, precision: nat, scale: nat): Result<int, DecimalError> {
    var parts :- SplitDecimalText(text);
    if |parts.fraction| > scale then Err(TooManyPlaces) else
      AtScaleDigits(parts, scale);
      var significant := TrimZeros(AtScale(parts, scale));
      if |significant| > precision then Err(ExceedsPrecision)
      else if significant == "" then Ok(0)
      else if Val(significant) > I256_MAX then Err(DoesNotFit)
      else Ok(WithSign(parts.negative, Val(significant)))
  }

  // Digits at a scale

  lemma AtScaleDigits(parts: DecimalText, scale: nat)
    requires AllDigits(parts.whole) && AllDigits(parts.fraction)
    requires |parts.fraction| <= scale
    ensures AllDigits(AtScale(parts, scale))
    ensures |AtScale(parts, scale)| == |parts.whole| + scale
    ensures Val(AtScale(parts, scale)) ==
            Val(parts.whole + parts.fraction) * Pow10(scale - |parts.fraction|)
  {
    var zeros := Zeros(scale - |parts.fraction|);
    ValConcat(parts.whole + parts.fraction, zeros);
    ValZeros(|zeros|);
  }

  /** What the 128-bit text route computes, in terms of the digits alone. */
  lemma TextToDecimalMeaning(text: string, precision: nat, scale: nat)
    requires precision <= DECIMAL128_MAX_PRECISION
    ensures var split := SplitDecimalText(text);
            split.Ok? && |split.value.fraction| <= scale ==>
              var m := Val(split.value.whole + split.value.fraction) * Pow10(scale - |split.value.fraction|);
              if m < Pow10(precision)
              then TextToDecimal(text, precision, scale) == Ok(WithSign(split.value.negative, m))
              else TextToDecimal(text, precision, scale).Err?
  {
    var split := SplitDecimalText(text);
    if split.Ok? && |split.value.fraction| <= scale {
      AtScaleDigits(split.value, scale);
      PaddedReads(text, split.value, Val(AtScale(split.value, scale)), precision, scale);
    }
  }

  /** The text route, by the number `m` the filled digits denote. */
  lemma PaddedReads(text: string, parts: DecimalText, m: nat, precision: nat, scale: nat)
    requires precision <= DECIMAL128_MAX_PRECISION && SplitDecimalText(text) == Ok(parts) && |parts.fraction| <= scale
    requires AllDigits(AtScale(parts, scale)) && AtScale(parts, scale) != "" && m == Val(AtScale(parts, scale))
    ensures if m < Pow10(precision) then TextToDecimal(text, precision, scale) == Ok(WithSign(parts.negative, m))
            else TextToDecimal(text, precision, scale).Err?
  {
    Pow10Fits128();
    Pow10Monotone(precision, 38);
    DigitsParse(AtScale(parts, scale), m);
  }

  lemma DigitsParse(padded: string, m: nat)
    requires AllDigits(padded) && padded != "" && m == Val(padded)
    ensures ParseSigned(padded, I128_MIN, I128_MAX) == if m <= I128_MAX then Some(m) else None
  {
    assert IsDigit(padded[0]);
  }

  // Rendering and reading back

  lemma {:induction false} PointIndexOfDigits(whole: string, rest: string)
    requires AllDigits(whole)
    requires rest == "" || rest[0] == '.'
    ensures PointIndex(whole + rest) == |whole|
  {
    if whole == "" {
      assert whole + rest == rest;
    } else {
      assert (whole + rest)[1..] == whole[1..] + rest;
      PointIndexOfDigits(whole[1..], rest);
    }
  }

  function PointAnd(fraction: string): string {
    if fraction == "" then "" else "." + fraction
  }

  lemma SplitAtPointOf(whole: string, fraction: string)
    requires AllDigits(whole)
    ensures SplitAtPoint(whole + PointAnd(fraction)) == (whole, fraction)
  {
    var digits := whole + PointAnd(fraction);
    PointIndexOfDigits(whole, PointAnd(fraction));
    assert digits[..|whole|] == whole;
    assert fraction != "" ==> digits[|whole| + 1..] == fraction;
  }

  function SignText(negative: bool): string {
    if negative then "-" else ""
  }

  lemma StripSignOf(negative: bool, digits: string)
    requires digits != "" && IsDigit(digits[0])
    ensures StripSign(SignText(negative) + digits) == (negative, digits)
  {
    var text := SignText(negative) + digits;
    if negative {
      assert text[1..] == digits;
    } else {
      assert text == digits;
    }
  }

  /** The text is a sign or none, the whole digits, and the fraction after a
      point; the point may be missing or end the text when there is no fraction. */
  predicate Spells(text: string, sign: string, tail: string, d: DecimalText) {
    && text == sign + (d.whole + tail)
    && (sign == "-" || sign == "+" || sign == "") && d.negative == (sign == "-")
    && (tail == "." + d.fraction || (tail == "" && d.fraction == ""))
    && AllDigits(d.whole) && AllDigits(d.fraction) && (d.whole != "" || d.fraction != "")
  }

  lemma SignStripped(sign: string, digits: string)
    requires sign == "-" || sign == "+" || sign == ""
    requires digits != "" && digits[0] != '-' && digits[0] != '+'
    ensures StripSign(sign + digits) == (sign == "-", digits)
  {
    var text := sign + digits;
    if sign == "" {
      assert text == digits;
    } else {
      assert text[0] == sign[0] && text[1..] == digits;
    }
  }

  lemma PointSplit(whole: string, tail: string)
    requires AllDigits(whole) && (tail == "" || tail[0] == '.')
    ensures SplitAtPoint(whole + tail) == (whole, if tail == "" then "" else tail[1..])
  {
    var digits := whole + tail;
    PointIndexOfDigits(whole, tail);
    assert digits[..|whole|] == whole;
    if tail != "" {
      assert digits[|whole| + 1..] == tail[1..];
    }
  }

  lemma SpelledSplits(text: string, sign: string, tail: string, d: DecimalText)
    requires Spells(text, sign, tail, d)
    ensures SplitDecimalText(text) == Ok(d)
  {
    var digits := d.whole + tail;
    if d.whole != "" {
      assert digits[0] == d.whole[0] && IsDigit(d.whole[0]);
    } else {
      assert digits == tail && tail[0] == '.';
    }
    SignStripped(sign, digits);
    PointSplit(d.whole, tail);
    assert tail != "" ==> tail[1..] == d.fraction;
  }

  lemma StripSpells(text: string) returns (sign: string)
    ensures var (negative, digits) := StripSign(text);
            text == sign + digits && (sign == "-" || sign == "+" || sign == "") && negative == (sign == "-")
  {
    if text != "" && (text[0] == '-' || text[0] == '+') {
      sign := [text[0]];
      assert text == sign + text[1..];
    } else {
      sign := "";
      assert text == "" + text;
    }
  }

  lemma PointSpells(digits: string) returns (tail: string)
    ensures var (whole, fraction) := SplitAtPoint(digits);
            digits == whole + tail && (tail == "." + fraction || (tail == "" && fraction == ""))
  {
    var point := PointIndex(digits);
    tail := digits[point..];
    assert digits == digits[..point] + tail;
    if point < |digits| {
      assert tail == "." + digits[point + 1..];
    }
  }

  lemma SplitSpells(text: string) returns (sign: string, tail: string)
    requires SplitDecimalText(text).Ok?
    ensures Spells(text, sign, tail, SplitDecimalText(text).value)
  {
    sign := StripSpells(text);
    tail := PointSpells(StripSign(text).1);
  }

  /** `split_decimal_text` accepts exactly the texts of a decimal number, and
      gives the parts they are written with. */
  lemma SplitExactly(text: string, d: DecimalText)
    ensures SplitDecimalText(text) == Ok(d) <==> exists sign, tail :: Spells(text, sign, tail, d)
  {
    if SplitDecimalText(text) == Ok(d) {
      var sign, tail := SplitSpells(text);
    }
    if exists sign, tail :: Spells(text, sign, tail, d) {
      var sign, tail :| Spells(text, sign, tail, d);
      SpelledSplits(text, sign, tail, d);
    }
  }

  /** Splitting undoes assembling a sign, whole digits and a fraction. */
  lemma SplitOfParts(negative: bool, whole: string, fraction: string)
    requires AllDigits(whole) && AllDigits(fraction) && whole != ""
    ensures SplitDecimalText(SignText(negative) + (whole + PointAnd(fraction)))
         == Ok(DecimalText(negative, whole, fraction))
  {
    var digits := whole + PointAnd(fraction);
    assert digits[0] == whole[0];
    StripSignOf(negative, digits);
    SplitAtPointOf(whole, fraction);
  }

  lemma PointForm(sign: string, whole: string, fraction: string)
    requires fraction != ""
    ensures sign + whole + "." + fraction == sign + (whole + PointAnd(fraction))
  {
    assert whole + "." + fraction == whole + ("." + fraction);
  }

  lemma FormatAsParts(units: int, scale: nat) returns (whole: string, fraction: string)
    ensures AllDigits(whole) && AllDigits(fraction) && whole != "" && |fraction| == scale
    ensures FormatDecimalUnits(units, scale) == SignText(units < 0) + (whole + PointAnd(fraction))
    ensures Val(whole) * Pow10(scale) + Val(fraction) == Abs(units)
  {
    if scale == 0 {
      whole, fraction := Numeral(Abs(units)), "";
      assert whole + "" == whole;
    } else {
      whole, fraction := FormatWithPoint(units, scale);
    }
  }

  lemma FormatWithPoint(units: int, scale: nat) returns (whole: string, fraction: string)
    requires scale > 0
    ensures AllDigits(whole) && AllDigits(fraction) && whole != "" && |fraction| == scale
    ensures FormatDecimalUnits(units, scale) == SignText(units < 0) + (whole + PointAnd(fraction))
    ensures Val(whole) * Pow10(scale) + Val(fraction) == Abs(units)
  {
    var (w, f) := DivMod(Abs(units), Pow10(scale));
    whole, fraction := Numeral(w), Padded(f, scale);
    PaddedExact(f, scale);
    PointForm(SignText(units < 0), whole, fraction);
  }

  /** Reading a rendered value recovers its sign, its scale and its units. */
  lemma SplitOfFormat(units: int, scale: nat)
    ensures var split := SplitDecimalText(FormatDecimalUnits(units, scale));
            && split.Ok?
            && split.value.negative == (units < 0)
            && |split.value.fraction| == scale
            && Val(split.value.whole + split.value.fraction) == Abs(units)
  {
    var whole, fraction := FormatAsParts(units, scale);
    SplitOfParts(units < 0, whole, fraction);
    ValConcat(whole, fraction);
  }

  // The typed route refines the text route

  /** `r` is the number `units / 10^fromScale`, exactly, at the column's scale. */
  predicate Denotes(r: int, scale: nat, units: int, fromScale: nat) {
    r * Pow10(fromScale) == units * Pow10(scale)
  }

  lemma MulCancel(x: int, y: int, m: int)
    requires m > 0 && x * m == y * m
    ensures x == y
  {
  }

  lemma DenotesUnique(r: int, r': int, scale: nat, units: int, fromScale: nat)
    requires Denotes(r, scale, units, fromScale) && Denotes(r', scale, units, fromScale)
    ensures r == r'
  {
    MulCancel(r, r', Pow10(fromScale));
  }

  lemma DenotesScaledUp(units: int, fromScale: nat, scale: nat)
    requires fromScale <= scale
    ensures Denotes(units * Pow10(scale - fromScale), scale, units, fromScale)
  {
    Pow10Add(scale - fromScale, fromScale);
    var up, from := Pow10(scale - fromScale), Pow10(fromScale);
    assert units * up * from == units * (up * from);
  }

  lemma DenotesScaledDown(r: int, units: int, fromScale: nat, scale: nat)
    requires scale <= fromScale
    ensures Denotes(r, scale, units, fromScale) <==> r * Pow10(fromScale - scale) == units
  {
    var down, to := Pow10(fromScale - scale), Pow10(scale);
    Pow10Add(fromScale - scale, scale);
    assert r * (down * to) == r * down * to;
    if r * down * to == units * to {
      MulCancel(r * down, units, to);
    }
  }

  lemma DivisionExact(units: int, d: int, r: int)
    requires d > 0
    ensures units % d == 0 && units / d == r <==> r * d == units
  {
    assert units == d * (units / d) + units % d;
    if r * d == units {
      assert d * (units / d - r) == -(units % d);
      MulSmall(d, units / d - r, units % d);
    }
  }

  lemma MulSmall(d: int, q: int, m: int)
    requires 0 <= m < d && d * q == -m
    ensures q == 0 && m == 0
  {
    assert q <= -1 ==> d * q <= -d;
    assert q >= 1 ==> d * q >= d;
  }

  lemma MoveScaleIsExact(units: i128, fromScale: ValueScale, scale: ValueScale, r: int)
    ensures MoveScale(units, fromScale, scale) == Ok(r) ==> Denotes(r, scale, units, fromScale)
    ensures Denotes(r, scale, units, fromScale) && I128_MIN <= r <= I128_MAX ==>
              MoveScale(units, fromScale, scale) == Ok(r)
  {
    if fromScale <= scale {
      var up := units * Pow10(scale - fromScale);
      DenotesScaledUp(units, fromScale, scale);
      if Denotes(r, scale, units, fromScale) {
        DenotesUnique(r, up, scale, units, fromScale);
      }
    } else {
      DenotesScaledDown(r, units, fromScale, scale);
      DivisionExact(units, Pow10(fromScale - scale), r);
    }
  }

  /** The typed route accepts a value exactly when the column holds the very
      same number within its precision, and that number is what it returns. */
  lemma RescaleIsExact(units: i128, fromScale: ValueScale, precision: nat, scale: ValueScale, r: int)
    requires precision <= DECIMAL128_MAX_PRECISION
    ensures RescaleDecimal(units, fromScale, precision, scale) == Ok(r) <==>
            Denotes(r, scale, units, fromScale) && Abs(r) < Pow10(precision)
  {
    Pow10Fits128();
    Pow10Monotone(precision, 38);
    MoveScaleIsExact(units, fromScale, scale, r);
  }

  /** The text route on any text that splits into these units at this scale. */
  lemma TextOfUnits(text: string, units: int, fromScale: nat, precision: nat, scale: nat)
    requires precision <= DECIMAL128_MAX_PRECISION
    requires var split := SplitDecimalText(text);
             && split.Ok? && split.value.negative == (units < 0) && |split.value.fraction| == fromScale
             && Val(split.value.whole + split.value.fraction) == Abs(units)
    ensures fromScale > scale ==> TextToDecimal(text, precision, scale).Err?
    ensures fromScale <= scale ==>
              var r := units * Pow10(scale - fromScale);
              if Abs(r) < Pow10(precision) then TextToDecimal(text, precision, scale) == Ok(r)
              else TextToDecimal(text, precision, scale).Err?
  {
    if fromScale <= scale {
      var parts, up := SplitDecimalText(text).value, Pow10(scale - fromScale);
      AtScaleDigits(parts, scale);
      AbsTimes(units, up);
      PaddedReads(text, parts, Abs(units) * up, precision, scale);
    }
  }

  /** The text route, fed the rendering of a value, accepts exactly the same
      numbers but only when the value has no more places than the column. */
  lemma TextIsExact(units: i128, fromScale: ValueScale, precision: nat, scale: ValueScale, r: int)
    requires precision <= DECIMAL128_MAX_PRECISION
    ensures TextToDecimal(FormatDecimalUnits(units, fromScale), precision, scale) == Ok(r) <==>
            fromScale <= scale && Denotes(r, scale, units, fromScale) && Abs(r) < Pow10(precision)
  {
    SplitOfFormat(units, fromScale);
    TextOfUnits(FormatDecimalUnits(units, fromScale), units, fromScale, precision, scale);
    if fromScale <= scale {
      ScaledUpOnly(units, fromScale, scale, r);
    }
  }

  /** Only the scaled-up units denote the same number. */
  lemma ScaledUpOnly(units: int, fromScale: nat, scale: nat, r: int)
    requires fromScale <= scale
    ensures Denotes(r, scale, units, fromScale) <==> r == units * Pow10(scale - fromScale)
  {
    var up := units * Pow10(scale - fromScale);
    DenotesScaledUp(units, fromScale, scale);
    if Denotes(r, scale, units, fromScale) {
      DenotesUnique(r, up, scale, units, fromScale);
    }
  }

  lemma AbsTimes(x: int, m: nat)
    ensures Abs(x * m) == Abs(x) * m
    ensures x * m == WithSign(x < 0, Abs(x) * m)
  {
    if x < 0 {
      assert (-x) * m == -(x * m);
      assert (-x) * m >= 0;
    } else {
      assert x * m >= 0;
    }
  }

  /** The typed route refines the text route: they agree wherever the text
      route accepts, and the text route refuses a number the typed one takes
      exactly when the value carries more places than the column. */
  lemma TypedRefinesText(units: i128, fromScale: ValueScale, precision: nat, scale: ValueScale, r: int)
    requires precision <= DECIMAL128_MAX_PRECISION
    ensures TextToDecimal(FormatDecimalUnits(units, fromScale), precision, scale) == Ok(r) <==>
            fromScale <= scale && RescaleDecimal(units, fromScale, precision, scale) == Ok(r)
  {
    TextIsExact(units, fromScale, precision, scale, r);
    RescaleIsExact(units, fromScale, precision, scale, r);
  }

  /** Beyond that boundary the two disagree: 1.50 into one decimal place. */
  lemma TypedAcceptsTrailingZeros()
    ensures RescaleDecimal(150, 2, 9, 1) == Ok(15)
    ensures TextToDecimal("1.50", 9, 1) == Err(TooManyPlaces)
    ensures FormatDecimalUnits(150, 2) == "1.50"
  {
    OneFiftyFits();
    OneFiftyText();
    TwoPlacesRefused("1", "50", 9, 1);
    assert "1" + ("." + "50") == "1.50";
  }

  lemma OneFiftyFits()
    ensures RescaleDecimal(150, 2, 9, 1) == Ok(15)
  {
    assert Pow10(1) == 10 && Pow10(9) == 1_000_000_000;
  }

  lemma OneFiftyText()
    ensures FormatDecimalUnits(150, 2) == "1.50"
  {
    assert Pow10(2) == 100;
    assert Numeral(50) == Numeral(5) + [DigitChar(0)];
  }

  lemma TwoPlacesRefused(whole: string, fraction: string, precision: nat, scale: nat)
    requires AllDigits(whole) && whole != "" && AllDigits(fraction) && |fraction| > scale
    ensures TextToDecimal(whole + ("." + fraction), precision, scale) == Err(TooManyPlaces)
  {
    SplitOfParts(false, whole, fraction);
    assert SignText(false) + (whole + PointAnd(fraction)) == whole + ("." + fraction);
  }

  // The 256-bit route

  lemma {:induction false} TrimZerosValue(digits: string)
    requires AllDigits(digits)
    ensures Val(TrimZeros(digits)) == Val(digits)
  {
    if digits != "" && digits[0] == '0' {
      assert digits == digits[..1] + digits[1..];
      ValConcat(digits[..1], digits[1..]);
      assert Val(digits[..1]) == 0;
      TrimZerosValue(digits[1..]);
    }
  }

  lemma {:induction false} LeadingDigit(s: string)
    requires AllDigits(s) && s != "" && s[0] != '0'
    ensures Val(s) >= Pow10(|s| - 1)
  {
    if |s| == 1 {
      assert s[..0] == "";
    } else {
      LeadingDigit(s[..|s| - 1]);
    }
  }

  /** Counting significant digits is the same as bounding the magnitude. */
  lemma SignificantDigits(digits: string, precision: nat)
    requires AllDigits(digits)
    ensures |TrimZeros(digits)| <= precision <==> Val(digits) < Pow10(precision)
  {
    var s := TrimZeros(digits);
    TrimZerosValue(digits);
    if |s| <= precision {
      ValBound(s);
      Pow10Monotone(|s|, precision);
    } else {
      LeadingDigit(s);
      Pow10Monotone(precision, |s| - 1);
    }
  }

  /** What the 256-bit text route computes: its last conversion never fails. */
  lemma TextToDecimal256Meaning(text: string, precision: nat, scale: nat)
    requires precision <= DECIMAL256_MAX_PRECISION
    ensures TextToDecimal256(text, precision, scale) != Err(DoesNotFit)
    ensures var split := SplitDecimalText(text);
            split.Ok? && |split.value.fraction| <= scale ==>
              var m := Val(split.value.whole + split.value.fraction) * Pow10(scale - |split.value.fraction|);
              TextToDecimal256(text, precision, scale) ==
              if m < Pow10(precision) then Ok(WithSign(split.value.negative, m)) else Err(ExceedsPrecision)
  {
    var split := SplitDecimalText(text);
    if split.Ok? && |split.value.fraction| <= scale {
      var padded := AtScale(split.value, scale);
      AtScaleDigits(split.value, scale);
      SignificantDigits(padded, precision);
      TrimZerosValue(padded);
      Pow10Fits256();
      Pow10Monotone(precision, 76);
    }
  }

  /** Up to 38 digits, the 256-bit route and the 128-bit route agree on every
      text: same acceptance, same number. */
  lemma WideRouteAgrees(text: string, precision: nat, scale: nat)
    requires precision <= DECIMAL128_MAX_PRECISION
    ensures TextToDecimal256(text, precision, scale).Ok? <==> TextToDecimal(text, precision, scale).Ok?
    ensures TextToDecimal(text, precision, scale).Ok? ==>
              TextToDecimal256(text, precision, scale) == TextToDecimal(text, precision, scale)
  {
    TextToDecimalMeaning(text, precision, scale);
    TextToDecimal256Meaning(text, precision, scale);
  }

  /** Any run of digits denoting zero is the decimal zero. */
  lemma ZeroIsZero(text: string, precision: nat, scale: nat)
    requires text != "" && AllDigits(text) && Val(text) == 0 && precision <= DECIMAL256_MAX_PRECISION
    ensures TextToDecimal256(text, precision, scale) == Ok(0)
    ensures precision <= DECIMAL128_MAX_PRECISION ==> TextToDecimal(text, precision, scale) == Ok(0)
  {
    SplitOfParts(false, text, "");
    assert SignText(false) + (text + PointAnd("")) == text;
    assert text + "" == text;
    var m := Val(text) * Pow10(scale);
    assert m == 0;
    TextToDecimal256Meaning(text, precision, scale);
    if precision <= DECIMAL128_MAX_PRECISION {
      TextToDecimalMeaning(text, precision, scale);
    }
  }

  /** Every accepted decimal stays inside its precision, on every route. */
  lemma AcceptedWithinPrecision(text: string, precision: nat, scale: nat, r: int)
    requires precision <= DECIMAL256_MAX_PRECISION
    requires TextToDecimal256(text, precision, scale) == Ok(r)
    ensures Abs(r) < Pow10(precision)
  {
    TextToDecimal256Meaning(text, precision, scale);
  }
}
