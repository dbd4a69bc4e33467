/** One value into one scalar column: `ColumnBuilder::append` and the `as_*`
    functions it calls (`parquet_out.rs`). */
module Scalars {
  import opened Wrappers
  import opened Numerals
  import opened Decimals
  import opened Chars
  import opened DorisTypes
  import opened Values

  const MIN_DATE_DAYS := -719_528
  const MAX_DATE_DAYS := 2_932_896
  const MICROS_PER_DAY := 24 * 60 * 60 * 1_000_000
  const MIN_DATETIME_MICROS := MIN_DATE_DAYS * MICROS_PER_DAY
  const MAX_DATETIME_MICROS := (MAX_DATE_DAYS + 1) * MICROS_PER_DAY - 1
  const LARGEINT_MAX := I128_MAX
  const LARGEINT_MIN := -I128_MAX

  /** What a scalar column stores for one row. */
  datatype Cell =
    | BoolCell(flag: bool)
    | IntCell(number: int)
    | FloatCell(float: Values.Float)
    | DecimalCell(unscaled: int)
    | DateCell(days: int)
    | MicrosCell(micros: int)
    | TextCell(text: string)

  function AsBool(value: Value): Option<bool> {
    match value
    case Bool(flag) => Some(flag)
    case I64(n) => Some(n != 0)
    case I128(n) => Some(n != 0)
    case Text(text) =>
      var word := Lower(Trim(text));
      if word == "true" || word == "t" || word == "1" || word == "yes" then Some(true)
      else if word == "false" || word == "f" || word == "0" || word == "no" then Some(false)
      else None
    case Fixed(units, _) => Some(units != 0)
    case _ => None
  }

  function Truncate(x: real): int {
    if x >= 0.0 then x.Floor else -((-x).Floor)
  }

  function TruncDiv(n: int, d: nat): int
    requires d > 0
  {
    if n >= 0 then n / d else -((-n) / d)
  }

  function AsInt(value: Value, min: int, max: int): (r: Option<int>)
    ensures r.Some? ==> min <= r.value <= max
  {
    var number :-
      match value
      case I64(n) => Some(n as int)
      case I128(n) => Some(n as int)
      case Bool(flag) => Some(if flag then 1 else 0)
      case F64(Finite(x)) => Some(Clamp(Truncate(x), I128_MIN, I128_MAX))
      case Text(text) => ParseSigned(Trim(text), I128_MIN, I128_MAX)
      case Fixed(units, scale) => Some(TruncDiv(units, Pow10(scale)))
      case _ => None;
    if number < min || number > max then None else Some(number)
  }

  function AsFloat(env: Env, value: Value): Option<Values.Float> {
    match value
    case F64(x) => Some(x)
    case I64(n) => Some((env.intToFloat)(n))
    case I128(n) => Some((env.intToFloat)(n))
    case Text(text) => (env.parseFloat)(Trim(text))
    case Fixed(units, scale) => Some((env.fixedToFloat)(units, scale))
    case _ => None
  }

  /** Digits for the text-based decimal routes. */
  function DecimalDigits(env: Env, value: Value): Option<string> {
    match value
    case Fixed(units, scale) => Some(FormatDecimalUnits(units, scale))
    case Text(text) => Some(Trim(text))
    case I64(n) => Some(Signed(n))
    case I128(n) => Some(Signed(n))
    case F64(Finite(x)) => Some((env.floatText)(Finite(x)))
    case _ => None
  }

  function ToOption<T, E>(r: Result<T, E>): Option<T> {
    match r
    case Ok(v) => Some(v)
    case Err(_) => None
  }

  /** `as_decimal`: numbers go over directly, everything else through text. */
  function AsDecimal(env: Env, value: Value, precision: u8, scale: ValueScale): Option<int> {
    match value
    case Fixed(units, valueScale) => ToOption(RescaleDecimal(units, valueScale, precision, scale))
    case I64(n) => ToOption(RescaleDecimal(n, 0, precision, scale))
    case I128(n) => ToOption(RescaleDecimal(n, 0, precision, scale))
    case _ =>
      var text :- DecimalDigits(env, value);
      ToOption(TextToDecimal(text, precision, scale))
  }

  function AsDecimal256(env: Env, value: Value, precision: u8, scale: u8): Option<int> {
    var text :- DecimalDigits(env, value);
    ToOption(TextToDecimal256(text, precision, scale))
  }

  /** The text before the first `T` or space. */
  function DatePart(text: string): string {
    if text == "" || text[0] == 'T' || text[0] == ' ' then "" else [text[0]] + DatePart(text[1..])
  }

  function AsDate(env: Env, value: Value): Option<int> {
    match value
    case Timestamp(micros, _) => Some(micros / MICROS_PER_DAY)
    case _ => (env.parseDate)(DatePart(Trim(PlainText(env, value))))
  }

  const FORMATS := [
    "%Y-%m-%d %H:%M:%S%.f",
    "%Y-%m-%dT%H:%M:%S%.f",
    "%Y-%m-%d %H:%M:%S",
    "%Y-%m-%dT%H:%M:%S"
  ]

  /** The first format that reads the text, or a bare date at midnight. */
  function ParseMicros(env: Env, text: string, formats: seq<string>): Option<int> {
    if formats == [] then
      var days :- (env.parseDate)(text);
      Some(days * MICROS_PER_DAY)
    else
      match (env.parseDateTime)(text, formats[0])
      case Some(micros) => Some(micros)
      case None => ParseMicros(env, text, formats[1..])
  }

  function AsMicros(env: Env, value: Value): Option<int> {
    match value
    case Timestamp(micros, _) => Some(micros as int)
    case _ => ParseMicros(env, Trim(PlainText(env, value)), FORMATS)
  }

  /** The digits DATETIME(p) stores: microseconds floored to the column's unit. */
  function FloorMicros(micros: int, places: nat): int
    requires places <= 6
  {
    var unit := Pow10(6 - places);
    micros / unit * unit
  }

  /** `checked_text`. Every value reaching it is non-null. */
  function CheckedText(env: Env, ty: DorisType, value: Value): Option<string> {
    var text := PlainText(env, value);
    match ty
    case Char(len) => if Utf8Len(text) > len then None else Some(text)
    case Varchar(len) => if Utf8Len(text) > len then None else Some(text)
    case LargeInt =>
      var number :- AsInt(value, LARGEINT_MIN, LARGEINT_MAX);
      Some(Signed(number))
    case Json => JsonText(env, value)
    case Variant => JsonText(env, value)
    case Ipv4 =>
      var address :-
        if value.I64? then (if 0 <= value.small <= U32_MAX then Some(value.small as nat) else None)
        else (env.parseIpv4)(Trim(text));
      Some((env.ipv4Text)(address))
    case Ipv6 =>
      var address :-
        if value.I128? && value.large >= 0 then Some(value.large as nat)
        else (env.parseIpv6)(Trim(text));
      Some((env.ipv6Text)(address))
    case _ => Some(text)
  }

  function JsonText(env: Env, value: Value): Option<string> {
    match value
    case Text(text) => if (env.isJson)(text) then Some(text) else None
    case _ => Some((env.jsonText)(value))
  }

  /** Precision and scale `with_precision_and_scale` accepts. */
  predicate ValidDecimal(precision: u8, scale: u8) {
    1 <= precision <= DECIMAL256_MAX_PRECISION && scale <= precision
  }

  predicate IntegerType(ty: DorisType) {
    ty.TinyInt? || ty.SmallInt? || ty.Int? || ty.BigInt? || ty.Bitmap?
  }

  function IntegerMin(ty: DorisType): int {
    match ty
    case TinyInt => I8_MIN
    case SmallInt => I16_MIN
    case Int => I32_MIN
    case Bitmap => 0
    case _ => I64_MIN
  }

  function IntegerMax(ty: DorisType): int {
    match ty
    case TinyInt => I8_MAX
    case SmallInt => I16_MAX
    case Int => I32_MAX
    case _ => I64_MAX
  }

  /** Columns whose type the parser accepts and a scalar builder exists for. */
  predicate IsScalar(ty: DorisType) {
    match ty
    case Decimal(precision, scale) => ValidDecimal(precision, scale)
    case DateTime(places) => places <= 6
    case AggState(_) => false
    case _ => !IsNested(ty)
  }

  /** The cell a non-null value becomes, or None when the column refuses it. */
  function Convert(env: Env, ty: DorisType, value: Value): Option<Cell>
    requires IsScalar(ty)
  {
    match ty
    case Boolean => AsBool(value).Map(b => BoolCell(b))
    case Float =>
      var number :- AsFloat(env, value);
      var narrowed := (env.narrow)(number);
      if number.Finite? && !narrowed.Finite? then None else Some(FloatCell(narrowed))
    case Double => AsFloat(env, value).Map(x => FloatCell(x))
    case QuantileState => AsFloat(env, value).Map(x => FloatCell(x))
    case Decimal(precision, scale) =>
      var unscaled :-
        if precision <= DECIMAL128_MAX_PRECISION then AsDecimal(env, value, precision, scale)
        else AsDecimal256(env, value, precision, scale);
      Some(DecimalCell(unscaled))
    case Date =>
      var days :- AsDate(env, value);
      if MIN_DATE_DAYS <= days <= MAX_DATE_DAYS then Some(DateCell(days)) else None
    case DateTime(places) =>
      var micros :- AsMicros(env, value);
      if MIN_DATETIME_MICROS <= micros <= MAX_DATETIME_MICROS
      then Some(MicrosCell(FloorMicros(micros, places))) else None
    case _ =>
      if IntegerType(ty) then AsInt(value, IntegerMin(ty), IntegerMax(ty)).Map(n => IntCell(n))
      else CheckedText(env, ty, value).Map(t => TextCell(t))
  }

  // Integers

  /** `r` is `units / d` rounded toward zero. */
  predicate TowardZero(units: int, d: nat, r: int) {
    && Abs(r) * d <= Abs(units) < Abs(r) * d + d
    && (r < 0 ==> units < 0) && (r > 0 ==> units > 0)
  }

  lemma DivBounds(n: nat, d: nat)
    requires d > 0
    ensures n / d * d <= n < n / d * d + d && n / d >= 0
  {
    assert n == d * (n / d) + n % d;
  }

  lemma DivUnique(n: nat, d: nat, q: nat)
    requires d > 0 && q * d <= n < q * d + d
    ensures q == n / d
  {
    DivBounds(n, d);
    ProductOrder(d, q, n / d);
    ProductOrder(d, n / d, q);
  }

  lemma TruncatesTowardZero(units: int, d: nat, r: int)
    requires d > 0
    ensures TruncDiv(units, d) == r <==> TowardZero(units, d, r)
  {
    var n := Abs(units);
    DivBounds(n, d);
    if TowardZero(units, d, r) {
      DivUnique(n, d, Abs(r));
    }
  }

  /** Which integer each kind of value becomes, and that it is refused exactly
      outside the column's range: an integer is itself, a fixed-point value is
      cut toward zero, and the text of an integer is that integer. */
  lemma IntegerMeaning(units: i128, places: ValueScale, min: int, max: int, r: int)
    requires I128_MIN <= min && max <= I128_MAX
    ensures AsInt(I128(units), min, max) == Some(r) <==> r == units && min <= r <= max
    ensures AsInt(Fixed(units, places), min, max) == Some(r) <==>
            TowardZero(units, Pow10(places), r) && min <= r <= max
    ensures AsInt(Text(Signed(units)), min, max) == AsInt(I128(units), min, max)
  {
    TruncatesTowardZero(units, Pow10(places), r);
    SignedTrims(units);
    ParseSignedNumeral(units, I128_MIN, I128_MAX);
  }

  lemma SignedTrims(n: int)
    ensures Trim(Signed(n)) == Signed(n)
  {
    var s := Signed(n);
    var digits := Numeral(if n < 0 then -n else n);
    assert IsDigit(digits[0]) && IsDigit(digits[|digits| - 1]);
    assert s[|s| - 1] == digits[|digits| - 1];
    TrimClean(s);
  }

  // DATETIME flooring

  lemma UnitDividesDay(places: nat)
    requires places <= 6
    ensures MICROS_PER_DAY % Pow10(6 - places) == 0
    ensures MIN_DATETIME_MICROS % Pow10(6 - places) == 0
  {
    SmallPowers();
    assert places == 0 || places == 1 || places == 2 || places == 3 || places == 4 || places == 5 || places == 6;
  }

  lemma SmallPowers()
    ensures Pow10(0) == 1 && Pow10(1) == 10 && Pow10(2) == 100 && Pow10(3) == 1000
    ensures Pow10(4) == 10_000 && Pow10(5) == 100_000 && Pow10(6) == 1_000_000
  {
  }

  lemma FloorIsGreatest(n: int, unit: nat, m: int)
    requires unit > 0
    ensures n / unit * unit <= n < n / unit * unit + unit
    ensures m % unit == 0 && m <= n ==> m <= n / unit * unit
  {
    assert n == unit * (n / unit) + n % unit;
    if m % unit == 0 && m <= n {
      assert m == unit * (m / unit);
      ProductOrder(unit, m / unit, n / unit);
    }
  }

  lemma TimesAtLeast(unit: nat, k: nat)
    requires k >= 1
    ensures unit * k >= unit
  {
  }

  lemma ProductOrder(unit: nat, a: int, b: int)
    ensures a <= b ==> unit * a <= unit * b
    ensures a > b ==> unit * a >= unit * b + unit
  {
    var gap := Abs(a - b);
    if gap >= 1 {
      TimesAtLeast(unit, gap);
    }
    if a > b {
      assert a == b + gap;
    } else {
      assert b == a + gap;
    }
  }

  /** A stored DATETIME is the greatest multiple of the column's unit not after
      the value, it never leaves Doris's range, and storing it again changes
      nothing: no value rolls into the next second. */
  lemma FlooredDateTime(micros: int, places: nat, later: int)
    requires places <= 6
    requires MIN_DATETIME_MICROS <= micros <= MAX_DATETIME_MICROS
    ensures var unit := Pow10(6 - places);
            var stored := FloorMicros(micros, places);
            && MIN_DATETIME_MICROS <= stored <= micros < stored + unit
            && stored % unit == 0
            && (later % unit == 0 && later <= micros ==> later <= stored)
            && FloorMicros(stored, places) == stored
  {
    var unit := Pow10(6 - places);
    var stored := FloorMicros(micros, places);
    UnitDividesDay(places);
    FloorIsGreatest(micros, unit, MIN_DATETIME_MICROS);
    FloorIsGreatest(micros, unit, later);
    MultipleOf(micros / unit, unit);
    FloorIsGreatest(stored, unit, stored);
  }

  lemma MultipleOf(q: int, unit: nat)
    requires unit > 0
    ensures (q * unit) % unit == 0
  {
    var r := (q * unit) % unit;
    assert q * unit == unit * ((q * unit) / unit) + r;
    assert unit * ((q * unit) / unit - q) == -r;
    MulSmall(unit, (q * unit) / unit - q, r);
  }
}
