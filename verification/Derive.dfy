/** Generators derived from column types (`derive.rs`) and the values they draw
    (the vendored datagen crate). Descriptors stand for the YAML text. */
module Derive {
  import opened Wrappers
  import opened Numerals
  import opened Decimals
  import opened Chars
  import opened DorisTypes
  import opened Values
  import opened Scalars

  const LOREM_MIN_WIDTH := 64

  const LOREM_WORDS: seq<string> := [
    "alpha", "bravo", "cedar", "delta", "ember", "forest", "harbor", "indigo", "juniper", "kernel",
    "lunar", "matrix", "north", "orbit", "prairie", "quartz", "river", "signal", "thunder", "violet"
  ]

  datatype GenSpec =
    | Choice(values: seq<Value>)
    | IntRange(min: int, max: int)
    | FloatRange(low: real, high: real)
    | DecimalRange(least: string, greatest: string, places: nat)
    | TimeAround(offsetMin: int, offsetMax: int, format: string)
    | Constant(text: string)
    | RandomHex(bytes: nat)
    | Lorem(wordsMin: nat, wordsMax: nat)
    | RandomIpv4(network: nat, hosts: nat)
    | RandomIpv6(network: nat, hosts: nat)
    | Uuid
    | ArrayOf(element: GenSpec, maxLen: nat)
    | MapOf(key: GenSpec, item: GenSpec, maxLen: nat)
    | StructOf(fields: seq<(string, GenSpec)>)

  // generator_by_type

  function MaxLength(words: seq<string>): nat {
    if words == [] then 0 else
      var rest := MaxLength(words[1..]);
      if |words[0]| >= rest then |words[0]| else rest
  }

  /** `longest_lorem_word`, which `LongestWord` shows is this number. */
  const LONGEST_LOREM_WORD := 7

  predicate FitsLongest(word: string) {
    |word| <= LONGEST_LOREM_WORD && IsAscii(word)
  }

  lemma {:induction false} MaxLengthOf(words: seq<string>, k: nat)
    requires k < |words| && |words[k]| == LONGEST_LOREM_WORD
    requires forall i | 0 <= i < |words| :: |words[i]| <= LONGEST_LOREM_WORD
    ensures MaxLength(words) == LONGEST_LOREM_WORD
  {
    MaxLengthAtMost(words[1..]);
    if k > 0 {
      MaxLengthOf(words[1..], k - 1);
    }
  }

  lemma {:induction false} MaxLengthAtMost(words: seq<string>)
    requires forall i | 0 <= i < |words| :: |words[i]| <= LONGEST_LOREM_WORD
    ensures MaxLength(words) <= LONGEST_LOREM_WORD
  {
    if words != [] {
      MaxLengthAtMost(words[1..]);
    }
  }

  lemma LoremWordsFit()
    ensures forall i | 0 <= i < |LOREM_WORDS| :: FitsLongest(LOREM_WORDS[i])
  {
  }

  lemma LongestWord()
    ensures MaxLength(LOREM_WORDS) == LONGEST_LOREM_WORD
  {
    LoremWordsFit();
    assert LOREM_WORDS[8] == "juniper";
    MaxLengthOf(LOREM_WORDS, 8);
  }

  /** As many words as fit when every word is the longest one. The sum wraps at
      32 bits, as in a release build. */
  function LoremWithin(len: u32): GenSpec {
    var wordsMax := Clamp(((len + 1) % 0x1_0000_0000) / (LONGEST_LOREM_WORD + 1), 1, 12);
    Lorem(if wordsMax < 3 then wordsMax else 3, wordsMax)
  }

  function FixedWidthString(len: u32): GenSpec {
    if len / 2 == 0 then Constant("x") else RandomHex(len / 2)
  }

  function Nines(k: nat): (s: string)
    ensures |s| == k && AllDigits(s)
  {
    seq(k, _ => '9')
  }

  function WholeDigits(precision: u8, scale: u8): nat {
    Min(if precision >= scale then precision - scale else 0, 9)
  }

  /** The largest number with so many whole and fraction digits. */
  function NinesText(whole: nat, places: nat): string {
    Numeral(Pow10(whole) - 1) + PointAnd(Nines(places))
  }

  function ZeroText(places: nat): string {
    "0" + PointAnd(Zeros(places))
  }

  function DecimalSpec(precision: u8, scale: u8): GenSpec {
    var places := Min(scale, 18);
    DecimalRange(ZeroText(places), NinesText(WholeDigits(precision, scale), places), places)
  }

  const YEAR_MICROS := 31_536_000 * 1_000_000
  const MONTH_MICROS := 2_592_000 * 1_000_000
  const DATE_FORMAT := "%Y-%m-%d"
  const SECONDS_FORMAT := "%Y-%m-%d %H:%M:%S"

  function TimeFormat(places: u8): string {
    if places == 0 then SECONDS_FORMAT else SECONDS_FORMAT + "%." + Numeral(places) + "f"
  }

  /** A small object, which the column renders as JSON text. */
  const JSON_SPEC := StructOf([
    ("id", IntRange(1, 1_000_000)), ("tag", Lorem(1, 1)), ("score", FloatRange(0.0, 100.0))
  ])

  function StringWidth(ty: DorisType): Option<u32> {
    match ty
    case Char(len) => Some(len)
    case Varchar(len) => Some(len)
    case String => Some(U32_MAX)
    case _ => None
  }

  function MapKeyGenerator(key: DorisType): GenSpec
    requires IsGeneratable(key)
    decreases key, 1
  {
    match StringWidth(key)
    case Some(width) => if width >= LONGEST_LOREM_WORD then Lorem(1, 1) else FixedWidthString(width)
    case None => GeneratorByType(key)
  }

  function GeneratorByType(ty: DorisType): GenSpec
    requires IsGeneratable(ty)
    decreases ty, 0
  {
    match ty
    case Boolean => Choice([Text("true"), Text("false")])
    case TinyInt => IntRange(0, 127)
    case SmallInt => IntRange(0, 32_767)
    case Int => IntRange(0, 1_000_000)
    case BigInt => IntRange(0, 1_000_000_000)
    case LargeInt => IntRange(0, 18_446_744_073_709_551_615)
    case Float => FloatRange(0.0, 1000.0)
    case Double => FloatRange(0.0, 1_000_000.0)
    case Decimal(precision, scale) => DecimalSpec(precision, scale)
    case Date => TimeAround(-YEAR_MICROS, 0, DATE_FORMAT)
    case DateTime(places) => TimeAround(-MONTH_MICROS, 0, TimeFormat(places))
    case Char(len) => FixedWidthString(len)
    case Varchar(len) => if len >= LOREM_MIN_WIDTH then LoremWithin(len) else FixedWidthString(len)
    case String => Lorem(3, 12)
    case Json => JSON_SPEC
    case Variant => JSON_SPEC
    case Ipv4 => RandomIpv4(0x0A00_0000, 0x0100_0000)
    case Ipv6 => RandomIpv6(0x2001_0db8_0000_0000_0000_0000_0000_0000, 0x1_0000_0000_0000_0000_0000_0000)
    case Array(element) => ArrayOf(GeneratorByType(element), 3)
    case Map(key, item) => MapOf(MapKeyGenerator(key), GeneratorByType(item), 3)
    case Struct(fields) =>
      StructOf(seq(|fields|, k requires 0 <= k < |fields| => (fields[k].name, GeneratorByType(fields[k].ty))))
    case Bitmap => IntRange(1, 10_000_000)
    case Hll => Uuid
    case QuantileState => FloatRange(0.0, 1000.0)
  }

  // What a generator draws

  /** The earliest and the latest time the run's clock shows, in microseconds. */
  datatype Clock = Clock(first: int, last: int)

  function Join(words: seq<string>): string {
    if words == [] then "" else if |words| == 1 then words[0] else words[0] + " " + Join(words[1..])
  }

  predicate IsHex(c: char) {
    IsDigit(c) || 'a' <= c <= 'f'
  }

  /** A version 4 UUID in its hyphenated form. */
  predicate IsUuid(text: string) {
    && |text| == 36 && text[14] == '4' && (text[19] == '8' || text[19] == '9' || text[19] == 'a' || text[19] == 'b')
    && forall i | 0 <= i < 36 ::
         if i == 8 || i == 13 || i == 18 || i == 23 then text[i] == '-' else IsHex(text[i])
  }

  /** A decimal bound in units at the generator's scale. */
  function BoundUnits(text: string, places: nat): Option<int> {
    ToOption(TextToDecimal(text, DECIMAL128_MAX_PRECISION, places))
  }

  predicate IsLorem(words: seq<string>, wordsMin: nat, wordsMax: nat, value: Value) {
    && wordsMin <= |words| <= wordsMax && (forall i | 0 <= i < |words| :: words[i] in LOREM_WORDS)
    && value == Text(Join(words))
  }

  /** The text of an address in a network. */
  predicate IsAddress(text: nat -> string, n: nat, network: nat, hosts: nat, value: Value) {
    network <= n < network + hosts && value == Text(text(n))
  }

  /** No key is null, and no two render alike. */
  predicate KeysDiffer(env: Env, entries: seq<(Value, Value)>) {
    && (forall i | 0 <= i < |entries| :: !entries[i].0.Null?)
    && forall i, j | 0 <= i < j < |entries| :: PlainText(env, entries[i].0) != PlainText(env, entries[j].0)
  }

  predicate IsNestedSpec(spec: GenSpec) {
    spec.ArrayOf? || spec.MapOf? || spec.StructOf?
  }

  /** The values a generator without parts can draw. */
  ghost predicate DrawsScalar(env: Env, clock: Clock, spec: GenSpec, value: Value)
    requires !IsNestedSpec(spec)
  {
    match spec
    case Choice(values) => value in values
    case IntRange(min, max) =>
      || (value.I64? && min <= value.small <= max)
      || (value.I128? && min <= value.large <= max && !(I64_MIN <= value.large <= I64_MAX))
    case FloatRange(low, high) => value.F64? && value.float.Finite? && low <= value.float.value <= high
    case DecimalRange(least, greatest, places) =>
      && value.Fixed? && value.scale == places
      && BoundUnits(least, places).Some? && BoundUnits(greatest, places).Some?
      && BoundUnits(least, places).value <= value.units <= BoundUnits(greatest, places).value
    case TimeAround(offsetMin, offsetMax, format) =>
      && value.Timestamp? && value.format == format
      && clock.first + offsetMin <= value.micros <= clock.last + offsetMax
    case Constant(text) => value == Text(text)
    case RandomHex(bytes) =>
      value.Text? && |value.text| == 2 * bytes && forall i | 0 <= i < |value.text| :: IsHex(value.text[i])
    case Lorem(wordsMin, wordsMax) => exists words :: IsLorem(words, wordsMin, wordsMax, value)
    case RandomIpv4(network, hosts) => exists n: nat :: IsAddress(env.ipv4Text, n, network, hosts, value)
    case RandomIpv6(network, hosts) => exists n: nat :: IsAddress(env.ipv6Text, n, network, hosts, value)
    case Uuid => value.Text? && IsUuid(value.text)
  }

  /** The values a generator can draw. Map keys are drawn until they render
      differently, so no two of one map do. */
  ghost predicate Draws(env: Env, clock: Clock, spec: GenSpec, value: Value)
    decreases spec
  {
    if spec.ArrayOf? then
      && value.List? && |value.items| <= spec.maxLen
      && forall i | 0 <= i < |value.items| :: Draws(env, clock, spec.element, value.items[i])
    else if spec.MapOf? then
      && value.Dict? && |value.entries| <= spec.maxLen
      && (forall i | 0 <= i < |value.entries| ::
            Draws(env, clock, spec.key, value.entries[i].0) && Draws(env, clock, spec.item, value.entries[i].1))
      && KeysDiffer(env, value.entries)
    else if spec.StructOf? then
      && value.Record? && |value.fields| == |spec.fields|
      && forall k | 0 <= k < |spec.fields| ::
           value.fields[k].0 == spec.fields[k].0 && Draws(env, clock, spec.fields[k].1, value.fields[k].1)
    else DrawsScalar(env, clock, spec, value)
  }

  // What the fit rests on

  /** The clock stays inside Doris's dates, a year back included. */
  predicate ClockOk(clock: Clock) {
    MIN_DATETIME_MICROS + YEAR_MICROS <= clock.first <= clock.last <= MAX_DATETIME_MICROS
  }

  /** The library calls read back their own addresses, and keep small floats finite. */
  ghost predicate EnvOk(env: Env) {
    && (forall n: nat | n <= U32_MAX :: (env.parseIpv4)(Trim((env.ipv4Text)(n))).Some?)
    && (forall n: nat | n < 0x1_0000_0000_0000_0000_0000_0000_0000_0000 ::
          (env.parseIpv6)(Trim((env.ipv6Text)(n))).Some?)
    && forall x: real | 0.0 <= x <= 1000.0 :: (env.narrow)(Values.Float.Finite(x)).Finite?
  }

  /** Every CHAR and VARCHAR holds at least one byte. */
  predicate Wide(ty: DorisType) {
    match ty
    case Char(len) => len >= 1
    case Varchar(len) => len >= 1
    case Array(element) => Wide(element)
    case Map(key, item) => Wide(key) && Wide(item)
    case Struct(fields) => forall f | f in fields :: Wide(f.ty)
    case _ => true
  }

  /** No STRUCT names a field twice. */
  predicate Apart(ty: DorisType) {
    match ty
    case Array(element) => Apart(element)
    case Map(key, item) => Apart(key) && Apart(item)
    case Struct(fields) =>
      DistinctNames(fields) && forall f | f in fields :: Apart(f.ty)
    case _ => true
  }
}
