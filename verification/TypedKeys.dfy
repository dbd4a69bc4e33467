/** When MAP keys fed as numbers, booleans or times stay distinct. */
module TypedKeys {
  import opened Wrappers
  import opened Numerals
  import opened Decimals
  import opened Chars
  import opened DorisTypes
  import opened Values
  import opened Scalars
  import opened Columns
  import opened Derive
  import opened DeriveFits
  import opened MapKeys

  /** The kinds of typed value: a generator gives decimals of one scale and
      times of one format. */
  datatype Kind = Integers | Booleans | FixedPoint(places: ValueScale) | Times(format: string)

  predicate Of(kind: Kind, value: Value) {
    match kind
    case Integers => IsInteger(value)
    case Booleans => value.Bool?
    case FixedPoint(places) => value.Fixed? && value.scale == places
    case Times(format) => value.Timestamp? && value.format == format
  }

  predicate IsFloating(ty: DorisType) {
    ty.Float? || ty.Double? || ty.QuantileState?
  }

  predicate IsTime(ty: DorisType) {
    ty.Date? || ty.DateTime?
  }

  predicate IsWhole(ty: DorisType) {
    IntegerType(ty) || ty.LargeInt?
  }

  /** Conversions that use no library call on values of the kind. */
  predicate Decided(ty: DorisType, kind: Kind) {
    || KeepsPlainText(ty) || IsWhole(ty) || ty.Boolean? || ty.Decimal?
    || (IsTime(ty) && kind.Times?)
    || (IsFloating(ty) && (kind.Booleans? || kind.Times?))
  }

  /** The key types that keep every two keys of a kind apart. */
  predicate StaysApart(ty: DorisType, kind: Kind) {
    if ty.Boolean? then kind.Booleans? || kind.Times?
    else if IsWhole(ty) then kind.FixedPoint? ==> kind.places == 0
    else if ty.Date? then !kind.Times?
    else if ty.DateTime? then kind.Times? ==> ty.places == 6
    else true
  }

  /** The format tells one microsecond from the next. */
  predicate ShowsMicros(env: Env, format: string) {
    (env.timestampText)(0, format) != (env.timestampText)(1, format)
  }

  lemma CollidesExactly(env: Env, ty: DorisType, a: Value, b: Value)
    requires IsScalar(ty)
    ensures Collides(env, ty, a, b) <==>
            && !a.Null? && !b.Null? && PlainText(env, a) != PlainText(env, b)
            && Convert(env, ty, a).Some? && Convert(env, ty, a) == Convert(env, ty, b)
  {
    var entries := [(a, Null), (b, Null)];
    assert entries[0].0 == a && entries[1].0 == b;
    assert CodecOf(env).plain(a) == PlainText(env, a) && CodecOf(env).plain(b) == PlainText(env, b);
  }

  // Keys that stay apart

  /** Accepted values of a kind that render apart. */
  predicate TakesBoth(env: Env, ty: DorisType, kind: Kind, a: Value, b: Value)
    requires IsScalar(ty)
  {
    && Of(kind, a) && Of(kind, b) && PlainText(env, a) != PlainText(env, b)
    && Convert(env, ty, a).Some? && Convert(env, ty, b).Some?
  }

  lemma BooleanApart(env: Env, kind: Kind, a: Value, b: Value)
    requires StaysApart(Boolean, kind) && TakesBoth(env, Boolean, kind, a, b)
    ensures Convert(env, Boolean, a) != Convert(env, Boolean, b)
  {
  }

  lemma WholeFixed(env: Env, ty: DorisType, value: Value)
    requires IsScalar(ty) && IsWhole(ty) && value.Fixed? && value.scale == 0 && Convert(env, ty, value).Some?
    ensures Convert(env, ty, value) ==
            Some(if ty.LargeInt? then TextCell(Signed(value.units)) else IntCell(value.units))
    ensures PlainText(env, value) == Signed(value.units)
  {
    assert Pow10(0) == 1 && TruncDiv(value.units, 1) == value.units;
  }

  lemma WholeFlag(env: Env, ty: DorisType, value: Value, n: int)
    requires IsScalar(ty) && IsWhole(ty) && value.Bool? && Convert(env, ty, value).Some?
    requires n == if value.flag then 1 else 0
    ensures Convert(env, ty, value) == Some(if ty.LargeInt? then TextCell(Signed(n)) else IntCell(n))
  {
  }

  lemma SignedApart(m: int, n: int)
    requires m != n
    ensures Signed(m) != Signed(n)
  {
    var bound := Abs(m) + Abs(n);
    ParseSignedNumeral(m, -bound, bound);
    ParseSignedNumeral(n, -bound, bound);
  }

  lemma WholeApart(env: Env, ty: DorisType, kind: Kind, a: Value, b: Value)
    requires IsScalar(ty) && IsWhole(ty) && StaysApart(ty, kind) && TakesBoth(env, ty, kind, a, b)
    ensures Convert(env, ty, a) != Convert(env, ty, b)
  {
    if kind.Integers? {
      IntegersStayDistinct(env, ty, a, b);
    } else if kind.Booleans? {
      WholeFlag(env, ty, a, if a.flag then 1 else 0);
      WholeFlag(env, ty, b, if b.flag then 1 else 0);
      SignedApart(0, 1);
    } else if kind.FixedPoint? {
      WholeFixed(env, ty, a);
      WholeFixed(env, ty, b);
    }
  }

  /** A decimal column treats an integer as a fixed-point value without places. */
  lemma IntegerAsFixed(env: Env, precision: u8, scale: u8, value: Value)
    requires ValidDecimal(precision, scale) && IsInteger(value)
    ensures PlainText(env, value) == FormatDecimalUnits(NumberOf(value), 0)
    ensures Convert(env, Decimal(precision, scale), value) ==
            Convert(env, Decimal(precision, scale), Fixed(NumberOf(value), 0))
  {
    var fixed := Fixed(NumberOf(value), 0);
    if precision <= DECIMAL128_MAX_PRECISION {
      assert AsDecimal(env, value, precision, scale) == AsDecimal(env, fixed, precision, scale);
    } else {
      assert DecimalDigits(env, value) == DecimalDigits(env, fixed);
    }
  }

  lemma DecimalRefuses(env: Env, precision: u8, scale: u8, value: Value)
    requires ValidDecimal(precision, scale) && (value.Bool? || value.Timestamp?)
    ensures Convert(env, Decimal(precision, scale), value) == None
  {
    assert DecimalDigits(env, value) == None;
  }

  lemma FixedKeysApart(env: Env, precision: u8, scale: u8, a: Value, b: Value)
    requires ValidDecimal(precision, scale) && PlainText(env, a) != PlainText(env, b)
    requires a.Fixed? && b.Fixed? && a.scale == b.scale
    requires Convert(env, Decimal(precision, scale), a).Some? && Convert(env, Decimal(precision, scale), b).Some?
    ensures Convert(env, Decimal(precision, scale), a) != Convert(env, Decimal(precision, scale), b)
  {
    FixedStayDistinct(env, precision, scale, a.units, b.units, a.scale);
  }

  lemma DecimalApart(env: Env, precision: u8, scale: u8, kind: Kind, a: Value, b: Value)
    requires ValidDecimal(precision, scale) && TakesBoth(env, Decimal(precision, scale), kind, a, b)
    ensures Convert(env, Decimal(precision, scale), a) != Convert(env, Decimal(precision, scale), b)
  {
    if kind.Integers? {
      IntegerAsFixed(env, precision, scale, a);
      IntegerAsFixed(env, precision, scale, b);
      FixedStayDistinct(env, precision, scale, NumberOf(a), NumberOf(b), 0);
    } else if kind.FixedPoint? {
      FixedKeysApart(env, precision, scale, a, b);
    } else {
      DecimalRefuses(env, precision, scale, a);
    }
  }

  lemma TimeApart(env: Env, ty: DorisType, kind: Kind, a: Value, b: Value)
    requires IsScalar(ty) && IsTime(ty) && kind.Times? && StaysApart(ty, kind) && TakesBoth(env, ty, kind, a, b)
    ensures Convert(env, ty, a) != Convert(env, ty, b)
  {
    assert Pow10(0) == 1;
  }

  lemma TextStored(env: Env, ty: DorisType, value: Value)
    requires KeepsPlainText(ty) && Convert(env, ty, value).Some?
    ensures Convert(env, ty, value) == Some(TextCell(PlainText(env, value)))
  {
  }

  lemma TextApart(env: Env, ty: DorisType, a: Value, b: Value)
    requires KeepsPlainText(ty) && PlainText(env, a) != PlainText(env, b)
    requires Convert(env, ty, a).Some? && Convert(env, ty, b).Some?
    ensures Convert(env, ty, a) != Convert(env, ty, b)
  {
    TextStored(env, ty, a);
    TextStored(env, ty, b);
  }

  lemma KeysApart(env: Env, ty: DorisType, kind: Kind, a: Value, b: Value)
    requires IsScalar(ty) && Decided(ty, kind) && StaysApart(ty, kind) && TakesBoth(env, ty, kind, a, b)
    ensures Convert(env, ty, a) != Convert(env, ty, b)
  {
    if ty.Boolean? {
      BooleanApart(env, kind, a, b);
    } else if IsWhole(ty) {
      WholeApart(env, ty, kind, a, b);
    } else if ty.Decimal? {
      DecimalApart(env, ty.precision, ty.scale, kind, a, b);
    } else if IsTime(ty) {
      TimeApart(env, ty, kind, a, b);
    } else if KeepsPlainText(ty) {
      TextApart(env, ty, a, b);
    }
  }

  // Keys that meet

  /** Two keys of a kind that pass the duplicate check and become one. */
  predicate Meet(env: Env, ty: DorisType, kind: Kind, a: Value, b: Value)
    requires IsScalar(ty)
  {
    Of(kind, a) && Of(kind, b) && Collides(env, ty, a, b)
  }

  lemma FixedApart(units: int, other: int, places: nat)
    requires Abs(units) != Abs(other)
    ensures FormatDecimalUnits(units, places) != FormatDecimalUnits(other, places)
  {
    SplitOfFormat(units, places);
    SplitOfFormat(other, places);
  }

  lemma TrueKeysMeet(env: Env, kind: Kind) returns (a: Value, b: Value)
    requires kind.Integers? || kind.FixedPoint?
    ensures Meet(env, Boolean, kind, a, b)
  {
    if kind.Integers? {
      a, b := I64(1), I64(2);
      SignedApart(1, 2);
    } else {
      a, b := Fixed(1, kind.places), Fixed(2, kind.places);
      FixedApart(1, 2, kind.places);
    }
    CollidesExactly(env, Boolean, a, b);
  }

  lemma FractionIsCut(env: Env, ty: DorisType, units: i128, places: ValueScale)
    requires IsScalar(ty) && IsWhole(ty) && places > 0 && 0 <= units < 10
    ensures Convert(env, ty, Fixed(units, places)) == Some(if ty.LargeInt? then TextCell(Signed(0)) else IntCell(0))
  {
    Pow10Monotone(1, places);
    assert Pow10(1) == 10;
    TruncatesTowardZero(units, Pow10(places), 0);
  }

  lemma FractionsMeet(env: Env, ty: DorisType, places: ValueScale)
    requires IsScalar(ty) && IsWhole(ty) && places > 0
    ensures Meet(env, ty, FixedPoint(places), Fixed(1, places), Fixed(2, places))
  {
    FixedApart(1, 2, places);
    FractionIsCut(env, ty, 1, places);
    FractionIsCut(env, ty, 2, places);
    CollidesExactly(env, ty, Fixed(1, places), Fixed(2, places));
  }

  lemma StartOfDay(env: Env, ty: DorisType, micros: i64, format: string)
    requires IsScalar(ty) && (ty.Date? || (ty.DateTime? && ty.places < 6)) && 0 <= micros < 10
    ensures Convert(env, ty, Timestamp(micros, format)) == Some(if ty.Date? then DateCell(0) else MicrosCell(0))
  {
    if ty.DateTime? {
      Pow10Monotone(1, 6 - ty.places);
      assert Pow10(1) == 10;
      TruncatesTowardZero(micros, Pow10(6 - ty.places), 0);
    }
  }

  lemma TimesMeet(env: Env, ty: DorisType, format: string)
    requires IsScalar(ty) && (ty.Date? || (ty.DateTime? && ty.places < 6)) && ShowsMicros(env, format)
    ensures Meet(env, ty, Times(format), Timestamp(0, format), Timestamp(1, format))
  {
    StartOfDay(env, ty, 0, format);
    StartOfDay(env, ty, 1, format);
    CollidesExactly(env, ty, Timestamp(0, format), Timestamp(1, format));
  }

  lemma KeysMeet(env: Env, ty: DorisType, kind: Kind) returns (a: Value, b: Value)
    requires IsScalar(ty) && Decided(ty, kind) && !StaysApart(ty, kind)
    requires IsTime(ty) ==> ShowsMicros(env, kind.format)
    ensures Meet(env, ty, kind, a, b)
  {
    if ty.Boolean? {
      a, b := TrueKeysMeet(env, kind);
    } else if IsWhole(ty) {
      FractionsMeet(env, ty, kind.places);
      a, b := Fixed(1, kind.places), Fixed(2, kind.places);
    } else {
      TimesMeet(env, ty, kind.format);
      a, b := Timestamp(0, kind.format), Timestamp(1, kind.format);
    }
  }

  /** Typed keys of one kind that pass the duplicate check can become the same
      key exactly where the conversion forgets something: numbers into BOOLEAN,
      fractions into an integer type, times into DATE or a DATETIME of fewer
      than six places. */
  lemma TypedKeysMeetExactly(env: Env, ty: DorisType, kind: Kind)
    requires IsScalar(ty) && Decided(ty, kind)
    requires IsTime(ty) ==> ShowsMicros(env, kind.format)
    ensures (exists a, b :: Meet(env, ty, kind, a, b)) <==> !StaysApart(ty, kind)
  {
    if StaysApart(ty, kind) {
      forall a, b ensures !Meet(env, ty, kind, a, b) {
        CollidesExactly(env, ty, a, b);
        if Meet(env, ty, kind, a, b) {
          KeysApart(env, ty, kind, a, b);
        }
      }
    } else {
      var a, b := KeysMeet(env, ty, kind);
    }
  }

  // Keys drawn by derived generators

  ghost predicate ReadsIpv4(env: Env) {
    forall n: nat | n <= U32_MAX :: (env.parseIpv4)(Trim((env.ipv4Text)(n))) == Some(n)
  }

  ghost predicate ReadsIpv6(env: Env) {
    forall n: nat | n < 0x1_0000_0000_0000_0000_0000_0000_0000_0000 ::
      (env.parseIpv6)(Trim((env.ipv6Text)(n))) == Some(n)
  }

  /** A day's times render alike as a date. */
  ghost predicate ShowsDays(env: Env) {
    forall m: int, n: int | m / MICROS_PER_DAY == n / MICROS_PER_DAY ::
      (env.timestampText)(m, DATE_FORMAT) == (env.timestampText)(n, DATE_FORMAT)
  }

  /** Times of one unit render alike with so many places. */
  ghost predicate ShowsPlaces(env: Env, places: u8)
    requires places <= 6
  {
    forall m: int, n: int | FloorMicros(m, places) == FloorMicros(n, places) ::
      (env.timestampText)(m, TimeFormat(places)) == (env.timestampText)(n, TimeFormat(places))
  }

  /** What the library calls behind a key type have to keep. */
  ghost predicate RendersKeys(env: Env, key: DorisType)
    requires IsScalar(key)
  {
    && (key.Ipv4? ==> ReadsIpv4(env)) && (key.Ipv6? ==> ReadsIpv6(env))
    && (key.Date? ==> ShowsDays(env)) && (key.DateTime? ==> ShowsPlaces(env, key.places))
  }

  /** Two floats that are one once narrowed to 32 bits. */
  predicate Narrowed(env: Env, key: DorisType, a: Value, b: Value) {
    key.Float? && a.F64? && b.F64? && (env.narrow)(a.float) == (env.narrow)(b.float)
  }

  ghost predicate DrawnKeys(env: Env, clock: Clock, key: DorisType, a: Value, b: Value)
    requires IsGeneratable(key)
  {
    && Draws(env, clock, MapKeyGenerator(key), a) && Draws(env, clock, MapKeyGenerator(key), b)
    && PlainText(env, a) != PlainText(env, b)
  }

  lemma IntegerDrawn(env: Env, clock: Clock, key: DorisType, v: Value)
    requires IsWhole(key) && Draws(env, clock, GeneratorByType(key), v)
    ensures IsInteger(v)
  {
  }

  lemma DecimalDrawn(env: Env, clock: Clock, precision: u8, scale: u8, v: Value)
    requires ValidDecimal(precision, scale) && Draws(env, clock, DecimalSpec(precision, scale), v)
    ensures v.Fixed? && v.scale == Min(scale, 18)
  {
  }

  lemma DecimalsApart(env: Env, clock: Clock, precision: u8, scale: u8, a: Value, b: Value)
    requires ValidDecimal(precision, scale) && PlainText(env, a) != PlainText(env, b)
    requires Draws(env, clock, DecimalSpec(precision, scale), a) && Draws(env, clock, DecimalSpec(precision, scale), b)
    requires Convert(env, Decimal(precision, scale), a).Some? && Convert(env, Decimal(precision, scale), b).Some?
    ensures Convert(env, Decimal(precision, scale), a) != Convert(env, Decimal(precision, scale), b)
  {
    DecimalDrawn(env, clock, precision, scale, a);
    DecimalDrawn(env, clock, precision, scale, b);
    FixedKeysApart(env, precision, scale, a, b);
  }

  lemma DecimalKeysApart(env: Env, clock: Clock, key: DorisType, precision: u8, scale: u8, a: Value, b: Value)
    requires key == Decimal(precision, scale) && ValidDecimal(precision, scale) && DrawnKeys(env, clock, key, a, b)
    requires Convert(env, key, a).Some? && Convert(env, key, b).Some?
    ensures Convert(env, key, a) != Convert(env, key, b)
  {
    assert MapKeyGenerator(key) == DecimalSpec(precision, scale);
    DecimalsApart(env, clock, precision, scale, a, b);
  }

  lemma NumbersApart(env: Env, clock: Clock, key: DorisType, a: Value, b: Value)
    requires IsScalar(key) && (IsWhole(key) || key.Decimal?) && DrawnKeys(env, clock, key, a, b)
    requires Convert(env, key, a).Some? && Convert(env, key, b).Some?
    ensures Convert(env, key, a) != Convert(env, key, b)
  {
    if key.Decimal? {
      DecimalKeysApart(env, clock, key, key.precision, key.scale, a, b);
    } else {
      IntegerDrawn(env, clock, key, a);
      IntegerDrawn(env, clock, key, b);
      WholeApart(env, key, Integers, a, b);
    }
  }

  lemma TimeDrawn(env: Env, clock: Clock, key: DorisType, v: Value)
    requires IsScalar(key) && IsTime(key) && Draws(env, clock, GeneratorByType(key), v)
    requires Convert(env, key, v).Some?
    ensures v.Timestamp? && v.format == if key.Date? then DATE_FORMAT else TimeFormat(key.places)
    ensures Convert(env, key, v) ==
            Some(if key.Date? then DateCell(v.micros / MICROS_PER_DAY)
                 else MicrosCell(FloorMicros(v.micros, key.places)))
  {
  }

  lemma TimesApart(env: Env, clock: Clock, key: DorisType, a: Value, b: Value)
    requires IsScalar(key) && IsTime(key) && RendersKeys(env, key) && DrawnKeys(env, clock, key, a, b)
    requires Convert(env, key, a).Some? && Convert(env, key, b).Some?
    ensures Convert(env, key, a) != Convert(env, key, b)
  {
    TimeDrawn(env, clock, key, a);
    TimeDrawn(env, clock, key, b);
  }

  lemma FlagText(env: Env, clock: Clock, v: Value)
    requires Draws(env, clock, GeneratorByType(Boolean), v)
    ensures v == Text("true") || v == Text("false")
  {
  }

  lemma FlagDrawn(env: Env, v: Value)
    requires v == Text("true") || v == Text("false")
    ensures Convert(env, Boolean, v) == Some(BoolCell(v == Text("true")))
  {
    TrimClean(v.text);
    assert Lower(v.text) == v.text;
  }

  lemma FlagsApart(env: Env, clock: Clock, a: Value, b: Value)
    requires DrawnKeys(env, clock, Boolean, a, b)
    ensures Convert(env, Boolean, a) != Convert(env, Boolean, b)
  {
    FlagText(env, clock, a);
    FlagText(env, clock, b);
    FlagDrawn(env, a);
    FlagDrawn(env, b);
  }

  /** An address key is stored as the text drawn. */
  lemma AddressDrawn(env: Env, clock: Clock, key: DorisType, v: Value)
    requires IsScalar(key) && (key.Ipv4? || key.Ipv6?) && RendersKeys(env, key)
    requires Draws(env, clock, GeneratorByType(key), v)
    ensures Convert(env, key, v) == Some(TextCell(PlainText(env, v)))
  {
    var spec := GeneratorByType(key);
    if key.Ipv4? {
      var n: nat :| IsAddress(env.ipv4Text, n, spec.network, spec.hosts, v);
    } else {
      var n: nat :| IsAddress(env.ipv6Text, n, spec.network, spec.hosts, v);
    }
  }

  /** An object key is stored as its JSON text, which is also its plain text. */
  lemma ObjectDrawn(env: Env, clock: Clock, key: DorisType, v: Value)
    requires (key.Json? || key.Variant?) && Draws(env, clock, GeneratorByType(key), v)
    ensures Convert(env, key, v) == Some(TextCell(PlainText(env, v)))
  {
  }

  lemma TextsApart(env: Env, clock: Clock, key: DorisType, a: Value, b: Value)
    requires IsScalar(key) && RendersKeys(env, key) && DrawnKeys(env, clock, key, a, b)
    requires key.Ipv4? || key.Ipv6? || key.Json? || key.Variant?
    ensures Convert(env, key, a) != Convert(env, key, b)
  {
    if key.Ipv4? || key.Ipv6? {
      AddressDrawn(env, clock, key, a);
      AddressDrawn(env, clock, key, b);
    } else {
      ObjectDrawn(env, clock, key, a);
      ObjectDrawn(env, clock, key, b);
    }
  }

  lemma FloatDrawn(env: Env, clock: Clock, key: DorisType, v: Value)
    requires IsFloating(key) && Draws(env, clock, GeneratorByType(key), v) && Convert(env, key, v).Some?
    ensures v.F64? && PlainText(env, v) == (env.floatText)(v.float)
    ensures Convert(env, key, v) == Some(FloatCell(if key.Float? then (env.narrow)(v.float) else v.float))
  {
  }

  lemma FloatsApart(env: Env, clock: Clock, key: DorisType, a: Value, b: Value)
    requires IsFloating(key) && DrawnKeys(env, clock, key, a, b)
    requires Convert(env, key, a).Some? && Convert(env, key, b).Some?
    ensures Convert(env, key, a) == Convert(env, key, b) <==> Narrowed(env, key, a, b)
  {
    FloatDrawn(env, clock, key, a);
    FloatDrawn(env, clock, key, b);
  }

  lemma KeyConverts(env: Env, clock: Clock, key: DorisType, v: Value)
    requires EnvOk(env) && ClockOk(clock) && IsScalar(key) && Wide(key)
    requires Draws(env, clock, MapKeyGenerator(key), v)
    ensures !v.Null? ==> Convert(env, key, v).Some?
  {
    KeyFits(env, clock, key, v);
  }

  lemma OthersApart(env: Env, clock: Clock, key: DorisType, a: Value, b: Value)
    requires IsScalar(key) && !IsFloating(key) && RendersKeys(env, key) && DrawnKeys(env, clock, key, a, b)
    requires Convert(env, key, a).Some? && Convert(env, key, b).Some?
    ensures Convert(env, key, a) != Convert(env, key, b)
  {
    if IsWhole(key) || key.Decimal? {
      NumbersApart(env, clock, key, a, b);
    } else if IsTime(key) {
      TimesApart(env, clock, key, a, b);
    } else if key.Boolean? {
      FlagsApart(env, clock, a, b);
    } else if KeepsPlainText(key) {
      TextApart(env, key, a, b);
    } else {
      TextsApart(env, clock, key, a, b);
    }
  }

  /** Keys a derived MAP generator draws, which render apart, are accepted and
      stay apart, but for FLOAT keys that are one once narrowed. */
  lemma DrawnKeysStayApart(env: Env, clock: Clock, key: DorisType, a: Value, b: Value)
    requires EnvOk(env) && ClockOk(clock) && IsScalar(key) && Wide(key) && RendersKeys(env, key)
    requires DrawnKeys(env, clock, key, a, b) && !a.Null? && !b.Null?
    ensures Convert(env, key, a).Some? && Convert(env, key, b).Some?
    ensures Convert(env, key, a) == Convert(env, key, b) <==> Narrowed(env, key, a, b)
  {
    KeyConverts(env, clock, key, a);
    KeyConverts(env, clock, key, b);
    if IsFloating(key) {
      FloatsApart(env, clock, key, a, b);
    } else {
      OthersApart(env, clock, key, a, b);
    }
  }

  lemma MapDrawn(env: Env, clock: Clock, key: DorisType, item: DorisType, value: Value)
    requires IsGeneratable(Map(key, item)) && Draws(env, clock, GeneratorByType(Map(key, item)), value)
    ensures value.Dict? && KeysDiffer(env, value.entries)
    ensures forall i | 0 <= i < |value.entries| :: Draws(env, clock, MapKeyGenerator(key), value.entries[i].0)
  {
  }

  /** So no map a derived generator draws holds a converted key twice, but for
      FLOAT keys. */
  lemma DrawnMapKeysStayApart(env: Env, clock: Clock, key: DorisType, item: DorisType, value: Value, i: nat, j: nat)
    requires Ready(env, clock, Map(key, item)) && Wide(key) && IsScalar(key) && RendersKeys(env, key)
    requires Draws(env, clock, GeneratorByType(Map(key, item)), value)
    requires i < j < |value.entries|
    ensures Convert(env, key, value.entries[i].0).Some?
    ensures Convert(env, key, value.entries[i].0) == Convert(env, key, value.entries[j].0) <==>
            Narrowed(env, key, value.entries[i].0, value.entries[j].0)
  {
    MapDrawn(env, clock, key, item, value);
    DrawnKeysStayApart(env, clock, key, value.entries[i].0, value.entries[j].0);
  }
}
