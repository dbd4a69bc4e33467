/** Every value a derived generator draws is accepted by its own column.

    Text stays within its width in bytes, decimals within their precision once
    rescaled, times within Doris's range; nested values follow by induction on
    the type. */
module DeriveFits {
  import opened Wrappers
  import opened Numerals
  import opened Decimals
  import opened Chars
  import opened DorisTypes
  import opened Values
  import opened Scalars
  import opened Columns
  import opened Derive

  ghost predicate Fits(env: Env, ty: DorisType, value: Value) {
    Normalise(CodecOf(env), ty, value).Some?
  }

  /** A non-null scalar fits when its conversion succeeds. */
  lemma ScalarFits(env: Env, ty: DorisType, value: Value)
    requires IsScalar(ty)
    requires !value.Null? ==> Convert(env, ty, value).Some?
    ensures Fits(env, ty, value)
  {
  }

  // Text widths

  lemma {:induction false} JoinWidth(words: seq<string>)
    requires words != [] && forall i | 0 <= i < |words| :: FitsLongest(words[i])
    ensures IsAscii(Join(words)) && |Join(words)| <= 8 * |words| - 1
  {
    if |words| > 1 {
      JoinWidth(words[1..]);
      assert Join(words) == words[0] + " " + Join(words[1..]);
    }
  }

  lemma WordFits(word: string)
    requires word in LOREM_WORDS
    ensures FitsLongest(word)
  {
    LoremWordsFit();
    var i :| 0 <= i < |LOREM_WORDS| && LOREM_WORDS[i] == word;
  }

  lemma LoremWidth(env: Env, clock: Clock, wordsMin: nat, wordsMax: nat, value: Value)
    requires 1 <= wordsMin && Draws(env, clock, Lorem(wordsMin, wordsMax), value)
    ensures value.Text? && Utf8Len(value.text) <= 8 * wordsMax - 1
  {
    var words :| IsLorem(words, wordsMin, wordsMax, value);
    forall i | 0 <= i < |words| ensures FitsLongest(words[i]) {
      WordFits(words[i]);
    }
    JoinWidth(words);
    AsciiLen(Join(words));
  }

  lemma HexWidth(env: Env, clock: Clock, bytes: nat, value: Value)
    requires Draws(env, clock, RandomHex(bytes), value)
    ensures Utf8Len(value.text) == 2 * bytes
  {
    assert forall i | 0 <= i < |value.text| :: IsHex(value.text[i]) && value.text[i] < 128 as char;
    AsciiLen(value.text);
  }

  /** Fixed-width filler never exceeds its width, except that one byte stands
      for a width of zero. */
  lemma FixedWidthFits(env: Env, clock: Clock, len: u32, value: Value)
    requires Draws(env, clock, FixedWidthString(len), value)
    ensures value.Text? && (Utf8Len(value.text) <= len <==> len >= 1)
  {
    if len / 2 == 0 {
      AsciiLen("x");
    } else {
      HexWidth(env, clock, len / 2, value);
    }
  }

  lemma WordsWithin(len: u32)
    requires len >= LONGEST_LOREM_WORD
    ensures LoremWithin(len).Lorem? && 1 <= LoremWithin(len).wordsMin
    ensures 8 * LoremWithin(len).wordsMax - 1 <= len
  {
  }

  /** Lorem text sized for a width never exceeds it. */
  lemma LoremWithinFits(env: Env, clock: Clock, len: u32, value: Value)
    requires len >= LONGEST_LOREM_WORD && Draws(env, clock, LoremWithin(len), value)
    ensures value.Text? && Utf8Len(value.text) <= len
  {
    WordsWithin(len);
    LoremWidth(env, clock, LoremWithin(len).wordsMin, LoremWithin(len).wordsMax, value);
  }

  // Decimals

  lemma {:induction false} NinesValue(k: nat)
    ensures Val(Nines(k)) == Pow10(k) - 1
  {
    if k > 0 {
      NinesValue(k - 1);
      assert Nines(k)[..k - 1] == Nines(k - 1);
    }
  }

  lemma AllNines(w: nat, k: nat)
    ensures (Pow10(w) - 1) * Pow10(k) + (Pow10(k) - 1) == Pow10(w + k) - 1
  {
    Pow10Add(w, k);
    Distribute(Pow10(w), Pow10(k));
  }

  lemma Distribute(a: nat, b: nat)
    requires a >= 1
    ensures (a - 1) * b == a * b - b
  {
  }

  /** A number with its fraction written out is its digits, at that scale. */
  lemma NumberReads(whole: string, fraction: string)
    requires AllDigits(whole) && AllDigits(fraction) && whole != "" && Val(whole + fraction) < Pow10(38)
    ensures BoundUnits(whole + PointAnd(fraction), |fraction|) == Some(Val(whole + fraction))
  {
    var text := whole + PointAnd(fraction);
    SplitOfParts(false, whole, fraction);
    assert SignText(false) + text == text;
    TextToDecimalMeaning(text, DECIMAL128_MAX_PRECISION, |fraction|);
    assert Pow10(0) == 1;
  }

  lemma GreatestValue(digits: nat, places: nat)
    requires digits <= 9 && places <= 18
    ensures Val(Numeral(Pow10(digits) - 1) + Nines(places)) == Pow10(digits + places) - 1
    ensures Pow10(digits + places) <= Pow10(38)
  {
    var whole := Numeral(Pow10(digits) - 1);
    assert Val(whole) == Pow10(digits) - 1;
    ValConcat(whole, Nines(places));
    NinesValue(places);
    AllNines(digits, places);
    Pow10Monotone(digits + places, 38);
  }

  /** The upper bound of a derived decimal generator, in units. */
  lemma GreatestUnits(digits: nat, places: nat)
    requires digits <= 9 && places <= 18
    ensures BoundUnits(NinesText(digits, places), places) == Some(Pow10(digits + places) - 1)
  {
    GreatestValue(digits, places);
    NumberReads(Numeral(Pow10(digits) - 1), Nines(places));
  }

  lemma LeastUnits(places: nat)
    ensures BoundUnits(ZeroText(places), places) == Some(0)
  {
    var zero, zeros := Zeros(1), Zeros(places);
    assert zero == "0" && zero + zeros == Zeros(1 + places);
    ValZeros(1 + places);
    NumberReads(zero, zeros);
  }

  /** Units drawn for a decimal column, moved to the column's scale, stay below
      ten to its precision. */
  lemma RescaledStaysSmall(units: nat, digits: nat, places: nat, precision: nat, scale: nat)
    requires digits + scale <= precision && places <= scale && units <= Pow10(digits + places) - 1
    ensures units * Pow10(scale - places) < Pow10(precision)
  {
    Pow10Add(digits + places, scale - places);
    TimesBelow(units, Pow10(digits + places), Pow10(scale - places));
    assert digits + places + (scale - places) == digits + scale;
    Pow10Monotone(digits + scale, precision);
  }

  lemma TimesBelow(a: nat, b: nat, n: nat)
    requires a < b && n >= 1
    ensures a * n < b * n
  {
  }

  lemma ExactFits(units: i128, places: ValueScale, precision: u8, scale: ValueScale, r: int)
    requires precision <= DECIMAL128_MAX_PRECISION && Denotes(r, scale, units, places) && Abs(r) < Pow10(precision)
    ensures RescaleDecimal(units, places, precision, scale).Ok?
  {
    RescaleIsExact(units, places, precision, scale, r);
  }

  lemma NarrowDecimalFits(units: i128, places: nat, precision: u8, scale: u8)
    requires ValidDecimal(precision, scale) && precision <= DECIMAL128_MAX_PRECISION && places <= scale && 0 <= units
    requires units * Pow10(scale - places) < Pow10(precision)
    ensures RescaleDecimal(units, places, precision, scale).Ok?
  {
    var r := units * Pow10(scale - places);
    DenotesScaledUp(units, places, scale);
    assert r >= 0 by { TimesNonNegative(units, Pow10(scale - places)); }
    ExactFits(units, places, precision, scale, r);
  }

  lemma TimesNonNegative(a: nat, b: nat)
    ensures a * b >= 0
  {
  }

  lemma WideTextFits(text: string, units: nat, places: nat, precision: u8, scale: u8)
    requires ValidDecimal(precision, scale) && places <= scale
    requires units * Pow10(scale - places) < Pow10(precision)
    requires var split := SplitDecimalText(text);
             && split.Ok? && |split.value.fraction| == places
             && Val(split.value.whole + split.value.fraction) == units
    ensures TextToDecimal256(text, precision, scale).Ok?
  {
    TextToDecimal256Meaning(text, precision, scale);
  }

  lemma DecimalUnits(env: Env, clock: Clock, digits: nat, places: nat, value: Value)
    requires digits <= 9 && places <= 18
    requires Draws(env, clock, DecimalRange(ZeroText(places), NinesText(digits, places), places), value)
    ensures value.Fixed? && value.scale == places && 0 <= value.units <= Pow10(digits + places) - 1
  {
    GreatestUnits(digits, places);
    LeastUnits(places);
  }

  lemma WideDecimalFits(units: i128, places: nat, precision: u8, scale: u8)
    requires ValidDecimal(precision, scale) && places <= scale && 0 <= units
    requires units * Pow10(scale - places) < Pow10(precision)
    ensures TextToDecimal256(FormatDecimalUnits(units, places), precision, scale).Ok?
  {
    SplitOfFormat(units, places);
    WideTextFits(FormatDecimalUnits(units, places), units, places, precision, scale);
  }

  predicate SmallEnough(value: Value, precision: u8, scale: u8) {
    && value.Fixed? && 0 <= value.units && value.scale <= scale
    && value.units * Pow10(scale - value.scale) < Pow10(precision)
  }

  lemma DecimalBounds(env: Env, clock: Clock, precision: u8, scale: u8, value: Value)
    requires ValidDecimal(precision, scale) && Draws(env, clock, DecimalSpec(precision, scale), value)
    ensures SmallEnough(value, precision, scale)
  {
    var digits, places := WholeDigits(precision, scale), Min(scale, 18);
    assert digits + scale <= precision && places <= scale;
    DecimalUnits(env, clock, digits, places, value);
    RescaledStaysSmall(value.units, digits, places, precision, scale);
  }

  lemma NarrowConverts(env: Env, precision: u8, scale: u8, value: Value)
    requires ValidDecimal(precision, scale) && precision <= DECIMAL128_MAX_PRECISION && value.Fixed?
    requires RescaleDecimal(value.units, value.scale, precision, scale).Ok?
    ensures Convert(env, Decimal(precision, scale), value).Some?
  {
  }

  lemma WideConverts(env: Env, precision: u8, scale: u8, value: Value)
    requires ValidDecimal(precision, scale) && precision > DECIMAL128_MAX_PRECISION
    requires AsDecimal256(env, value, precision, scale).Some?
    ensures Convert(env, Decimal(precision, scale), value).Some?
  {
    var r := AsDecimal256(env, value, precision, scale).value;
    assert Convert(env, Decimal(precision, scale), value) == Some(DecimalCell(r));
  }

  lemma WideReads(env: Env, value: Value, text: string, precision: u8, scale: u8)
    requires DecimalDigits(env, value) == Some(text) && TextToDecimal256(text, precision, scale).Ok?
    ensures AsDecimal256(env, value, precision, scale).Some?
  {
  }

  lemma DecimalConverts(env: Env, precision: u8, scale: u8, value: Value)
    requires ValidDecimal(precision, scale) && SmallEnough(value, precision, scale)
    ensures Convert(env, Decimal(precision, scale), value).Some?
  {
    if precision <= DECIMAL128_MAX_PRECISION {
      NarrowDecimalFits(value.units, value.scale, precision, scale);
      NarrowConverts(env, precision, scale, value);
    } else {
      WideDecimalFits(value.units, value.scale, precision, scale);
      WideFixedConverts(env, precision, scale, value, FormatDecimalUnits(value.units, value.scale));
    }
  }

  lemma WideFixedConverts(env: Env, precision: u8, scale: u8, value: Value, text: string)
    requires ValidDecimal(precision, scale) && precision > DECIMAL128_MAX_PRECISION
    requires DecimalDigits(env, value) == Some(text) && TextToDecimal256(text, precision, scale).Ok?
    ensures Convert(env, Decimal(precision, scale), value).Some?
  {
    WideReads(env, value, text, precision, scale);
    WideConverts(env, precision, scale, value);
  }

  lemma DecimalFits(env: Env, clock: Clock, precision: u8, scale: u8, value: Value)
    requires ValidDecimal(precision, scale) && Draws(env, clock, DecimalSpec(precision, scale), value)
    ensures Convert(env, Decimal(precision, scale), value).Some?
  {
    DecimalBounds(env, clock, precision, scale, value);
    DecimalConverts(env, precision, scale, value);
  }

  // Times

  lemma DayInRange(micros: int)
    requires MIN_DATETIME_MICROS <= micros <= MAX_DATETIME_MICROS
    ensures MIN_DATE_DAYS <= micros / MICROS_PER_DAY <= MAX_DATE_DAYS
  {
  }

  lemma TimeFits(env: Env, clock: Clock, ty: DorisType, value: Value)
    requires ClockOk(clock) && IsScalar(ty) && (ty.Date? || ty.DateTime?)
    requires Draws(env, clock, GeneratorByType(ty), value)
    ensures Convert(env, ty, value).Some?
  {
    DayInRange(value.micros);
  }

  // Scalars

  lemma BooleanFits(env: Env, value: Value)
    requires value == Text("true") || value == Text("false")
    ensures Convert(env, Boolean, value).Some?
  {
    TrimClean(value.text);
    assert Lower(value.text) == value.text;
  }

  lemma AddressFits(env: Env, clock: Clock, ty: DorisType, value: Value)
    requires EnvOk(env) && (ty.Ipv4? || ty.Ipv6?) && Draws(env, clock, GeneratorByType(ty), value)
    ensures Convert(env, ty, value).Some?
  {
  }

  lemma StringFits(env: Env, clock: Clock, ty: DorisType, value: Value)
    requires (ty.Char? || ty.Varchar? || ty.String?) && Wide(ty)
    requires Draws(env, clock, GeneratorByType(ty), value)
    ensures Convert(env, ty, value).Some?
  {
    if ty.Varchar? && ty.len >= LOREM_MIN_WIDTH {
      LoremWithinFits(env, clock, ty.len, value);
    } else if !ty.String? {
      FixedWidthFits(env, clock, ty.len, value);
    }
  }

  lemma OtherScalarFits(env: Env, clock: Clock, ty: DorisType, value: Value)
    requires EnvOk(env) && IsScalar(ty) && Draws(env, clock, GeneratorByType(ty), value)
    requires IntegerType(ty) || ty.LargeInt? || ty.Float? || ty.Double? || ty.QuantileState? || ty.Hll?
          || ty.Json? || ty.Variant?
    ensures Convert(env, ty, value).Some?
  {
  }

  lemma TextDrawConverts(env: Env, clock: Clock, ty: DorisType, value: Value)
    requires ty.Boolean? || ty.Char? || ty.Varchar? || ty.String? || ty.Ipv4? || ty.Ipv6?
    requires EnvOk(env) && Wide(ty) && Draws(env, clock, GeneratorByType(ty), value)
    ensures Convert(env, ty, value).Some?
  {
    if ty.Boolean? {
      BooleanFits(env, value);
    } else if ty.Ipv4? || ty.Ipv6? {
      AddressFits(env, clock, ty, value);
    } else {
      StringFits(env, clock, ty, value);
    }
  }

  lemma MeasuredDrawConverts(env: Env, clock: Clock, ty: DorisType, value: Value)
    requires ClockOk(clock) && IsScalar(ty) && Draws(env, clock, GeneratorByType(ty), value)
    requires ty.Decimal? || ty.Date? || ty.DateTime?
    ensures Convert(env, ty, value).Some?
  {
    if ty.Decimal? {
      DecimalFits(env, clock, ty.precision, ty.scale, value);
    } else {
      TimeFits(env, clock, ty, value);
    }
  }

  lemma ScalarDrawFits(env: Env, clock: Clock, ty: DorisType, value: Value)
    requires EnvOk(env) && ClockOk(clock) && IsScalar(ty) && Wide(ty)
    requires Draws(env, clock, GeneratorByType(ty), value)
    ensures Convert(env, ty, value).Some? && Fits(env, ty, value)
  {
    if ty.Boolean? || ty.Char? || ty.Varchar? || ty.String? || ty.Ipv4? || ty.Ipv6? {
      TextDrawConverts(env, clock, ty, value);
    } else if ty.Decimal? || ty.Date? || ty.DateTime? {
      MeasuredDrawConverts(env, clock, ty, value);
    } else {
      OtherScalarFits(env, clock, ty, value);
    }
    ScalarFits(env, ty, value);
  }

  // Map keys

  lemma ShortTextFits(env: Env, ty: DorisType, value: Value, width: u32)
    requires StringWidth(ty) == Some(width) && value.Text?
    requires Utf8Len(value.text) <= width
    ensures Fits(env, ty, value)
  {
  }

  lemma KeyFits(env: Env, clock: Clock, key: DorisType, value: Value)
    requires EnvOk(env) && ClockOk(clock) && IsScalar(key) && Wide(key)
    requires Draws(env, clock, MapKeyGenerator(key), value)
    ensures Fits(env, key, value)
  {
    match StringWidth(key)
    case Some(width) =>
      if width >= LONGEST_LOREM_WORD {
        LoremWidth(env, clock, 1, 1, value);
      } else {
        FixedWidthFits(env, clock, width, value);
      }
      ShortTextFits(env, key, value, width);
    case None => ScalarDrawFits(env, clock, key, value);
  }

  // Nested values

  predicate Accepts(codec: Codec, ty: DorisType, value: Value) {
    Normalise(codec, ty, value).Some?
  }

  lemma ListFits(codec: Codec, element: DorisType, items: seq<Value>)
    requires forall i | 0 <= i < |items| :: Accepts(codec, element, items[i])
    ensures Accepts(codec, Array(element), List(items))
  {
    assert AllNormal(codec, element, items);
  }

  lemma DictFits(codec: Codec, key: DorisType, item: DorisType, entries: seq<(Value, Value)>)
    requires forall i | 0 <= i < |entries| :: Accepts(codec, key, entries[i].0) && Accepts(codec, item, entries[i].1)
    requires KeysOk(codec, entries)
    ensures Accepts(codec, Map(key, item), Dict(entries))
  {
    assert AllNormal(codec, key, Firsts(entries));
    assert AllNormal(codec, item, Seconds(entries));
  }

  lemma DistinctKeysOk(env: Env, entries: seq<(Value, Value)>)
    requires KeysDiffer(env, entries)
    ensures KeysOk(CodecOf(env), entries)
  {
  }

  predicate SameNames(fields: seq<Field>, named: seq<(string, Value)>) {
    |named| == |fields| && forall k | 0 <= k < |fields| :: named[k].0 == fields[k].name
  }

  lemma {:induction false} LastNamedAt(named: seq<(string, Value)>, k: nat)
    requires k < |named| && forall j | k < j < |named| :: named[j].0 != named[k].0
    ensures LastNamed(named, named[k].0) == named[k].1
  {
    if k < |named| - 1 {
      LastNamedAt(named[..|named| - 1], k);
    }
  }

  lemma SlotIsOwn(fields: seq<Field>, named: seq<(string, Value)>, k: nat)
    requires DistinctNames(fields) && SameNames(fields, named) && k < |fields|
    ensures SlotOf(fields, named, k) == named[k].1
    ensures FieldIndex(fields, fields[k].name) == Some(k)
  {
    LastNamedAt(named, k);
  }

  lemma SpreadsInOrder(fields: seq<Field>, named: seq<(string, Value)>)
    requires DistinctNames(fields) && SameNames(fields, named)
    ensures SpreadRow(fields, Record(named)).Some?
    ensures forall k | 0 <= k < |fields| :: SpreadRow(fields, Record(named)).value[k] == named[k].1
  {
    forall k | 0 <= k < |fields|
      ensures SlotOf(fields, named, k) == named[k].1 && FieldIndex(fields, named[k].0) == Some(k)
    {
      SlotIsOwn(fields, named, k);
    }
  }

  lemma RecordFits(codec: Codec, fields: seq<Field>, named: seq<(string, Value)>)
    requires DistinctNames(fields) && SameNames(fields, named)
    requires forall k | 0 <= k < |fields| :: Accepts(codec, fields[k].ty, named[k].1)
    ensures Accepts(codec, Struct(fields), Record(named))
  {
    SpreadsInOrder(fields, named);
  }

  /** What the fit of one type rests on. */
  ghost predicate Ready(env: Env, clock: Clock, ty: DorisType) {
    EnvOk(env) && ClockOk(clock) && IsGeneratable(ty) && Supported(ty) && Apart(ty)
  }

  lemma ArrayFits(env: Env, clock: Clock, element: DorisType, value: Value)
    requires Ready(env, clock, Array(element)) && Wide(Array(element))
    requires Draws(env, clock, GeneratorByType(Array(element)), value)
    ensures Fits(env, Array(element), value)
    decreases element, 1
  {
    forall i | 0 <= i < |value.items| ensures Accepts(CodecOf(env), element, value.items[i]) {
      DerivedFits(env, clock, element, value.items[i]);
    }
    ListFits(CodecOf(env), element, value.items);
  }

  lemma ScalarKey(key: DorisType)
    requires !IsNested(key) && Supported(key)
    ensures IsScalar(key)
  {
  }

  lemma MapFits(env: Env, clock: Clock, key: DorisType, item: DorisType, value: Value)
    requires Ready(env, clock, Map(key, item)) && Wide(Map(key, item))
    requires Draws(env, clock, GeneratorByType(Map(key, item)), value)
    ensures Fits(env, Map(key, item), value)
    decreases item, 1
  {
    var codec := CodecOf(env);
    forall i | 0 <= i < |value.entries| ensures Accepts(codec, key, value.entries[i].0) {
      ScalarKey(key);
      KeyFits(env, clock, key, value.entries[i].0);
    }
    forall i | 0 <= i < |value.entries| ensures Accepts(codec, item, value.entries[i].1) {
      DerivedFits(env, clock, item, value.entries[i].1);
    }
    DistinctKeysOk(env, value.entries);
    DictFits(codec, key, item, value.entries);
  }

  lemma StructFits(env: Env, clock: Clock, fields: seq<Field>, value: Value)
    requires Ready(env, clock, Struct(fields)) && Wide(Struct(fields))
    requires Draws(env, clock, GeneratorByType(Struct(fields)), value)
    ensures Fits(env, Struct(fields), value)
    decreases fields, 1
  {
    forall k | 0 <= k < |fields| ensures Accepts(CodecOf(env), fields[k].ty, value.fields[k].1) {
      assert fields[k] in fields;
      DerivedFits(env, clock, fields[k].ty, value.fields[k].1);
    }
    RecordFits(CodecOf(env), fields, value.fields);
  }

  /** Every value the derived generator of a supported type can draw is accepted
      by a column of that type, at every depth, when text columns hold at least
      one byte and the clock is inside Doris's range. */
  lemma {:induction false} DerivedFits(env: Env, clock: Clock, ty: DorisType, value: Value)
    requires Ready(env, clock, ty) && Wide(ty) && Draws(env, clock, GeneratorByType(ty), value)
    ensures Fits(env, ty, value)
    decreases ty, 0
  {
    if ty.Array? {
      ArrayFits(env, clock, ty.element, value);
    } else if ty.Map? {
      MapFits(env, clock, ty.key, ty.item, value);
    } else if ty.Struct? {
      StructFits(env, clock, ty.fields, value);
    } else {
      ScalarKey(ty);
      ScalarDrawFits(env, clock, ty, value);
    }
  }

  /** A text column accepts what is drawn for it if and only if it holds at
      least one byte: the one-character stand-in is too wide for CHAR(0). */
  lemma TextColumnFitsExactly(env: Env, clock: Clock, ty: DorisType, value: Value)
    requires EnvOk(env) && ClockOk(clock) && (ty.Char? || ty.Varchar?)
    requires Draws(env, clock, GeneratorByType(ty), value)
    ensures Fits(env, ty, value) <==> ty.len >= 1
  {
    if ty.len >= 1 {
      ScalarDrawFits(env, clock, ty, value);
    } else {
      FixedWidthFits(env, clock, ty.len, value);
    }
  }
}
