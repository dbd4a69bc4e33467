/** MAP keys are compared by their plain text before conversion. Whether the
    converted keys stay distinct depends on the key type. */
module MapKeys {
  import opened Wrappers
  import opened Numerals
  import opened Decimals
  import opened Chars
  import opened DorisTypes
  import opened Values
  import opened Scalars
  import opened Columns

  /** Key types whose converted form is the plain text itself. */
  predicate KeepsPlainText(ty: DorisType) {
    ty.Char? || ty.Varchar? || ty.String? || ty.Hll?
  }

  /** Two values told apart by their plain text that become the same key. */
  predicate Collides(env: Env, ty: DorisType, a: Value, b: Value)
    requires IsScalar(ty)
  {
    && KeysOk(CodecOf(env), [(a, Null), (b, Null)])
    && Convert(env, ty, a).Some? && Convert(env, ty, a) == Convert(env, ty, b)
  }

  /** A text key column never holds the same key twice in one row. */
  lemma TextKeysStayDistinct(env: Env, ty: DorisType, entries: seq<(Value, Value)>, i: nat, j: nat)
    requires KeepsPlainText(ty) && KeysOk(CodecOf(env), entries)
    requires i < j < |entries|
    requires Convert(env, ty, entries[i].0).Some? && Convert(env, ty, entries[j].0).Some?
    ensures Convert(env, ty, entries[i].0) != Convert(env, ty, entries[j].0)
  {
    assert CodecOf(env).plain(entries[i].0) != CodecOf(env).plain(entries[j].0);
  }

  // Keys fed as numbers

  predicate IsInteger(value: Value) {
    value.I64? || value.I128?
  }

  function NumberOf(value: Value): int
    requires IsInteger(value)
  {
    if value.I64? then value.small as int else value.large as int
  }

  lemma StoredInteger(env: Env, ty: DorisType, value: Value)
    requires (IntegerType(ty) || ty.LargeInt?) && IsInteger(value) && Convert(env, ty, value).Some?
    ensures PlainText(env, value) == Signed(NumberOf(value))
    ensures Convert(env, ty, value) ==
            Some(if ty.LargeInt? then TextCell(Signed(NumberOf(value))) else IntCell(NumberOf(value)))
  {
  }

  /** An integer key column fed integers never holds the same key twice. */
  lemma IntegersStayDistinct(env: Env, ty: DorisType, a: Value, b: Value)
    requires (IntegerType(ty) || ty.LargeInt?) && IsInteger(a) && IsInteger(b)
    requires PlainText(env, a) != PlainText(env, b)
    requires Convert(env, ty, a).Some? && Convert(env, ty, b).Some?
    ensures Convert(env, ty, a) != Convert(env, ty, b)
  {
    StoredInteger(env, ty, a);
    StoredInteger(env, ty, b);
  }

  lemma NarrowStored(env: Env, precision: u8, scale: u8, value: Value, r: int)
    requires ValidDecimal(precision, scale) && precision <= DECIMAL128_MAX_PRECISION && value.Fixed?
    requires Convert(env, Decimal(precision, scale), value) == Some(DecimalCell(r))
    ensures RescaleDecimal(value.units, value.scale, precision, scale) == Ok(r)
  {
    assert AsDecimal(env, value, precision, scale) == Some(r);
  }

  lemma WideCell(env: Env, precision: u8, scale: u8, value: Value, r: int)
    requires ValidDecimal(precision, scale) && precision > DECIMAL128_MAX_PRECISION
    requires Convert(env, Decimal(precision, scale), value) == Some(DecimalCell(r))
    ensures AsDecimal256(env, value, precision, scale) == Some(r)
  {
  }

  lemma WideDigits(env: Env, value: Value, text: string, precision: u8, scale: u8, r: int)
    requires DecimalDigits(env, value) == Some(text) && AsDecimal256(env, value, precision, scale) == Some(r)
    ensures TextToDecimal256(text, precision, scale) == Ok(r)
  {
    assert ToOption(TextToDecimal256(text, precision, scale)) == Some(r);
  }

  lemma WideStored(env: Env, precision: u8, scale: u8, value: Value, r: int)
    requires ValidDecimal(precision, scale) && precision > DECIMAL128_MAX_PRECISION && value.Fixed?
    requires Convert(env, Decimal(precision, scale), value) == Some(DecimalCell(r))
    ensures TextToDecimal256(FormatDecimalUnits(value.units, value.scale), precision, scale) == Ok(r)
  {
    WideCell(env, precision, scale, value, r);
    WideDigits(env, value, FormatDecimalUnits(value.units, value.scale), precision, scale, r);
  }

  /** The number an accepted fixed-point value is stored as. */
  lemma StoredFixed(env: Env, precision: u8, scale: u8, value: Value, r: int)
    requires ValidDecimal(precision, scale) && value.Fixed?
    requires Convert(env, Decimal(precision, scale), value) == Some(DecimalCell(r))
    ensures Denotes(r, scale, value.units, value.scale)
  {
    if precision <= DECIMAL128_MAX_PRECISION {
      NarrowStored(env, precision, scale, value, r);
      RescaleIsExact(value.units, value.scale, precision, scale, r);
    } else {
      WideStored(env, precision, scale, value, r);
      WideIsExact(value.units, value.scale, precision, scale, r);
    }
  }

  lemma WideIsExact(units: i128, places: ValueScale, precision: u8, scale: u8, r: int)
    requires ValidDecimal(precision, scale)
    requires TextToDecimal256(FormatDecimalUnits(units, places), precision, scale) == Ok(r)
    ensures Denotes(r, scale, units, places)
  {
    var text := FormatDecimalUnits(units, places);
    SplitOfFormat(units, places);
    TextToDecimal256Meaning(text, precision, scale);
    AbsTimes(units, Pow10(scale - places));
    DenotesScaledUp(units, places, scale);
  }

  /** A decimal key column fed values of one scale never holds the same key
      twice; values of two scales can meet, as 1 and 1.0 do. */
  lemma FixedStayDistinct(env: Env, precision: u8, scale: u8, units: i128, other: i128, places: ValueScale)
    requires ValidDecimal(precision, scale)
    requires FormatDecimalUnits(units, places) != FormatDecimalUnits(other, places)
    requires var ty := Decimal(precision, scale);
             Convert(env, ty, Fixed(units, places)).Some? && Convert(env, ty, Fixed(other, places)).Some?
    ensures var ty := Decimal(precision, scale);
            Convert(env, ty, Fixed(units, places)) != Convert(env, ty, Fixed(other, places))
  {
    var ty := Decimal(precision, scale);
    var r := Convert(env, ty, Fixed(units, places)).value.unscaled;
    var q := Convert(env, ty, Fixed(other, places)).value.unscaled;
    StoredFixed(env, precision, scale, Fixed(units, places), r);
    StoredFixed(env, precision, scale, Fixed(other, places), q);
    if r == q {
      MulCancel(units, other, Pow10(scale));
    }
  }

  // Keys fed as text

  /** Columns that store the text itself. */
  predicate StoresText(ty: DorisType) {
    KeepsPlainText(ty) || ty.Json? || ty.Variant?
  }

  lemma BlankIsTrimmed(t: string)
    ensures Trim(" " + t) == Trim(t)
  {
    TrimStartSkips(" ", t);
  }

  /** Every other scalar column trims its text first. */
  lemma BlankMakesNoDifference(env: Env, ty: DorisType, t: string)
    requires IsScalar(ty) && !StoresText(ty)
    ensures Convert(env, ty, Text(" " + t)) == Convert(env, ty, Text(t))
  {
    BlankIsTrimmed(t);
    SameTrimmed(env, ty, " " + t, t);
  }

  lemma SameTrimmed(env: Env, ty: DorisType, s: string, t: string)
    requires IsScalar(ty) && !StoresText(ty) && Trim(s) == Trim(t)
    ensures Convert(env, ty, Text(s)) == Convert(env, ty, Text(t))
  {
    if ty.Decimal? {
      SameDigits(env, ty.precision, ty.scale, s, t);
    } else if ty.Date? || ty.DateTime? {
      SameTime(env, ty, s, t);
    }
  }

  lemma SameTime(env: Env, ty: DorisType, s: string, t: string)
    requires IsScalar(ty) && (ty.Date? || ty.DateTime?) && Trim(s) == Trim(t)
    ensures Convert(env, ty, Text(s)) == Convert(env, ty, Text(t))
  {
    assert AsDate(env, Text(s)) == AsDate(env, Text(t));
    assert AsMicros(env, Text(s)) == AsMicros(env, Text(t));
  }

  lemma SameDigits(env: Env, precision: u8, scale: u8, s: string, t: string)
    requires ValidDecimal(precision, scale) && Trim(s) == Trim(t)
    ensures Convert(env, Decimal(precision, scale), Text(s)) == Convert(env, Decimal(precision, scale), Text(t))
  {
    assert DecimalDigits(env, Text(s)) == DecimalDigits(env, Text(t));
  }

  lemma ApartByText(env: Env, s: string, t: string)
    requires s != t
    ensures KeysOk(CodecOf(env), [(Text(s), Null), (Text(t), Null)])
  {
    assert CodecOf(env).plain(Text(s)) == s && CodecOf(env).plain(Text(t)) == t;
  }

  /** Text that passes the duplicate check beside `t` and becomes the same key. */
  predicate Doubles(env: Env, ty: DorisType, t: string, u: string)
    requires IsScalar(ty)
  {
    Collides(env, ty, Text(t), Text(u))
  }

  lemma StoredTextDiffers(env: Env, ty: DorisType, t: string, u: string)
    requires IsScalar(ty) && StoresText(ty) && Convert(env, ty, Text(t)).Some?
    requires KeysOk(CodecOf(env), [(Text(t), Null), (Text(u), Null)])
    ensures Convert(env, ty, Text(t)) != Convert(env, ty, Text(u))
  {
    assert CodecOf(env).plain(Text(t)) != CodecOf(env).plain(Text(u)) by {
      var entries := [(Text(t), Null), (Text(u), Null)];
      assert entries[0].0 == Text(t) && entries[1].0 == Text(u);
    }
    assert Convert(env, ty, Text(t)) == Some(TextCell(t));
  }

  /** An accepted text key has another text that passes the duplicate check and
      becomes the same key if and only if its column does not store text. */
  lemma TextKeyMeetsAnother(env: Env, ty: DorisType, t: string)
    requires IsScalar(ty) && Convert(env, ty, Text(t)).Some?
    ensures (exists u :: Doubles(env, ty, t, u)) <==> !StoresText(ty)
  {
    if StoresText(ty) {
      forall u ensures !Doubles(env, ty, t, u) {
        if KeysOk(CodecOf(env), [(Text(t), Null), (Text(u), Null)]) {
          StoredTextDiffers(env, ty, t, u);
        }
      }
    } else {
      BlankMakesNoDifference(env, ty, t);
      ApartByText(env, t, " " + t);
      assert Doubles(env, ty, t, " " + t);
    }
  }

  // Such keys exist

  predicate NumberKey(ty: DorisType) {
    IntegerType(ty) || ty.LargeInt? || ty.Boolean? || (ty.Decimal? && ValidDecimal(ty.precision, ty.scale))
  }

  lemma TrimDigits(s: string)
    requires AllDigits(s) && s != ""
    ensures Trim(s) == s
  {
    assert IsDigit(s[0]) && IsDigit(s[|s| - 1]);
    TrimClean(s);
  }

  /** Digits denoting zero, such as `0` and `00`. */
  predicate SpellsZero(s: string) {
    s != "" && AllDigits(s) && Val(s) == 0
  }

  lemma ZeroInteger(s: string, min: int, max: int)
    requires SpellsZero(s) && I128_MIN <= min <= 0 <= max <= I128_MAX
    ensures AsInt(Text(s), min, max) == Some(0)
  {
    TrimDigits(s);
    ParseSignedDigits(s, I128_MIN, I128_MAX);
  }

  lemma ZeroDecimal(env: Env, s: string, precision: u8, scale: u8)
    requires SpellsZero(s) && ValidDecimal(precision, scale)
    ensures Convert(env, Decimal(precision, scale), Text(s)) == Some(DecimalCell(0))
  {
    assert DecimalDigits(env, Text(s)) == Some(s) by {
      TrimDigits(s);
    }
    ZeroIsZero(s, precision, scale);
  }

  lemma ZeroKey(env: Env, ty: DorisType, s: string)
    requires IsScalar(ty) && NumberKey(ty) && !ty.Boolean? && SpellsZero(s)
    ensures Convert(env, ty, Text(s)).Some?
  {
    match ty
    case Decimal(precision, scale) => ZeroDecimal(env, s, precision, scale);
    case LargeInt => ZeroInteger(s, LARGEINT_MIN, LARGEINT_MAX);
    case _ => ZeroInteger(s, IntegerMin(ty), IntegerMax(ty));
  }

  lemma TrueWord(s: string)
    requires s == "1"
    ensures AsBool(Text(s)) == Some(true)
  {
    TrimClean(s);
    assert Lower(s) == s;
  }

  /** Every number or boolean key type has two keys that render apart and
      convert together, so a MAP over it can repeat a key. */
  lemma NumberKeysCollide(env: Env, ty: DorisType)
    requires IsScalar(ty) && NumberKey(ty)
    ensures exists a, b :: Collides(env, ty, a, b)
  {
    if ty.Boolean? {
      var one := "1";
      TrueWord(one);
      AcceptedTextMeets(env, ty, one);
    } else {
      var zero := Zeros(1);
      ValZeros(1);
      ZeroKey(env, ty, zero);
      AcceptedTextMeets(env, ty, zero);
    }
  }

  lemma AcceptedTextMeets(env: Env, ty: DorisType, t: string)
    requires IsScalar(ty) && !StoresText(ty) && Convert(env, ty, Text(t)).Some?
    ensures exists a, b :: Collides(env, ty, a, b)
  {
    TextKeyMeetsAnother(env, ty, t);
    var u :| Doubles(env, ty, t, u);
    assert Collides(env, ty, Text(t), Text(u));
  }
}
