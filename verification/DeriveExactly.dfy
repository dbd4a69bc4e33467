/** Exactly which types their derived generators fit.

    Every derived generator draws something, and for a type with a text column
    of no byte it draws a value the column refuses: the draw is built along the
    type, one refused element, entry or field inside an accepted rest. */
module DeriveExactly {
  import opened Wrappers
  import opened Numerals
  import opened Chars
  import opened DorisTypes
  import opened Values
  import opened Scalars
  import opened Columns
  import opened Derive
  import opened DeriveFits

  /** Types a generator can be derived for and a column can be built of. */
  predicate Derivable(ty: DorisType) {
    IsGeneratable(ty) && Supported(ty) && Apart(ty)
  }

  // Every derived generator draws something

  const FIRST_WORD := "alpha"

  lemma SomeLorem(env: Env, clock: Clock, wordsMin: nat, wordsMax: nat) returns (v: Value)
    requires wordsMin <= wordsMax
    ensures Draws(env, clock, Lorem(wordsMin, wordsMax), v) && v.Text?
  {
    var words := seq(wordsMin, _ => FIRST_WORD);
    assert LOREM_WORDS[0] == FIRST_WORD;
    v := Text(Join(words));
    assert IsLorem(words, wordsMin, wordsMax, v);
  }

  lemma SomeFixedWidth(env: Env, clock: Clock, len: u32) returns (v: Value)
    ensures Draws(env, clock, FixedWidthString(len), v) && v.Text?
  {
    v := if len / 2 == 0 then Text("x") else Text(Zeros(2 * (len / 2)));
    if len / 2 != 0 {
      assert forall i | 0 <= i < |v.text| :: IsHex(v.text[i]);
    }
  }

  lemma SomeString(env: Env, clock: Clock, ty: DorisType) returns (v: Value)
    requires ty.Char? || ty.Varchar? || ty.String?
    ensures Draws(env, clock, GeneratorByType(ty), v) && v.Text?
  {
    if ty.String? {
      v := SomeLorem(env, clock, 3, 12);
    } else if ty.Varchar? && ty.len >= LOREM_MIN_WIDTH {
      WordsWithin(ty.len);
      var spec := LoremWithin(ty.len);
      v := SomeLorem(env, clock, spec.wordsMin, spec.wordsMax);
    } else {
      v := SomeFixedWidth(env, clock, ty.len);
    }
  }

  lemma ZeroDrawn(env: Env, clock: Clock, digits: nat, places: nat)
    requires digits <= 9 && places <= 18
    ensures Draws(env, clock, DecimalRange(ZeroText(places), NinesText(digits, places), places), Fixed(0, places))
  {
    LeastUnits(places);
    GreatestUnits(digits, places);
  }

  lemma SomeDecimal(env: Env, clock: Clock, precision: u8, scale: u8) returns (v: Value)
    requires ValidDecimal(precision, scale)
    ensures Draws(env, clock, DecimalSpec(precision, scale), v) && v.Fixed?
  {
    ZeroDrawn(env, clock, WholeDigits(precision, scale), Min(scale, 18));
    v := Fixed(0, Min(scale, 18));
  }

  lemma SomeAddress(env: Env, clock: Clock, ty: DorisType) returns (v: Value)
    requires ty.Ipv4? || ty.Ipv6?
    ensures Draws(env, clock, GeneratorByType(ty), v) && v.Text?
  {
    var n, hosts := GeneratorByType(ty).network, GeneratorByType(ty).hosts;
    if ty.Ipv4? {
      v := Text((env.ipv4Text)(n));
      assert IsAddress(env.ipv4Text, n, n, hosts, v);
    } else {
      v := Text((env.ipv6Text)(n));
      assert IsAddress(env.ipv6Text, n, n, hosts, v);
    }
  }

  lemma SomeObject(env: Env, clock: Clock, spec: GenSpec) returns (v: Value)
    requires spec == JSON_SPEC
    ensures Draws(env, clock, spec, v) && v.Record?
  {
    var tag := SomeLorem(env, clock, 1, 1);
    var id, score := I64(1), F64(Values.Float.Finite(0.0));
    assert Draws(env, clock, spec.fields[0].1, id);
    assert Draws(env, clock, spec.fields[2].1, score);
    v := Record([("id", id), ("tag", tag), ("score", score)]);
  }

  lemma SomeUuid(env: Env, clock: Clock) returns (v: Value)
    ensures Draws(env, clock, Uuid, v) && v.Text?
  {
    v := Text(seq(36, i => if i == 8 || i == 13 || i == 18 || i == 23 then '-'
                           else if i == 14 then '4' else if i == 19 then '8' else '0'));
  }

  lemma SomeTime(env: Env, clock: Clock, ty: DorisType) returns (v: Value)
    requires ClockOk(clock) && (ty.Date? || ty.DateTime?)
    ensures Draws(env, clock, GeneratorByType(ty), v) && v.Timestamp?
  {
    v := Timestamp(clock.first, GeneratorByType(ty).format);
  }

  lemma SomeNumber(env: Env, clock: Clock, ty: DorisType) returns (v: Value)
    requires IntegerType(ty) || ty.LargeInt? || ty.Float? || ty.Double? || ty.QuantileState?
    ensures Draws(env, clock, GeneratorByType(ty), v) && !v.Null?
  {
    if ty.Float? || ty.Double? || ty.QuantileState? {
      v := F64(Values.Float.Finite(0.0));
    } else {
      v := I64(1);
    }
  }

  lemma SomeOther(env: Env, clock: Clock, ty: DorisType) returns (v: Value)
    requires ty.Boolean? || ty.Hll? || ty.Json? || ty.Variant?
    ensures Draws(env, clock, GeneratorByType(ty), v) && !v.Null?
  {
    if ty.Boolean? {
      v := Text("true");
    } else if ty.Hll? {
      v := SomeUuid(env, clock);
    } else {
      v := SomeObject(env, clock, JSON_SPEC);
    }
  }

  lemma SomeScalar(env: Env, clock: Clock, ty: DorisType) returns (v: Value)
    requires ClockOk(clock) && IsScalar(ty)
    ensures Draws(env, clock, GeneratorByType(ty), v) && !v.Null?
  {
    if ty.Decimal? {
      v := SomeDecimal(env, clock, ty.precision, ty.scale);
    } else if ty.Char? || ty.Varchar? || ty.String? {
      v := SomeString(env, clock, ty);
    } else if ty.Ipv4? || ty.Ipv6? {
      v := SomeAddress(env, clock, ty);
    } else if ty.Date? || ty.DateTime? {
      v := SomeTime(env, clock, ty);
    } else if ty.Boolean? || ty.Hll? || ty.Json? || ty.Variant? {
      v := SomeOther(env, clock, ty);
    } else {
      v := SomeNumber(env, clock, ty);
    }
  }

  lemma SomeKey(env: Env, clock: Clock, key: DorisType) returns (v: Value)
    requires ClockOk(clock) && IsScalar(key)
    ensures Draws(env, clock, MapKeyGenerator(key), v) && !v.Null?
  {
    match StringWidth(key)
    case Some(width) =>
      if width >= LONGEST_LOREM_WORD {
        v := SomeLorem(env, clock, 1, 1);
      } else {
        v := SomeFixedWidth(env, clock, width);
      }
    case None => v := SomeScalar(env, clock, key);
  }

  lemma SomeDraw(env: Env, clock: Clock, ty: DorisType) returns (v: Value)
    requires ClockOk(clock) && Derivable(ty)
    ensures Draws(env, clock, GeneratorByType(ty), v) && !v.Null?
    decreases ty, 0
  {
    match ty
    case Array(_) => v := List([]);
    case Map(_, _) => v := Dict([]);
    case Struct(fields) =>
      var named := SomeFields(env, clock, fields);
      v := Record(named);
    case _ => v := SomeScalar(env, clock, ty);
  }

  ghost predicate DrawsField(env: Env, clock: Clock, field: Field, entry: (string, Value)) {
    IsGeneratable(field.ty) && entry.0 == field.name && Draws(env, clock, GeneratorByType(field.ty), entry.1)
  }

  /** What a record drawn for these fields is. */
  ghost predicate DrawsFields(env: Env, clock: Clock, fields: seq<Field>, named: seq<(string, Value)>) {
    |named| == |fields| && forall k | 0 <= k < |fields| :: DrawsField(env, clock, fields[k], named[k])
  }

  lemma SomeFields(env: Env, clock: Clock, fields: seq<Field>) returns (named: seq<(string, Value)>)
    requires ClockOk(clock) && forall f | f in fields :: Derivable(f.ty)
    ensures DrawsFields(env, clock, fields, named)
    decreases fields, 1
  {
    named := [];
    for k := 0 to |fields|
      invariant |named| == k && forall j | 0 <= j < k :: DrawsField(env, clock, fields[j], named[j])
    {
      assert fields[k] in fields;
      var v := SomeDraw(env, clock, fields[k].ty);
      named := named + [(fields[k].name, v)];
    }
  }

  lemma RecordDrawn(env: Env, clock: Clock, fields: seq<Field>, named: seq<(string, Value)>)
    requires IsGeneratable(Struct(fields)) && DrawsFields(env, clock, fields, named)
    ensures Draws(env, clock, GeneratorByType(Struct(fields)), Record(named))
  {
  }

  // A column too narrow for a draw

  lemma ListRefused(codec: Codec, element: DorisType, v: Value)
    requires Normalise(codec, element, v).None?
    ensures Normalise(codec, Array(element), List([v])).None?
  {
    assert [v][0] == v && !AllNormal(codec, element, [v]);
  }

  lemma DictRefused(codec: Codec, key: DorisType, item: DorisType, k: Value, v: Value)
    requires Normalise(codec, key, k).None? || Normalise(codec, item, v).None?
    ensures Normalise(codec, Map(key, item), Dict([(k, v)])).None?
  {
    var keys, items := Firsts([(k, v)]), Seconds([(k, v)]);
    assert keys == [k] && items == [v];
    assert AllNormal(codec, key, keys) ==> Normalise(codec, key, keys[0]).Some?;
    assert AllNormal(codec, item, items) ==> Normalise(codec, item, items[0]).Some?;
  }

  lemma RowRefused(codec: Codec, fields: seq<Field>, value: Value, row: seq<Value>, k: nat)
    requires value.Record? && SpreadRow(fields, value) == Some(row)
    requires k < |fields| && Normalise(codec, fields[k].ty, row[k]).None?
    ensures Normalise(codec, Struct(fields), value).None?
  {
  }

  lemma RecordRefused(codec: Codec, fields: seq<Field>, named: seq<(string, Value)>, k: nat)
    requires DistinctNames(fields) && SameNames(fields, named)
    requires k < |fields| && Normalise(codec, fields[k].ty, named[k].1).None?
    ensures Normalise(codec, Struct(fields), Record(named)).None?
  {
    SpreadsInOrder(fields, named);
    RowRefused(codec, fields, Record(named), SpreadRow(fields, Record(named)).value, k);
  }

  /** One byte does not fit a text column of none. */
  lemma NarrowText(env: Env, ty: DorisType)
    requires (ty.Char? || ty.Varchar?) && ty.len == 0
    ensures !Fits(env, ty, Text("x"))
  {
    AsciiLen("x");
  }

  lemma NarrowFields(fields: seq<Field>) returns (k: nat)
    requires !Wide(Struct(fields))
    ensures k < |fields| && !Wide(fields[k].ty)
  {
    var f :| f in fields && !Wide(f.ty);
    k :| 0 <= k < |fields| && fields[k] == f;
  }

  /** The value of a generator that its own column refuses. */
  lemma RefusedDraw(env: Env, clock: Clock, ty: DorisType) returns (v: Value)
    requires ClockOk(clock) && Derivable(ty) && !Wide(ty)
    ensures Draws(env, clock, GeneratorByType(ty), v) && !Fits(env, ty, v)
    decreases ty, 0
  {
    match ty
    case Char(_) =>
      v := Text("x");
      NarrowText(env, ty);
    case Varchar(_) =>
      v := Text("x");
      NarrowText(env, ty);
    case Array(element) =>
      var e := RefusedDraw(env, clock, element);
      ListRefused(CodecOf(env), element, e);
      v := List([e]);
    case Map(key, item) =>
      v := RefusedDict(env, clock, key, item);
    case Struct(fields) =>
      var named := SomeFields(env, clock, fields);
      var k := NarrowFields(fields);
      assert fields[k] in fields;
      var bad := RefusedDraw(env, clock, fields[k].ty);
      named := named[k := (fields[k].name, bad)];
      RecordRefused(CodecOf(env), fields, named, k);
      RecordDrawn(env, clock, fields, named);
      v := Record(named);
  }

  /** A key and a value, one of which their columns refuse. */
  lemma RefusedEntry(env: Env, clock: Clock, key: DorisType, item: DorisType) returns (k: Value, x: Value)
    requires ClockOk(clock) && Derivable(key) && IsScalar(key) && Derivable(item) && !(Wide(key) && Wide(item))
    ensures Draws(env, clock, MapKeyGenerator(key), k) && !k.Null? && Draws(env, clock, GeneratorByType(item), x)
    ensures !Fits(env, key, k) || !Fits(env, item, x)
    decreases item, 1
  {
    if !Wide(key) {
      k := Text("x");
      NarrowText(env, key);
      x := SomeDraw(env, clock, item);
    } else {
      k := SomeKey(env, clock, key);
      x := RefusedDraw(env, clock, item);
    }
  }

  lemma OneEntryDrawn(env: Env, clock: Clock, key: DorisType, item: DorisType, k: Value, x: Value)
    requires IsGeneratable(Map(key, item)) && !k.Null?
    requires Draws(env, clock, MapKeyGenerator(key), k) && Draws(env, clock, GeneratorByType(item), x)
    ensures Draws(env, clock, GeneratorByType(Map(key, item)), Dict([(k, x)]))
  {
    assert GeneratorByType(Map(key, item)) == MapOf(MapKeyGenerator(key), GeneratorByType(item), 3);
    OneEntryOf(env, clock, MapKeyGenerator(key), GeneratorByType(item), [(k, x)]);
  }

  lemma OneEntryOf(env: Env, clock: Clock, key: GenSpec, item: GenSpec, entries: seq<(Value, Value)>)
    requires |entries| == 1 && !entries[0].0.Null?
    requires Draws(env, clock, key, entries[0].0) && Draws(env, clock, item, entries[0].1)
    ensures Draws(env, clock, MapOf(key, item, 3), Dict(entries))
  {
    assert KeysDiffer(env, entries);
  }

  lemma RefusedDict(env: Env, clock: Clock, key: DorisType, item: DorisType) returns (v: Value)
    requires ClockOk(clock) && Derivable(Map(key, item)) && !Wide(Map(key, item))
    ensures Draws(env, clock, GeneratorByType(Map(key, item)), v) && !Fits(env, Map(key, item), v)
    decreases item, 2
  {
    ScalarKey(key);
    var k, x := RefusedEntry(env, clock, key, item);
    DictRefused(CodecOf(env), key, item, k, x);
    OneEntryDrawn(env, clock, key, item, k, x);
    v := Dict([(k, x)]);
  }

  // The theorem

  /** Every value the derived generator of a type can draw is accepted by its
      column if and only if every CHAR and VARCHAR in the type, at any depth,
      holds at least one byte. */
  lemma DerivedFitsExactly(env: Env, clock: Clock, ty: DorisType)
    requires EnvOk(env) && ClockOk(clock) && Derivable(ty)
    ensures (forall v | Draws(env, clock, GeneratorByType(ty), v) :: Fits(env, ty, v)) <==> Wide(ty)
  {
    if Wide(ty) {
      forall v | Draws(env, clock, GeneratorByType(ty), v) ensures Fits(env, ty, v) {
        DerivedFits(env, clock, ty, v);
      }
    } else {
      var v := RefusedDraw(env, clock, ty);
      assert Draws(env, clock, GeneratorByType(ty), v) && !Fits(env, ty, v);
    }
  }
}
