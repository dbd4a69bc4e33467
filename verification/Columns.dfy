/** Rows shredded into columns, and what each row means. */
module Columns {
  // `Shred` is the column that `build_array` and `build_nested` make of a row
  // list (`parquet_out.rs`); `Normalise` is the value one row stands for, stated
  // without columns. `ColumnMeaning.ShredMeaning` connects them.

  import opened Wrappers
  import opened Numerals
  import opened DorisTypes
  import opened Values
  import opened Scalars
  import opened Arrow
  import opened Flatten

  /** What nested assembly needs from the scalar side: reading JSON text, the
      plain text MAP keys are compared by, and converting one scalar. The laws
      below hold of every codec; `CodecOf` is the repository's. */
  datatype Codec = Codec(
    json: string -> Option<Value>,
    plain: Value -> string,
    convert: (DorisType, Value) -> Option<Cell>
  )

  function CodecOf(env: Env): Codec {
    Codec(env.parseJson, v => PlainText(env, v), (ty, v) => if IsScalar(ty) then Convert(env, ty, v) else None)
  }

  const LIST_ELEMENT := "element"
  const MAP_ENTRIES := "key_value"

  // Types

  function ScalarType(ty: DorisType): DataType
    requires !IsNested(ty)
  {
    match ty
    case Boolean => BooleanType
    case TinyInt => Int8
    case SmallInt => Int16
    case Int => Int32
    case BigInt => Int64
    case Bitmap => Int64
    case Float => Float32
    case Double => Float64
    case QuantileState => Float64
    case Decimal(precision, scale) =>
      if precision <= 38 then Decimal128(precision, scale) else Decimal256(precision, scale)
    case Date => Date32
    case DateTime(_) => TimestampMicros
    case _ => Utf8
  }

  /** A MAP's entries: a required key and a nullable value. */
  function EntryFields(key: DataType, item: DataType): seq<ArrowField> {
    [ArrowField("key", key, false), ArrowField("value", item, true)]
  }

  function EntriesField(key: DataType, item: DataType): ArrowField {
    ArrowField(MAP_ENTRIES, StructType(EntryFields(key, item)), false)
  }

  /** `arrow_type`: None for AGG_STATE and for MAP keys that are not scalar. */
  function ArrowType(ty: DorisType): Option<DataType> {
    match ty
    case AggState(_) => None
    case Array(element) =>
      var inner :- ArrowType(element);
      Some(ListType(ArrowField(LIST_ELEMENT, inner, true)))
    case Map(key, item) =>
      if IsNested(key) then None else
        var k :- ArrowType(key);
        var v :- ArrowType(item);
        Some(MapType(EntriesField(k, v)))
    case Struct(fields) =>
      if forall i | 0 <= i < |fields| :: ArrowType(fields[i].ty).Some?
      then Some(StructType(seq(|fields|, i requires 0 <= i < |fields| =>
                                 ArrowField(fields[i].name, ArrowType(fields[i].ty).value, true))))
      else None
    case _ => Some(ScalarType(ty))
  }

  /** Types whose every builder constructs and finishes: those `arrow_type`
      accepts, with valid decimals and no empty STRUCT. */
  predicate Supported(ty: DorisType) {
    match ty
    case Array(element) => Supported(element)
    case Map(key, item) => !IsNested(key) && Supported(key) && Supported(item)
    case Struct(fields) => fields != [] && forall f | f in fields :: Supported(f.ty)
    case _ => IsScalar(ty)
  }

  // Row shapes

  predicate IsRow(ty: DorisType, value: Value) {
    match ty
    case Array(_) => value.List?
    case Map(_, _) => value.Dict? || value.Record?
    case Struct(_) => value.Record? || value.List?
    case _ => false
  }

  /** `shape_nested`: JSON text is read, then the shape has to fit. */
  function ShapeNested(codec: Codec, ty: DorisType, value: Value): Option<Value> {
    var shaped :- if value.Text? then codec.json(value.text) else Some(value);
    if shaped.Null? || IsRow(ty, shaped) then Some(shaped) else None
  }

  function Elements(value: Value): seq<Value> {
    if value.List? then value.items else []
  }

  function RawEntries(value: Value): seq<(Value, Value)> {
    match value
    case Dict(entries) => entries
    case Record(fields) =>
      seq(|fields|, i requires 0 <= i < |fields| => (Text(fields[i].0), fields[i].1))
    case _ => []
  }

  /** Keys are never null, and no two render to the same plain text. */
  predicate KeysOk(codec: Codec, entries: seq<(Value, Value)>) {
    && (forall i | 0 <= i < |entries| :: !entries[i].0.Null?)
    && (forall i, j | 0 <= i < j < |entries| :: codec.plain(entries[i].0) != codec.plain(entries[j].0))
  }

  predicate AllKeysOk(codec: Codec, rows: seq<seq<(Value, Value)>>) {
    forall i | 0 <= i < |rows| :: KeysOk(codec, rows[i])
  }

  function Firsts(entries: seq<(Value, Value)>): seq<Value> {
    seq(|entries|, i requires 0 <= i < |entries| => entries[i].0)
  }

  function Seconds(entries: seq<(Value, Value)>): seq<Value> {
    seq(|entries|, i requires 0 <= i < |entries| => entries[i].1)
  }

  lemma SplitConcat(a: seq<(Value, Value)>, b: seq<(Value, Value)>)
    ensures Firsts(a + b) == Firsts(a) + Firsts(b)
    ensures Seconds(a + b) == Seconds(a) + Seconds(b)
  {
  }

  /** Position of the first field with this name. */
  function FieldIndex(fields: seq<Field>, name: string): (k: Option<nat>)
    ensures k.Some? ==> k.value < |fields| && fields[k.value].name == name
    ensures k.Some? ==> forall i | 0 <= i < k.value :: fields[i].name != name
    ensures k.None? ==> forall i | 0 <= i < |fields| :: fields[i].name != name
  {
    if fields == [] then None
    else if fields[0].name == name then Some(0)
    else FieldIndex(fields[1..], name).Map(k => k + 1)
  }

  /** The value of the last entry with this name, null when there is none. */
  function LastNamed(named: seq<(string, Value)>, name: string): Value {
    if named == [] then Null
    else if named[|named| - 1].0 == name then named[|named| - 1].1
    else LastNamed(named[..|named| - 1], name)
  }

  function SlotOf(fields: seq<Field>, named: seq<(string, Value)>, k: nat): Value
    requires k < |fields|
  {
    if FieldIndex(fields, fields[k].name) == Some(k) then LastNamed(named, fields[k].name) else Null
  }

  /** The values of one STRUCT row in field order: named fields with the last
      duplicate winning and missing ones null, or a list taken by position. */
  function SpreadRow(fields: seq<Field>, value: Value): (row: Option<seq<Value>>)
    ensures row.Some? ==> |row.value| == |fields|
  {
    match value
    case Record(named) =>
      if forall i | 0 <= i < |named| :: FieldIndex(fields, named[i].0).Some?
      then Some(seq(|fields|, k requires 0 <= k < |fields| => SlotOf(fields, named, k)))
      else None
    case List(items) => if |items| == |fields| then Some(items) else None
    case _ => Some(seq(|fields|, _ => Null))
  }

  // What a row means

  /** The value a row stands for in a column of this type, or None when the
      column refuses it. */
  function Normalise(codec: Codec, ty: DorisType, value: Value): Option<Datum>
    decreases ty, 1
  {
    if IsNested(ty) then
      var shaped :- ShapeNested(codec, ty, value);
      NormaliseShaped(codec, ty, shaped)
    else if !IsScalar(ty) then None
    else if value.Null? then Some(NullDatum)
    else codec.convert(ty, value).Map(c => Leaf(c))
  }

  predicate AllNormal(codec: Codec, ty: DorisType, values: seq<Value>)
    decreases ty, 2
  {
    forall i | 0 <= i < |values| :: Normalise(codec, ty, values[i]).Some?
  }

  function NormaliseAll(codec: Codec, ty: DorisType, values: seq<Value>): (data: seq<Datum>)
    requires AllNormal(codec, ty, values)
    ensures |data| == |values|
    decreases ty, 3
  {
    seq(|values|, i requires 0 <= i < |values| => Normalise(codec, ty, values[i]).value)
  }

  function Pairs(keys: seq<Datum>, items: seq<Datum>): (pairs: seq<Datum>)
    requires |keys| == |items|
    ensures |pairs| == |keys|
  {
    seq(|keys|, i requires 0 <= i < |keys| => Members([keys[i], items[i]]))
  }

  function NormaliseShaped(codec: Codec, ty: DorisType, value: Value): Option<Datum>
    requires IsNested(ty)
    decreases ty, 0
  {
    if !IsRow(ty, value) then Some(NullDatum) else
      match ty
      case Array(element) =>
        if AllNormal(codec, element, Elements(value))
        then Some(Items(NormaliseAll(codec, element, Elements(value)))) else None
      case Map(key, item) =>
        var keys, items := Firsts(RawEntries(value)), Seconds(RawEntries(value));
        if KeysOk(codec, RawEntries(value)) && AllNormal(codec, key, keys) && AllNormal(codec, item, items)
        then Some(Entries(Pairs(NormaliseAll(codec, key, keys), NormaliseAll(codec, item, items)))) else None
      case Struct(fields) =>
        var row :- SpreadRow(fields, value);
        if forall k | 0 <= k < |fields| :: Normalise(codec, fields[k].ty, row[k]).Some?
        then Some(Members(seq(|fields|, k requires 0 <= k < |fields| => Normalise(codec, fields[k].ty, row[k]).value)))
        else None
  }

  // What a column is

  function Validity(ty: DorisType, values: seq<Value>): seq<bool> {
    seq(|values|, i requires 0 <= i < |values| => IsRow(ty, values[i]))
  }

  function ElementRows(values: seq<Value>): seq<seq<Value>> {
    seq(|values|, i requires 0 <= i < |values| => Elements(values[i]))
  }

  function EntryRows(values: seq<Value>): seq<seq<(Value, Value)>> {
    seq(|values|, i requires 0 <= i < |values| => RawEntries(values[i]))
  }

  /** Field `k` of every row, null where the row does not spread. */
  function FieldColumn(fields: seq<Field>, values: seq<Value>, k: nat): seq<Value>
    requires k < |fields|
  {
    seq(|values|, i requires 0 <= i < |values| =>
          if SpreadRow(fields, values[i]).Some? then SpreadRow(fields, values[i]).value[k] else Null)
  }

  /** Offsets that fit 32 bits. */
  function CheckedOffsets<T>(rows: seq<seq<T>>): Option<seq<int>> {
    if |Concat(rows)| > I32_MAX then None else Some(Offsets(rows))
  }

  predicate AllShaped(codec: Codec, ty: DorisType, values: seq<Value>) {
    forall i | 0 <= i < |values| :: ShapeNested(codec, ty, values[i]).Some?
  }

  function ShapeAll(codec: Codec, ty: DorisType, values: seq<Value>): seq<Value>
    requires AllShaped(codec, ty, values)
  {
    seq(|values|, i requires 0 <= i < |values| => ShapeNested(codec, ty, values[i]).value)
  }

  predicate AllConvert(codec: Codec, ty: DorisType, values: seq<Value>)
    requires IsScalar(ty)
  {
    forall i | 0 <= i < |values| :: values[i].Null? || codec.convert(ty, values[i]).Some?
  }

  function CellOf(codec: Codec, ty: DorisType, value: Value): Option<Cell>
    requires IsScalar(ty)
  {
    if value.Null? then None else codec.convert(ty, value)
  }

  /** The array `build_array` makes of a list of rows. */
  function Shred(codec: Codec, ty: DorisType, values: seq<Value>): Option<Arr>
    decreases ty, 1
  {
    if IsNested(ty) then
      if AllShaped(codec, ty, values) then ShredNested(codec, ty, ShapeAll(codec, ty, values)) else None
    else if IsScalar(ty) && AllConvert(codec, ty, values) then
      Some(FlatArr(ScalarType(ty), seq(|values|, i requires 0 <= i < |values| => CellOf(codec, ty, values[i]))))
    else None
  }

  /** The array `build_nested` makes of rows already shaped. */
  function ShredNested(codec: Codec, ty: DorisType, values: seq<Value>): Option<Arr>
    requires IsNested(ty)
    decreases ty, 0
  {
    var nulls := NullBuffer(Validity(ty, values));
    match ty
    case Array(element) =>
      var rows := ElementRows(values);
      var offsets :- CheckedOffsets(rows);
      var child :- Shred(codec, element, Concat(rows));
      var inner :- ArrowType(element);
      NewList(ArrowField(LIST_ELEMENT, inner, true), offsets, child, nulls)
    case Map(key, item) =>
      var rows := EntryRows(values);
      if !AllKeysOk(codec, rows) then None else
        var offsets :- CheckedOffsets(rows);
        var keys :- Shred(codec, key, Firsts(Concat(rows)));
        var items :- Shred(codec, item, Seconds(Concat(rows)));
        var k :- ArrowType(key);
        var v :- ArrowType(item);
        var entries :- NewStruct(EntryFields(k, v), [keys, items], None);
        NewMap(EntriesField(k, v), offsets, entries, nulls)
    case Struct(fields) =>
      if !(forall i | 0 <= i < |values| :: SpreadRow(fields, values[i]).Some?) then None
      else if !(forall k | 0 <= k < |fields| :: Shred(codec, fields[k].ty, FieldColumn(fields, values, k)).Some?)
      then None
      else if ArrowType(ty).None? then None
      else
        var columns := seq(|fields|, k requires 0 <= k < |fields| =>
                             Shred(codec, fields[k].ty, FieldColumn(fields, values, k)).value);
        NewStruct(ArrowType(ty).value.fields, columns, nulls)
  }

  // The 2^31 limit on nested elements in one batch

  /** Every variable-size column of the batch has at most 2^31 - 1 children.
      Rows the column refuses count as empty. */
  predicate OffsetsFit(codec: Codec, ty: DorisType, values: seq<Value>)
    decreases ty, 1
  {
    IsNested(ty) ==> ShapedOffsetsFit(codec, ty, ShapeOrNull(codec, ty, values))
  }

  function ShapeOrNull(codec: Codec, ty: DorisType, values: seq<Value>): seq<Value> {
    seq(|values|, i requires 0 <= i < |values| =>
          if ShapeNested(codec, ty, values[i]).Some? then ShapeNested(codec, ty, values[i]).value else Null)
  }

  predicate ShapedOffsetsFit(codec: Codec, ty: DorisType, values: seq<Value>)
    requires IsNested(ty)
    decreases ty, 0
  {
    match ty
    case Array(element) =>
      var items := Concat(ElementRows(values));
      |items| <= I32_MAX && OffsetsFit(codec, element, items)
    case Map(key, item) =>
      var entries := Concat(EntryRows(values));
      |entries| <= I32_MAX && OffsetsFit(codec, key, Firsts(entries)) && OffsetsFit(codec, item, Seconds(entries))
    case Struct(fields) =>
      forall k | 0 <= k < |fields| :: OffsetsFit(codec, fields[k].ty, FieldColumn(fields, values, k))
  }
}
