/** Built columns hold exactly their rows. */
module ColumnMeaning {
  // Building succeeds when every row does, and reading row `i` back gives what
  // row `i` stands for, at any depth of nesting.

  import opened Wrappers
  import opened Numerals
  import opened DorisTypes
  import opened Values
  import opened Scalars
  import opened Arrow
  import opened Flatten
  import opened Columns

  predicate AllShapedNormal(codec: Codec, ty: DorisType, values: seq<Value>)
    requires IsNested(ty)
  {
    forall i | 0 <= i < |values| :: NormaliseShaped(codec, ty, values[i]).Some?
  }

  /** `a` is a well-formed array of the column's type holding these rows. */
  predicate Holds(codec: Codec, ty: DorisType, values: seq<Value>, a: Arr) {
    && WellFormed(a) && Len(a) == |values| && ArrowType(ty) == Some(TypeOf(a))
    && forall i | 0 <= i < |values| :: Normalise(codec, ty, values[i]) == Some(DecodeAt(a, i))
  }

  predicate HoldsShaped(codec: Codec, ty: DorisType, values: seq<Value>, a: Arr)
    requires IsNested(ty)
  {
    && WellFormed(a) && Len(a) == |values| && ArrowType(ty) == Some(TypeOf(a))
    && forall i | 0 <= i < |values| :: NormaliseShaped(codec, ty, values[i]) == Some(DecodeAt(a, i))
  }

  /** The main result. `arrow_type` is checked when a builder is made, so it
      holds of every column that reaches this code. */
  lemma {:induction false} ShredMeaning(codec: Codec, ty: DorisType, values: seq<Value>)
    requires ArrowType(ty).Some?
    ensures Shred(codec, ty, values).Some? <==>
            Supported(ty) && OffsetsFit(codec, ty, values) && AllNormal(codec, ty, values)
    ensures Shred(codec, ty, values).Some? ==> Holds(codec, ty, values, Shred(codec, ty, values).value)
    decreases ty, 1
  {
    if IsNested(ty) {
      ShapedMeaning(codec, ty, ShapeOrNull(codec, ty, values));
      NestedMeaning(codec, ty, values);
    } else {
      ScalarMeaning(codec, ty, values);
    }
  }

  lemma ScalarMeaning(codec: Codec, ty: DorisType, values: seq<Value>)
    requires !IsNested(ty)
    ensures Shred(codec, ty, values).Some? <==> IsScalar(ty) && AllNormal(codec, ty, values)
    ensures Shred(codec, ty, values).Some? ==> Holds(codec, ty, values, Shred(codec, ty, values).value)
  {
    forall i | 0 <= i < |values|
      ensures Normalise(codec, ty, values[i]) ==
              if !IsScalar(ty) then None
              else if values[i].Null? then Some(NullDatum)
              else codec.convert(ty, values[i]).Map(c => Leaf(c))
    {
      ScalarNormal(codec, ty, values[i]);
    }
  }

  lemma ScalarNormal(codec: Codec, ty: DorisType, value: Value)
    requires !IsNested(ty)
    ensures Normalise(codec, ty, value) ==
            if !IsScalar(ty) then None
            else if value.Null? then Some(NullDatum)
            else codec.convert(ty, value).Map(c => Leaf(c))
  {
  }

  /** Shaping row by row and then building is building. */
  lemma ShapingMeaning(codec: Codec, ty: DorisType, values: seq<Value>)
    requires IsNested(ty)
    ensures var shaped := ShapeOrNull(codec, ty, values);
            && (AllShaped(codec, ty, values) ==> Shred(codec, ty, values) == ShredNested(codec, ty, shaped))
            && (!AllShaped(codec, ty, values) ==> Shred(codec, ty, values).None?)
            && (AllNormal(codec, ty, values) <==> AllShaped(codec, ty, values) && AllShapedNormal(codec, ty, shaped))
            && forall i | 0 <= i < |values| && AllShaped(codec, ty, values) ::
                 Normalise(codec, ty, values[i]) == NormaliseShaped(codec, ty, shaped[i])
  {
    var shaped := ShapeOrNull(codec, ty, values);
    forall i | 0 <= i < |values|
      ensures Normalise(codec, ty, values[i]) ==
              if ShapeNested(codec, ty, values[i]).Some? then NormaliseShaped(codec, ty, shaped[i]) else None
    {
    }
    if AllShaped(codec, ty, values) {
      assert shaped == ShapeAll(codec, ty, values);
    }
  }

  lemma NestedMeaning(codec: Codec, ty: DorisType, values: seq<Value>)
    requires IsNested(ty) && ArrowType(ty).Some?
    requires var shaped := ShapeOrNull(codec, ty, values);
             && (ShredNested(codec, ty, shaped).Some? <==>
                 Supported(ty) && ShapedOffsetsFit(codec, ty, shaped) && AllShapedNormal(codec, ty, shaped))
             && (ShredNested(codec, ty, shaped).Some? ==>
                   HoldsShaped(codec, ty, shaped, ShredNested(codec, ty, shaped).value))
    ensures Meant(codec, ty, values)
  {
    ShapingMeaning(codec, ty, values);
  }

  lemma {:induction false} ShapedMeaning(codec: Codec, ty: DorisType, values: seq<Value>)
    requires IsNested(ty) && ArrowType(ty).Some?
    ensures ShredNested(codec, ty, values).Some? <==>
            Supported(ty) && ShapedOffsetsFit(codec, ty, values) && AllShapedNormal(codec, ty, values)
    ensures ShredNested(codec, ty, values).Some? ==>
              HoldsShaped(codec, ty, values, ShredNested(codec, ty, values).value)
    decreases ty, 0
  {
    match ty
    case Array(element) =>
      ShredMeaning(codec, element, Concat(ElementRows(values)));
      ListMeaning(codec, ty, values);
    case Map(key, item) =>
      var entries := Concat(EntryRows(values));
      ShredMeaning(codec, key, Firsts(entries));
      ShredMeaning(codec, item, Seconds(entries));
      MapMeaning(codec, ty, values);
    case Struct(fields) =>
      forall k | 0 <= k < |fields|
        ensures Meant(codec, fields[k].ty, FieldColumn(fields, values, k))
      {
        ShredMeaning(codec, fields[k].ty, FieldColumn(fields, values, k));
      }
      StructMeaning(codec, ty, values);
  }

  /** What the theorem says of one column. */
  predicate Meant(codec: Codec, ty: DorisType, values: seq<Value>) {
    && (Shred(codec, ty, values).Some? <==> Built(codec, ty, values))
    && (Shred(codec, ty, values).Some? ==> Holds(codec, ty, values, Shred(codec, ty, values).value))
  }

  predicate Built(codec: Codec, ty: DorisType, values: seq<Value>) {
    Supported(ty) && OffsetsFit(codec, ty, values) && AllNormal(codec, ty, values)
  }

  // Rows inside a flattened column

  lemma NormalRows(codec: Codec, ty: DorisType, rows: seq<seq<Value>>)
    ensures AllNormal(codec, ty, Concat(rows)) <==> forall i | 0 <= i < |rows| :: AllNormal(codec, ty, rows[i])
  {
    ConcatAll(rows, v => Normalise(codec, ty, v).Some?);
  }

  lemma HeldSlice(codec: Codec, ty: DorisType, values: seq<Value>, a: Arr, from: nat, to: nat)
    requires Holds(codec, ty, values, a) && from <= to <= |values|
    ensures AllNormal(codec, ty, values[from..to])
    ensures DecodeRange(a, from, to) == NormaliseAll(codec, ty, values[from..to])
  {
    var slice := values[from..to];
    forall j | 0 <= j < to - from
      ensures Normalise(codec, ty, slice[j]) == Some(DecodeAt(a, from + j))
    {
      assert slice[j] == values[from + j];
    }
    RangeReads(codec, ty, slice, a, from, to);
  }

  lemma RangeReads(codec: Codec, ty: DorisType, slice: seq<Value>, a: Arr, from: nat, to: nat)
    requires WellFormed(a) && from <= to <= Len(a) && |slice| == to - from
    requires forall j | 0 <= j < |slice| :: Normalise(codec, ty, slice[j]) == Some(DecodeAt(a, from + j))
    ensures AllNormal(codec, ty, slice) && DecodeRange(a, from, to) == NormaliseAll(codec, ty, slice)
  {
  }

  lemma DecodedRow(codec: Codec, ty: DorisType, rows: seq<seq<Value>>, a: Arr, i: nat)
    requires i < |rows| && Holds(codec, ty, Concat(rows), a)
    ensures 0 <= StartOf(rows, i) <= StartOf(rows, i + 1) <= Len(a)
    ensures AllNormal(codec, ty, rows[i])
    ensures DecodeRange(a, StartOf(rows, i), StartOf(rows, i + 1)) == NormaliseAll(codec, ty, rows[i])
  {
    RowSlice(rows, i);
    assert rows[i] == Concat(rows)[StartOf(rows, i)..StartOf(rows, i + 1)];
    HeldSlice(codec, ty, Concat(rows), a, StartOf(rows, i), StartOf(rows, i + 1));
  }

  // ARRAY

  function ListColumn(ty: DorisType, values: seq<Value>, child: Arr): Arr {
    ListArr(ArrowField(LIST_ELEMENT, TypeOf(child), true), Offsets(ElementRows(values)), child,
            NullBuffer(Validity(ty, values)))
  }

  lemma ListDecodes(codec: Codec, ty: DorisType, values: seq<Value>, child: Arr)
    requires ty.Array? && ArrowType(ty).Some? && AllShapedNormal(codec, ty, values)
    requires Holds(codec, ty.element, Concat(ElementRows(values)), child)
    ensures var a := ListColumn(ty, values, child);
            && NewList(a.field, a.offsets, child, a.nulls) == Some(a)
            && HoldsShaped(codec, ty, values, a)
  {
    var rows := ElementRows(values);
    var a := ListColumn(ty, values, child);
    OffsetsShape(rows);
    NormalRows(codec, ty.element, rows);
    forall i | 0 <= i < |values|
      ensures NormaliseShaped(codec, ty, values[i]) == Some(DecodeAt(a, i))
    {
      assert IsValid(a.nulls, i) == IsRow(ty, values[i]);
      assert NormaliseShaped(codec, ty, values[i]).Some?;
      ListRowDecodes(codec, ty, values[i], rows, child, a, i);
    }
  }

  /** Row `i` of the list column read back. */
  lemma ListRowDecodes(codec: Codec, ty: DorisType, value: Value, rows: seq<seq<Value>>, child: Arr, a: Arr, i: nat)
    requires ty.Array? && i < |rows| && Holds(codec, ty.element, Concat(rows), child)
    requires NormaliseShaped(codec, ty, value).Some? && (value.List? ==> rows[i] == value.items)
    requires WellFormed(a) && a.ListArr? && a.offsets == Offsets(rows) && a.child == child
    requires IsValid(a.nulls, i) == IsRow(ty, value)
    ensures NormaliseShaped(codec, ty, value) == Some(DecodeAt(a, i))
  {
    DecodedRow(codec, ty.element, rows, child, i);
  }

  lemma ListMeaning(codec: Codec, ty: DorisType, values: seq<Value>)
    requires ty.Array? && ArrowType(ty).Some?
    requires Meant(codec, ty.element, Concat(ElementRows(values)))
    ensures ShredNested(codec, ty, values).Some? <==>
            Supported(ty) && ShapedOffsetsFit(codec, ty, values) && AllShapedNormal(codec, ty, values)
    ensures ShredNested(codec, ty, values).Some? ==>
              HoldsShaped(codec, ty, values, ShredNested(codec, ty, values).value)
  {
    var rows := ElementRows(values);
    var items := Concat(rows);
    ListRows(codec, ty, values);
    if |items| <= I32_MAX && Shred(codec, ty.element, items).Some? {
      ListDecodes(codec, ty, values, Shred(codec, ty.element, items).value);
    }
  }

  lemma ListRows(codec: Codec, ty: DorisType, values: seq<Value>)
    requires ty.Array?
    ensures AllShapedNormal(codec, ty, values) <==> AllNormal(codec, ty.element, Concat(ElementRows(values)))
  {
    var rows := ElementRows(values);
    NormalRows(codec, ty.element, rows);
    forall i | 0 <= i < |values|
      ensures NormaliseShaped(codec, ty, values[i]).Some? <==> AllNormal(codec, ty.element, rows[i])
    {
    }
  }

  // MAP

  function KeyRows(rows: seq<seq<(Value, Value)>>): seq<seq<Value>> {
    seq(|rows|, i requires 0 <= i < |rows| => Firsts(rows[i]))
  }

  function ItemRows(rows: seq<seq<(Value, Value)>>): seq<seq<Value>> {
    seq(|rows|, i requires 0 <= i < |rows| => Seconds(rows[i]))
  }

  /** Splitting flattened entries is flattening split entries. */
  lemma {:induction false} SplitEntries(rows: seq<seq<(Value, Value)>>)
    ensures Firsts(Concat(rows)) == Concat(KeyRows(rows))
    ensures Seconds(Concat(rows)) == Concat(ItemRows(rows))
  {
    if rows != [] {
      var init := rows[..|rows| - 1];
      SplitEntries(init);
      assert KeyRows(rows)[..|rows| - 1] == KeyRows(init);
      assert ItemRows(rows)[..|rows| - 1] == ItemRows(init);
    }
  }

  lemma SplitStart(rows: seq<seq<(Value, Value)>>, i: nat)
    requires i <= |rows|
    ensures StartOf(KeyRows(rows), i) == StartOf(rows, i) == StartOf(ItemRows(rows), i)
  {
    SplitEntries(rows[..i]);
    assert KeyRows(rows)[..i] == KeyRows(rows[..i]);
    assert ItemRows(rows)[..i] == ItemRows(rows[..i]);
    assert |Firsts(Concat(rows[..i]))| == |Concat(rows[..i])| == |Seconds(Concat(rows[..i]))|;
  }

  lemma MapRows(codec: Codec, ty: DorisType, values: seq<Value>)
    requires ty.Map?
    ensures var rows := EntryRows(values);
            AllShapedNormal(codec, ty, values) <==>
            && AllKeysOk(codec, rows)
            && AllNormal(codec, ty.key, Firsts(Concat(rows)))
            && AllNormal(codec, ty.item, Seconds(Concat(rows)))
  {
    var rows := EntryRows(values);
    SplitEntries(rows);
    NormalRows(codec, ty.key, KeyRows(rows));
    NormalRows(codec, ty.item, ItemRows(rows));
    forall i | 0 <= i < |values|
      ensures NormaliseShaped(codec, ty, values[i]).Some? <==>
              && KeysOk(codec, rows[i])
              && AllNormal(codec, ty.key, KeyRows(rows)[i]) && AllNormal(codec, ty.item, ItemRows(rows)[i])
    {
    }
  }

  /** The key column of a MAP never holds a null. */
  lemma KeyColumnHasNoNulls(codec: Codec, ty: DorisType, rows: seq<seq<(Value, Value)>>)
    requires !IsNested(ty) && AllKeysOk(codec, rows)
    requires Shred(codec, ty, Firsts(Concat(rows))).Some?
    ensures !HasNulls(Shred(codec, ty, Firsts(Concat(rows))).value)
  {
    ConcatAll(rows, (e: (Value, Value)) => !e.0.Null?);
    assert forall i | 0 <= i < |rows| :: KeysOk(codec, rows[i]);
  }

  lemma MapMeaning(codec: Codec, ty: DorisType, values: seq<Value>)
    requires ty.Map? && ArrowType(ty).Some?
    requires Meant(codec, ty.key, Firsts(Concat(EntryRows(values))))
    requires Meant(codec, ty.item, Seconds(Concat(EntryRows(values))))
    ensures ShredNested(codec, ty, values).Some? <==>
            Supported(ty) && ShapedOffsetsFit(codec, ty, values) && AllShapedNormal(codec, ty, values)
    ensures ShredNested(codec, ty, values).Some? ==>
              HoldsShaped(codec, ty, values, ShredNested(codec, ty, values).value)
  {
    var rows := EntryRows(values);
    var all := Concat(rows);
    MapRows(codec, ty, values);
    OffsetsShape(rows);
    if && AllKeysOk(codec, rows) && |all| <= I32_MAX
       && Shred(codec, ty.key, Firsts(all)).Some? && Shred(codec, ty.item, Seconds(all)).Some? {
      var keys, items := Shred(codec, ty.key, Firsts(all)).value, Shred(codec, ty.item, Seconds(all)).value;
      KeyColumnHasNoNulls(codec, ty.key, rows);
      MapConstructs(ty, values, keys, items);
      MapDecodes(codec, ty, values, keys, items);
    }
  }

  function MapEntries(keys: Arr, items: Arr): Arr {
    StructArr(EntryFields(TypeOf(keys), TypeOf(items)), [keys, items], None)
  }

  function MapColumn(ty: DorisType, values: seq<Value>, keys: Arr, items: Arr): Arr {
    MapArr(EntriesField(TypeOf(keys), TypeOf(items)), Offsets(EntryRows(values)), MapEntries(keys, items),
           NullBuffer(Validity(ty, values)))
  }

  /** The struct and map constructors accept what `build_nested` hands them. */
  lemma MapConstructs(ty: DorisType, values: seq<Value>, keys: Arr, items: Arr)
    requires WellFormed(keys) && WellFormed(items) && !HasNulls(keys)
    requires Len(keys) == Len(items) == |Concat(EntryRows(values))|
    ensures var entries := MapEntries(keys, items);
            && NewStruct(entries.fields, [keys, items], None) == Some(entries)
            && NewMap(EntriesField(TypeOf(keys), TypeOf(items)), Offsets(EntryRows(values)), entries,
                      NullBuffer(Validity(ty, values))) == Some(MapColumn(ty, values, keys, items))
            && WellFormed(entries) && Len(entries) == Len(keys)
            && WellFormed(MapColumn(ty, values, keys, items))
  {
    var entries := MapEntries(keys, items);
    OffsetsShape(EntryRows(values));
    assert entries.columns[0] == keys && entries.columns[1] == items;
    assert WellFormed(entries);
  }

  /** Row `i` of the map column read back. */
  lemma MapDecodes(codec: Codec, ty: DorisType, values: seq<Value>, keys: Arr, items: Arr)
    requires ty.Map? && ArrowType(ty).Some? && AllShapedNormal(codec, ty, values)
    requires var all := Concat(EntryRows(values));
             Holds(codec, ty.key, Firsts(all), keys) && Holds(codec, ty.item, Seconds(all), items)
    requires !HasNulls(keys)
    ensures HoldsShaped(codec, ty, values, MapColumn(ty, values, keys, items))
  {
    var rows := EntryRows(values);
    var a := MapColumn(ty, values, keys, items);
    MapConstructs(ty, values, keys, items);
    forall i | 0 <= i < |values|
      ensures NormaliseShaped(codec, ty, values[i]) == Some(DecodeAt(a, i))
    {
      assert IsValid(a.nulls, i) == IsRow(ty, values[i]);
      assert NormaliseShaped(codec, ty, values[i]).Some?;
      MapRowReads(codec, ty, values[i], rows, keys, items, a, i);
    }
  }

  lemma MapRowReads(codec: Codec, ty: DorisType, value: Value, rows: seq<seq<(Value, Value)>>,
                    keys: Arr, items: Arr, a: Arr, i: nat)
    requires ty.Map? && i < |rows| && NormaliseShaped(codec, ty, value).Some?
    requires Holds(codec, ty.key, Firsts(Concat(rows)), keys) && Holds(codec, ty.item, Seconds(Concat(rows)), items)
    requires WellFormed(a) && a.MapArr? && a.offsets == Offsets(rows) && a.child == MapEntries(keys, items)
    requires IsValid(a.nulls, i) == IsRow(ty, value) && (IsRow(ty, value) ==> rows[i] == RawEntries(value))
    ensures NormaliseShaped(codec, ty, value) == Some(DecodeAt(a, i))
  {
    MapRowDecodes(codec, ty, rows, keys, items, MapEntries(keys, items), i);
  }

  lemma MapRowDecodes(codec: Codec, ty: DorisType, rows: seq<seq<(Value, Value)>>,
                      keys: Arr, items: Arr, entries: Arr, i: nat)
    requires ty.Map? && i < |rows|
    requires Holds(codec, ty.key, Firsts(Concat(rows)), keys) && Holds(codec, ty.item, Seconds(Concat(rows)), items)
    requires WellFormed(entries) && entries.StructArr? && entries.columns == [keys, items] && entries.nulls.None?
    ensures AllNormal(codec, ty.key, Firsts(rows[i])) && AllNormal(codec, ty.item, Seconds(rows[i]))
    ensures 0 <= StartOf(rows, i) <= StartOf(rows, i + 1) <= Len(entries)
    ensures DecodeRange(entries, StartOf(rows, i), StartOf(rows, i + 1)) ==
            Pairs(NormaliseAll(codec, ty.key, Firsts(rows[i])), NormaliseAll(codec, ty.item, Seconds(rows[i])))
  {
    SplitEntries(rows);
    SplitStart(rows, i);
    SplitStart(rows, i + 1);
    assert KeyRows(rows)[i] == Firsts(rows[i]) && ItemRows(rows)[i] == Seconds(rows[i]);
    DecodedRow(codec, ty.key, KeyRows(rows), keys, i);
    DecodedRow(codec, ty.item, ItemRows(rows), items, i);
    DecodedEntries(entries, keys, items, StartOf(rows, i), StartOf(rows, i + 1));
  }

  lemma DecodedEntries(entries: Arr, keys: Arr, items: Arr, from: int, to: int)
    requires WellFormed(entries) && entries.StructArr? && entries.columns == [keys, items] && entries.nulls.None?
    requires 0 <= from <= to <= Len(entries)
    ensures WellFormed(keys) && WellFormed(items) && Len(keys) == Len(items) == Len(entries)
    ensures DecodeRange(entries, from, to) == Pairs(DecodeRange(keys, from, to), DecodeRange(items, from, to))
  {
    assert entries.columns[0] == keys && entries.columns[1] == items;
    forall i | 0 <= i < Len(entries)
      ensures DecodeAt(entries, i) == Members([DecodeAt(keys, i), DecodeAt(items, i)])
    {
      assert DecodeAt(entries, i).members == [DecodeAt(keys, i), DecodeAt(items, i)];
    }
  }

  // STRUCT

  predicate AllSpread(fields: seq<Field>, values: seq<Value>) {
    forall i | 0 <= i < |values| :: SpreadRow(fields, values[i]).Some?
  }

  lemma StructRows(codec: Codec, ty: DorisType, values: seq<Value>)
    requires ty.Struct? && Supported(ty)
    requires AllSpread(ty.fields, values)
    ensures AllShapedNormal(codec, ty, values) <==>
            forall k | 0 <= k < |ty.fields| :: AllNormal(codec, ty.fields[k].ty, FieldColumn(ty.fields, values, k))
  {
    var fields := ty.fields;
    if AllShapedNormal(codec, ty, values) {
      forall k, i | 0 <= k < |fields| && 0 <= i < |values|
        ensures Normalise(codec, fields[k].ty, FieldColumn(fields, values, k)[i]).Some?
      {
        assert NormaliseShaped(codec, ty, values[i]).Some?;
        if !IsRow(ty, values[i]) {
          NullIsNormal(codec, fields[k].ty);
        }
      }
    }
    if forall k | 0 <= k < |fields| :: AllNormal(codec, fields[k].ty, FieldColumn(fields, values, k)) {
      forall i | 0 <= i < |values|
        ensures NormaliseShaped(codec, ty, values[i]).Some?
      {
        forall k | 0 <= k < |fields|
          ensures Normalise(codec, fields[k].ty, SpreadRow(fields, values[i]).value[k]).Some?
        {
          assert FieldColumn(fields, values, k)[i] == SpreadRow(fields, values[i]).value[k];
        }
      }
    }
  }

  lemma NullIsNormal(codec: Codec, ty: DorisType)
    requires Supported(ty)
    ensures Normalise(codec, ty, Null) == Some(NullDatum)
  {
  }

  lemma StructMeaning(codec: Codec, ty: DorisType, values: seq<Value>)
    requires ty.Struct? && ArrowType(ty).Some?
    requires FieldsMeant(codec, ty.fields, values)
    ensures ShredNested(codec, ty, values).Some? <==>
            Supported(ty) && ShapedOffsetsFit(codec, ty, values) && AllShapedNormal(codec, ty, values)
    ensures ShredNested(codec, ty, values).Some? ==>
              HoldsShaped(codec, ty, values, ShredNested(codec, ty, values).value)
  {
    if ty.fields != [] && AllSpread(ty.fields, values) && FieldsBuild(codec, ty.fields, values) {
      StructBuilds(codec, ty, values);
    } else if Supported(ty) && ShapedOffsetsFit(codec, ty, values) && AllShapedNormal(codec, ty, values) {
      NormalFieldsBuild(codec, ty, values);
      assert false;
    }
  }

  predicate FieldsMeant(codec: Codec, fields: seq<Field>, values: seq<Value>) {
    forall k | 0 <= k < |fields| :: Meant(codec, fields[k].ty, FieldColumn(fields, values, k))
  }

  predicate FieldsBuild(codec: Codec, fields: seq<Field>, values: seq<Value>) {
    forall k | 0 <= k < |fields| :: Shred(codec, fields[k].ty, FieldColumn(fields, values, k)).Some?
  }

  /** A struct column whose fields all build holds its rows. */
  lemma StructBuilds(codec: Codec, ty: DorisType, values: seq<Value>)
    requires ty.Struct? && ArrowType(ty).Some? && ty.fields != [] && AllSpread(ty.fields, values)
    requires FieldsMeant(codec, ty.fields, values) && FieldsBuild(codec, ty.fields, values)
    ensures Supported(ty) && ShapedOffsetsFit(codec, ty, values) && AllShapedNormal(codec, ty, values)
    ensures ShredNested(codec, ty, values).Some?
    ensures HoldsShaped(codec, ty, values, ShredNested(codec, ty, values).value)
  {
    var fields := ty.fields;
    forall k | 0 <= k < |fields|
      ensures Built(codec, fields[k].ty, FieldColumn(fields, values, k))
    {
      assert Meant(codec, fields[k].ty, FieldColumn(fields, values, k));
    }
    StructRows(codec, ty, values);
    var columns := seq(|fields|, k requires 0 <= k < |fields| =>
                         Shred(codec, fields[k].ty, FieldColumn(fields, values, k)).value);
    StructDecodes(codec, ty, values, columns);
  }

  /** When every row normalises, every field builds. */
  lemma NormalFieldsBuild(codec: Codec, ty: DorisType, values: seq<Value>)
    requires ty.Struct? && FieldsMeant(codec, ty.fields, values)
    requires Supported(ty) && ShapedOffsetsFit(codec, ty, values) && AllShapedNormal(codec, ty, values)
    ensures ty.fields != [] && AllSpread(ty.fields, values) && FieldsBuild(codec, ty.fields, values)
  {
    var fields := ty.fields;
    forall i | 0 <= i < |values|
      ensures SpreadRow(fields, values[i]).Some?
    {
      assert NormaliseShaped(codec, ty, values[i]).Some?;
    }
    StructRows(codec, ty, values);
    forall k | 0 <= k < |fields|
      ensures Shred(codec, fields[k].ty, FieldColumn(fields, values, k)).Some?
    {
      assert Meant(codec, fields[k].ty, FieldColumn(fields, values, k));
    }
  }

  lemma StructDecodes(codec: Codec, ty: DorisType, values: seq<Value>, columns: seq<Arr>)
    requires ty.Struct? && ArrowType(ty).Some? && ty.fields != [] && |columns| == |ty.fields|
    requires AllSpread(ty.fields, values) && AllShapedNormal(codec, ty, values)
    requires forall k | 0 <= k < |ty.fields| ::
               Holds(codec, ty.fields[k].ty, FieldColumn(ty.fields, values, k), columns[k])
    ensures var a := NewStruct(ArrowType(ty).value.fields, columns, NullBuffer(Validity(ty, values)));
            a.Some? && HoldsShaped(codec, ty, values, a.value)
  {
    var fields := ty.fields;
    var nulls := NullBuffer(Validity(ty, values));
    var a := StructArr(ArrowType(ty).value.fields, columns, nulls);
    forall k | 0 <= k < |columns|
      ensures WellFormed(columns[k]) && Len(columns[k]) == |values|
      ensures TypeOf(columns[k]) == ArrowType(ty).value.fields[k].ty
    {
      assert Holds(codec, fields[k].ty, FieldColumn(fields, values, k), columns[k]);
    }
    forall i | 0 <= i < |values|
      ensures NormaliseShaped(codec, ty, values[i]) == Some(DecodeAt(a, i))
    {
      assert IsValid(nulls, i) == IsRow(ty, values[i]);
      assert NormaliseShaped(codec, ty, values[i]).Some?;
      if IsRow(ty, values[i]) {
        var left := NormaliseShaped(codec, ty, values[i]).value.members;
        var right := DecodeAt(a, i).members;
        forall k | 0 <= k < |fields|
          ensures left[k] == right[k]
        {
          assert Holds(codec, fields[k].ty, FieldColumn(fields, values, k), columns[k]);
          assert FieldColumn(fields, values, k)[i] == SpreadRow(fields, values[i]).value[k];
        }
        assert left == right;
      }
    }
  }
}
