/** `build_array` and `build_nested` as the source runs them, loop by loop,
    against the columns they must produce. */
module ColumnBuild {
  import opened Wrappers
  import opened Numerals
  import opened DorisTypes
  import opened Values
  import opened Scalars
  import opened Arrow
  import opened Flatten
  import opened Columns

  /** `offset`: a child count as a 32-bit offset. */
  function Offset(count: nat): Option<int> {
    if count > I32_MAX then None else Some(count)
  }

  lemma PrefixRows<T>(rows: seq<seq<T>>, i: nat)
    requires i < |rows|
    ensures Concat(rows[..i + 1]) == Concat(rows[..i]) + rows[i]
    ensures Offsets(rows[..i + 1]) == Offsets(rows[..i]) + [|Concat(rows[..i + 1])|]
    ensures |Concat(rows[..i + 1])| <= |Concat(rows)|
  {
    RowSlice(rows, i);
    assert rows[..i + 1] == rows[..i] + [rows[i]];
    assert rows[..i + 1][..i] == rows[..i];
    forall k | 0 <= k <= i
      ensures Offsets(rows[..i + 1])[k] == Offsets(rows[..i])[k]
    {
      assert rows[..i + 1][..k] == rows[..i][..k];
    }
    assert rows[..i + 1][..i + 1] == rows[..i + 1];
  }

  method BuildArray(codec: Codec, ty: DorisType, values: seq<Value>) returns (r: Option<Arr>)
    ensures r == Shred(codec, ty, values)
    decreases ty, 2
  {
    if IsNested(ty) {
      var shaped := [];
      for i := 0 to |values|
        invariant |shaped| == i
        invariant forall j | 0 <= j < i :: ShapeNested(codec, ty, values[j]) == Some(shaped[j])
      {
        var one := ShapeNested(codec, ty, values[i]);
        if one.None? {
          return None;
        }
        shaped := shaped + [one.value];
      }
      assert AllShaped(codec, ty, values) && shaped == ShapeAll(codec, ty, values);
      r := BuildNested(codec, ty, shaped);
    } else {
      r := BuildScalar(codec, ty, values);
    }
  }

  /** The scalar arm: one builder, one append per row. */
  method BuildScalar(codec: Codec, ty: DorisType, values: seq<Value>) returns (r: Option<Arr>)
    requires !IsNested(ty)
    ensures r == Shred(codec, ty, values)
  {
    if !IsScalar(ty) {
      return None;
    }
    var cells: seq<Option<Cell>> := [];
    for i := 0 to |values|
      invariant |cells| == i
      invariant forall j | 0 <= j < i :: values[j].Null? || codec.convert(ty, values[j]).Some?
      invariant forall j | 0 <= j < i :: cells[j] == CellOf(codec, ty, values[j])
    {
      if values[i].Null? {
        cells := cells + [None];
      } else {
        var cell := codec.convert(ty, values[i]);
        if cell.None? {
          return None;
        }
        cells := cells + [cell];
      }
    }
    assert cells == seq(|values|, i requires 0 <= i < |values| => CellOf(codec, ty, values[i]));
    r := Some(FlatArr(ScalarType(ty), cells));
  }

  method BuildNested(codec: Codec, ty: DorisType, values: seq<Value>) returns (r: Option<Arr>)
    requires IsNested(ty)
    ensures r == ShredNested(codec, ty, values)
    decreases ty, 1
  {
    if ty.Array? {
      r := BuildList(codec, ty, values);
    } else if ty.Map? {
      r := BuildMap(codec, ty, values);
    } else {
      r := BuildStruct(codec, ty, values);
    }
  }

  method BuildList(codec: Codec, ty: DorisType, values: seq<Value>) returns (r: Option<Arr>)
    requires ty.Array?
    ensures r == ShredNested(codec, ty, values)
    decreases ty, 0
  {
    var parts := CollectElements(ty, values);
    if parts.None? {
      return None;
    }
    var (offsets, valid, children) := parts.value;
    var child := BuildArray(codec, ty.element, children);
    var inner := ArrowType(ty.element);
    if child.None? || inner.None? {
      return None;
    }
    r := NewList(ArrowField(LIST_ELEMENT, inner.value, true), offsets, child.value, NullBuffer(valid));
  }

  method BuildMap(codec: Codec, ty: DorisType, values: seq<Value>) returns (r: Option<Arr>)
    requires ty.Map?
    ensures r == ShredNested(codec, ty, values)
    decreases ty, 0
  {
    var ok, offsets, valid, rawKeys, rawItems := CollectEntries(codec, ty, values);
    if !ok {
      return None;
    }
    var keys := BuildArray(codec, ty.key, rawKeys);
    if keys.None? {
      return None;
    }
    var items := BuildArray(codec, ty.item, rawItems);
    var k, v := ArrowType(ty.key), ArrowType(ty.item);
    if items.None? || k.None? || v.None? {
      return None;
    }
    var entries := NewStruct(EntryFields(k.value, v.value), [keys.value, items.value], None);
    if entries.None? {
      return None;
    }
    r := NewMap(EntriesField(k.value, v.value), offsets, entries.value, NullBuffer(valid));
  }

  method BuildStruct(codec: Codec, ty: DorisType, values: seq<Value>) returns (r: Option<Arr>)
    requires ty.Struct?
    ensures r == ShredNested(codec, ty, values)
    decreases ty, 0
  {
    var fields := ty.fields;
    var parts := CollectFields(ty, values);
    if parts.None? {
      return None;
    }
    var (valid, columns) := parts.value;
    var arrays := [];
    for k := 0 to |fields|
      invariant |arrays| == k
      invariant forall j | 0 <= j < k ::
                  Shred(codec, fields[j].ty, FieldColumn(fields, values, j)) == Some(arrays[j])
    {
      var column := BuildArray(codec, fields[k].ty, columns[k]);
      if column.None? {
        return None;
      }
      arrays := arrays + [column.value];
    }
    var arrowType := ArrowType(ty);
    if arrowType.None? {
      return None;
    }
    assert arrays == seq(|fields|, k requires 0 <= k < |fields| =>
                           Shred(codec, fields[k].ty, FieldColumn(fields, values, k)).value);
    r := NewStruct(arrowType.value.fields, arrays, NullBuffer(valid));
  }

  /** The row loop of the ARRAY arm. */
  method CollectElements(ty: DorisType, values: seq<Value>)
    returns (r: Option<(seq<int>, seq<bool>, seq<Value>)>)
    requires ty.Array?
    ensures var rows := ElementRows(values);
            r == match CheckedOffsets(rows)
                 case None => None
                 case Some(offsets) => Some((offsets, Validity(ty, values), Concat(rows)))
  {
    var offsets: seq<int>, valid: seq<bool>, children: seq<Value> := [0], [], [];
    ghost var rows := ElementRows(values);
    for i := 0 to |values|
      invariant offsets == Offsets(rows[..i])
      invariant |valid| == i && forall k | 0 <= k < i :: valid[k] == IsRow(ty, values[k])
      invariant children == Concat(rows[..i])
      invariant |children| <= I32_MAX
    {
      PrefixRows(rows, i);
      if values[i].List? {
        children := children + values[i].items;
        valid := valid + [true];
      } else {
        valid := valid + [false];
      }
      var end := Offset(|children|);
      if end.None? {
        return None;
      }
      offsets := offsets + [end.value];
    }
    assert rows[..|values|] == rows;
    assert valid == Validity(ty, values);
    r := Some((offsets, valid, children));
  }

  /** The entry loop inside one MAP row: refuses null and repeated keys. */
  method CollectRow(codec: Codec, entries: seq<(Value, Value)>, keys: seq<Value>, items: seq<Value>)
    returns (r: Option<(seq<Value>, seq<Value>)>)
    ensures r == if KeysOk(codec, entries) then Some((keys + Firsts(entries), items + Seconds(entries))) else None
  {
    var seen: set<string> := {};
    var outKeys, outItems := keys, items;
    for j := 0 to |entries|
      invariant forall k | 0 <= k < j :: !entries[k].0.Null?
      invariant seen == set k | 0 <= k < j :: codec.plain(entries[k].0)
      invariant KeysOk(codec, entries[..j])
      invariant outKeys == keys + Firsts(entries[..j])
      invariant outItems == items + Seconds(entries[..j])
    {
      var (key, item) := entries[j];
      assert entries[..j + 1] == entries[..j] + [entries[j]];
      if key.Null? {
        return None;
      }
      if codec.plain(key) in seen {
        return None;
      }
      seen := seen + {codec.plain(key)};
      outKeys := outKeys + [key];
      outItems := outItems + [item];
      assert Firsts(entries[..j + 1]) == Firsts(entries[..j]) + [key];
      assert Seconds(entries[..j + 1]) == Seconds(entries[..j]) + [item];
    }
    assert entries[..|entries|] == entries;
    r := Some((outKeys, outItems));
  }

  /** The row loop of the MAP arm. */
  method CollectEntries(codec: Codec, ty: DorisType, values: seq<Value>)
    returns (ok: bool, offsets: seq<int>, valid: seq<bool>, keys: seq<Value>, items: seq<Value>)
    requires ty.Map?
    ensures ok <==> AllKeysOk(codec, EntryRows(values)) && |Concat(EntryRows(values))| <= I32_MAX
    ensures ok ==> offsets == Offsets(EntryRows(values)) && valid == Validity(ty, values)
    ensures ok ==> keys == Firsts(Concat(EntryRows(values))) && items == Seconds(Concat(EntryRows(values)))
  {
    ok, offsets, valid, keys, items := false, [0], [], [], [];
    ghost var rows := EntryRows(values);
    for i := 0 to |values|
      invariant Collected(codec, rows[..i], offsets, keys, items)
      invariant |valid| == i && forall k | 0 <= k < i :: valid[k] == IsRow(ty, values[k])
    {
      assert rows[i] == RawEntries(values[i]);
      var step := CollectNext(codec, rows, i, RawEntries(values[i]), offsets, keys, items);
      if step.None? {
        return;
      }
      offsets, keys, items := step.value.0, step.value.1, step.value.2;
      valid := valid + [values[i].Dict? || values[i].Record?];
    }
    assert rows[..|values|] == rows && valid == Validity(ty, values);
    ok := true;
  }

  /** One turn of it. */
  method CollectNext(codec: Codec, ghost rows: seq<seq<(Value, Value)>>, ghost i: nat, entries: seq<(Value, Value)>,
                     offsets: seq<int>, keys: seq<Value>, items: seq<Value>)
    returns (r: Option<(seq<int>, seq<Value>, seq<Value>)>)
    requires i < |rows| && entries == rows[i] && Collected(codec, rows[..i], offsets, keys, items)
    ensures r.Some? ==> Collected(codec, rows[..i + 1], r.value.0, r.value.1, r.value.2)
    ensures r.None? ==> !AllKeysOk(codec, rows) || |Concat(rows)| > I32_MAX
  {
    KeysOfRow(codec, rows, i);
    var row := CollectRow(codec, entries, keys, items);
    if row.None? {
      return None;
    }
    CollectedStep(codec, rows, i, offsets, keys, items);
    var end := Offset(|row.value.0|);
    if end.None? {
      return None;
    }
    r := Some((offsets + [end.value], row.value.0, row.value.1));
  }

  /** What the loop has after these rows: their keys accepted, the offsets, and
      keys and values flattened. */
  predicate Collected(codec: Codec, rows: seq<seq<(Value, Value)>>, offsets: seq<int>,
                      keys: seq<Value>, items: seq<Value>) {
    && AllKeysOk(codec, rows) && offsets == Offsets(rows)
    && keys == Firsts(Concat(rows)) && items == Seconds(Concat(rows)) && |keys| <= I32_MAX
  }

  lemma CollectedStep(codec: Codec, rows: seq<seq<(Value, Value)>>, i: nat, offsets: seq<int>,
                      keys: seq<Value>, items: seq<Value>)
    requires i < |rows| && Collected(codec, rows[..i], offsets, keys, items) && KeysOk(codec, rows[i])
    ensures var next := keys + Firsts(rows[i]);
            && |next| <= |Concat(rows)|
            && (|next| <= I32_MAX ==>
                  Collected(codec, rows[..i + 1], offsets + [|next|], next, items + Seconds(rows[i])))
  {
    PrefixRows(rows, i);
    SplitConcat(Concat(rows[..i]), rows[i]);
    KeyStep(codec, rows, i);
  }

  lemma KeysOfRow(codec: Codec, rows: seq<seq<(Value, Value)>>, i: nat)
    requires i < |rows|
    ensures AllKeysOk(codec, rows) ==> KeysOk(codec, rows[i])
  {
  }

  lemma KeyStep(codec: Codec, rows: seq<seq<(Value, Value)>>, i: nat)
    requires i < |rows| && AllKeysOk(codec, rows[..i]) && KeysOk(codec, rows[i])
    ensures AllKeysOk(codec, rows[..i + 1])
  {
    assert rows[..i + 1] == rows[..i] + [rows[i]];
  }

  /** The slot loop inside one STRUCT row given by name. */
  method SpreadNamed(fields: seq<Field>, named: seq<(string, Value)>) returns (row: Option<seq<Value>>)
    ensures row == SpreadRow(fields, Record(named))
  {
    var slots: seq<Value> := seq(|fields|, _ => Null);
    for i := 0 to |named|
      invariant |slots| == |fields|
      invariant forall j | 0 <= j < i :: FieldIndex(fields, named[j].0).Some?
      invariant forall k | 0 <= k < |fields| :: slots[k] == SlotOf(fields, named[..i], k)
    {
      var (name, item) := named[i];
      var index := FieldIndex(fields, name);
      if index.None? {
        return None;
      }
      assert named[..i + 1][..i] == named[..i];
      slots := slots[index.value := item];
    }
    assert named[..|named|] == named;
    assert slots == seq(|fields|, k requires 0 <= k < |fields| => SlotOf(fields, named, k));
    row := Some(slots);
  }

  /** The row loop of the STRUCT arm: every field gets a value for every row. */
  method CollectFields(ty: DorisType, values: seq<Value>) returns (r: Option<(seq<bool>, seq<seq<Value>>)>)
    requires ty.Struct?
    ensures r == if forall i | 0 <= i < |values| :: SpreadRow(ty.fields, values[i]).Some?
                 then Some((Validity(ty, values),
                            seq(|ty.fields|, k requires 0 <= k < |ty.fields| => FieldColumn(ty.fields, values, k))))
                 else None
  {
    var fields := ty.fields;
    var valid: seq<bool> := [];
    var columns: seq<seq<Value>> := seq(|fields|, _ => []);
    for i := 0 to |values|
      invariant forall j | 0 <= j < i :: SpreadRow(fields, values[j]).Some?
      invariant |valid| == i && forall k | 0 <= k < i :: valid[k] == IsRow(ty, values[k])
      invariant FieldsUpTo(fields, values, i, columns)
    {
      var row := SpreadOne(fields, values[i]);
      if row.None? {
        return None;
      }
      FieldsStep(fields, values, i, columns, row.value);
      columns := seq(|fields|, k requires 0 <= k < |fields| => columns[k] + [row.value[k]]);
      valid := valid + [values[i].Record? || values[i].List?];
    }
    AllFields(fields, values, columns);
    assert valid == Validity(ty, values);
    r := Some((valid, columns));
  }

  /** One STRUCT row spread over the fields, by name or by position. */
  method SpreadOne(fields: seq<Field>, value: Value) returns (row: Option<seq<Value>>)
    ensures row == SpreadRow(fields, value)
  {
    match value {
      case Record(named) => row := SpreadNamed(fields, named);
      case List(items) => row := if |items| != |fields| then None else Some(items);
      case _ => row := Some(seq(|fields|, _ => Null));
    }
  }

  /** Each field's list holds that field of the first `i` rows. */
  predicate FieldsUpTo(fields: seq<Field>, values: seq<Value>, i: nat, columns: seq<seq<Value>>)
    requires i <= |values|
  {
    |columns| == |fields| && forall k | 0 <= k < |fields| :: columns[k] == FieldColumn(fields, values, k)[..i]
  }

  lemma FieldsStep(fields: seq<Field>, values: seq<Value>, i: nat, columns: seq<seq<Value>>, row: seq<Value>)
    requires i < |values| && FieldsUpTo(fields, values, i, columns) && SpreadRow(fields, values[i]) == Some(row)
    ensures FieldsUpTo(fields, values, i + 1,
                       seq(|fields|, k requires 0 <= k < |fields| => columns[k] + [row[k]]))
  {
    forall k | 0 <= k < |fields|
      ensures columns[k] + [row[k]] == FieldColumn(fields, values, k)[..i + 1]
    {
      assert FieldColumn(fields, values, k)[i] == row[k];
    }
  }

  lemma AllFields(fields: seq<Field>, values: seq<Value>, columns: seq<seq<Value>>)
    requires FieldsUpTo(fields, values, |values|, columns)
    ensures columns == seq(|fields|, k requires 0 <= k < |fields| => FieldColumn(fields, values, k))
  {
    forall k | 0 <= k < |fields|
      ensures columns[k] == FieldColumn(fields, values, k)
    {
    }
  }
}
