/** The concatenation law of columns. */
module ColumnAppend {
  // A batch of rows builds exactly when each row builds alone and the nested
  // offsets fit 32 bits, and the column of two batches put together is the two
  // columns put end to end.

  import opened Wrappers
  import opened DorisTypes
  import opened Values
  import opened Arrow
  import opened Flatten
  import opened Columns
  import opened ColumnMeaning

  // Every ingredient of a column distributes over appending rows

  lemma RowsAppend(xs: seq<Value>, ys: seq<Value>)
    ensures ElementRows(xs + ys) == ElementRows(xs) + ElementRows(ys)
    ensures EntryRows(xs + ys) == EntryRows(xs) + EntryRows(ys)
    ensures Concat(ElementRows(xs + ys)) == Concat(ElementRows(xs)) + Concat(ElementRows(ys))
    ensures Concat(EntryRows(xs + ys)) == Concat(EntryRows(xs)) + Concat(EntryRows(ys))
    ensures Firsts(Concat(EntryRows(xs + ys))) == Firsts(Concat(EntryRows(xs))) + Firsts(Concat(EntryRows(ys)))
    ensures Seconds(Concat(EntryRows(xs + ys))) == Seconds(Concat(EntryRows(xs))) + Seconds(Concat(EntryRows(ys)))
  {
    assert ElementRows(xs + ys) == ElementRows(xs) + ElementRows(ys);
    assert EntryRows(xs + ys) == EntryRows(xs) + EntryRows(ys);
    ConcatAppend(ElementRows(xs), ElementRows(ys));
    ConcatAppend(EntryRows(xs), EntryRows(ys));
    SplitConcat(Concat(EntryRows(xs)), Concat(EntryRows(ys)));
  }

  lemma ShapesAppend(codec: Codec, ty: DorisType, xs: seq<Value>, ys: seq<Value>)
    ensures ShapeOrNull(codec, ty, xs + ys) == ShapeOrNull(codec, ty, xs) + ShapeOrNull(codec, ty, ys)
  {
  }

  lemma FieldColumnsAppend(fields: seq<Field>, xs: seq<Value>, ys: seq<Value>, k: nat)
    requires k < |fields|
    ensures FieldColumn(fields, xs + ys, k) == FieldColumn(fields, xs, k) + FieldColumn(fields, ys, k)
  {
  }

  lemma NullsAppend(ty: DorisType, xs: seq<Value>, ys: seq<Value>)
    ensures NullBuffer(Validity(ty, xs + ys)) ==
            AppendNulls(NullBuffer(Validity(ty, xs)), |xs|, NullBuffer(Validity(ty, ys)), |ys|)
  {
    var vx, vy := Validity(ty, xs), Validity(ty, ys);
    assert Validity(ty, xs + ys) == vx + vy;
    if NullBuffer(vx).None? {
      assert vx == seq(|xs|, _ => true);
    }
    if NullBuffer(vy).None? {
      assert vy == seq(|ys|, _ => true);
    }
    if NullBuffer(vx).None? && NullBuffer(vy).None? {
      assert forall i | 0 <= i < |vx + vy| :: (vx + vy)[i];
    } else if NullBuffer(vx).Some? {
      var i :| 0 <= i < |vx| && !vx[i];
      assert !(vx + vy)[i];
    } else {
      var i :| 0 <= i < |vy| && !vy[i];
      assert !(vx + vy)[|vx| + i];
    }
  }

  lemma AllOffsetsAppend<T>(a: seq<seq<T>>, b: seq<seq<T>>)
    ensures Offsets(a + b) == AppendOffsets(Offsets(a), Offsets(b))
  {
    assert a[..|a|] == a;
    forall i | 0 <= i <= |a| + |b|
      ensures Offsets(a + b)[i] == AppendOffsets(Offsets(a), Offsets(b))[i]
    {
      if i <= |a| {
        assert (a + b)[..i] == a[..i];
      } else {
        OffsetsAppend(a, b, i - |a|);
      }
    }
  }

  // The offset limit is inherited by both halves

  lemma {:induction false} OffsetsFitSplit(codec: Codec, ty: DorisType, xs: seq<Value>, ys: seq<Value>)
    requires OffsetsFit(codec, ty, xs + ys)
    ensures OffsetsFit(codec, ty, xs) && OffsetsFit(codec, ty, ys)
    decreases ty
  {
    if IsNested(ty) {
      var sx, sy := ShapeOrNull(codec, ty, xs), ShapeOrNull(codec, ty, ys);
      ShapesAppend(codec, ty, xs, ys);
      RowsAppend(sx, sy);
      match ty
      case Array(element) =>
        OffsetsFitSplit(codec, element, Concat(ElementRows(sx)), Concat(ElementRows(sy)));
      case Map(key, item) =>
        OffsetsFitSplit(codec, key, Firsts(Concat(EntryRows(sx))), Firsts(Concat(EntryRows(sy))));
        OffsetsFitSplit(codec, item, Seconds(Concat(EntryRows(sx))), Seconds(Concat(EntryRows(sy))));
      case Struct(fields) =>
        forall k | 0 <= k < |fields|
          ensures OffsetsFit(codec, fields[k].ty, FieldColumn(fields, sx, k))
          ensures OffsetsFit(codec, fields[k].ty, FieldColumn(fields, sy, k))
        {
          FieldColumnsAppend(fields, sx, sy, k);
          OffsetsFitSplit(codec, fields[k].ty, FieldColumn(fields, sx, k), FieldColumn(fields, sy, k));
        }
    }
  }

  // Success

  lemma AllNormalAppend(codec: Codec, ty: DorisType, xs: seq<Value>, ys: seq<Value>)
    ensures AllNormal(codec, ty, xs + ys) <==> AllNormal(codec, ty, xs) && AllNormal(codec, ty, ys)
  {
    if AllNormal(codec, ty, xs + ys) {
      assert forall i | 0 <= i < |xs| :: xs[i] == (xs + ys)[i];
      assert forall i | 0 <= i < |ys| :: ys[i] == (xs + ys)[|xs| + i];
    }
  }

  /** Two batches build together exactly when each builds and the offsets fit. */
  lemma BuildsTogether(codec: Codec, ty: DorisType, xs: seq<Value>, ys: seq<Value>)
    requires ArrowType(ty).Some?
    ensures Shred(codec, ty, xs + ys).Some? <==>
            Shred(codec, ty, xs).Some? && Shred(codec, ty, ys).Some? && OffsetsFit(codec, ty, xs + ys)
  {
    ShredMeaning(codec, ty, xs + ys);
    ShredMeaning(codec, ty, xs);
    ShredMeaning(codec, ty, ys);
    AllNormalAppend(codec, ty, xs, ys);
    if OffsetsFit(codec, ty, xs + ys) {
      OffsetsFitSplit(codec, ty, xs, ys);
    }
  }

  predicate EachBuilds(codec: Codec, ty: DorisType, values: seq<Value>) {
    forall v | v in values :: Shred(codec, ty, [v]).Some?
  }

  lemma EachBuildsSplit(codec: Codec, ty: DorisType, init: seq<Value>, last: Value)
    ensures EachBuilds(codec, ty, init + [last]) <==> EachBuilds(codec, ty, init) && Shred(codec, ty, [last]).Some?
  {
    var values := init + [last];
    assert forall v :: v in values <==> v in init || v == last;
  }

  /** A batch builds exactly when every row builds on its own and the offsets
      fit: checking one row at a time is sound and complete for whole batches. */
  lemma {:induction false} BuildsRowByRow(codec: Codec, ty: DorisType, values: seq<Value>)
    requires ArrowType(ty).Some?
    ensures Shred(codec, ty, values).Some? <==>
            Supported(ty) && OffsetsFit(codec, ty, values) && EachBuilds(codec, ty, values)
  {
    if values == [] {
      ShredMeaning(codec, ty, values);
    } else {
      var init, last := values[..|values| - 1], values[|values| - 1];
      assert values == init + [last];
      BuildsTogether(codec, ty, init, [last]);
      BuildsRowByRow(codec, ty, init);
      EachBuildsSplit(codec, ty, init, last);
      if OffsetsFit(codec, ty, values) {
        OffsetsFitSplit(codec, ty, init, [last]);
      }
    }
  }

  // Columns end to end

  /** The column of `xs` followed by `ys` is the column of `xs` followed by the
      column of `ys`: offsets shifted, validity and children appended. */
  lemma {:induction false} ShredAppend(codec: Codec, ty: DorisType, xs: seq<Value>, ys: seq<Value>)
    requires ArrowType(ty).Some?
    requires Shred(codec, ty, xs + ys).Some?
    ensures Shred(codec, ty, xs).Some? && Shred(codec, ty, ys).Some?
    ensures WellFormed(Shred(codec, ty, xs).value) && WellFormed(Shred(codec, ty, ys).value)
    ensures Shred(codec, ty, xs + ys).value == Append(Shred(codec, ty, xs).value, Shred(codec, ty, ys).value)
    decreases ty, 1
  {
    BuildsTogether(codec, ty, xs, ys);
    ShredMeaning(codec, ty, xs);
    ShredMeaning(codec, ty, ys);
    if IsNested(ty) {
      var sx, sy := ShapeOrNull(codec, ty, xs), ShapeOrNull(codec, ty, ys);
      ShapesAppend(codec, ty, xs, ys);
      ShapingMeaning(codec, ty, xs);
      ShapingMeaning(codec, ty, ys);
      ShapingMeaning(codec, ty, xs + ys);
      ShapedMeaning(codec, ty, sx);
      ShapedMeaning(codec, ty, sy);
      NestedAppend(codec, ty, sx, sy);
    }
  }

  lemma {:induction false} NestedAppend(codec: Codec, ty: DorisType, xs: seq<Value>, ys: seq<Value>)
    requires IsNested(ty) && ArrowType(ty).Some?
    requires ShredNested(codec, ty, xs).Some? && ShredNested(codec, ty, ys).Some?
    requires ShredNested(codec, ty, xs + ys).Some?
    requires HoldsShaped(codec, ty, xs, ShredNested(codec, ty, xs).value)
    requires HoldsShaped(codec, ty, ys, ShredNested(codec, ty, ys).value)
    ensures ShredNested(codec, ty, xs + ys).value ==
            Append(ShredNested(codec, ty, xs).value, ShredNested(codec, ty, ys).value)
    decreases ty, 0
  {
    RowsAppend(xs, ys);
    match ty
    case Array(element) =>
      ShredAppend(codec, element, Concat(ElementRows(xs)), Concat(ElementRows(ys)));
      ListAppend(codec, ty, xs, ys);
    case Map(key, item) =>
      var ex, ey := Concat(EntryRows(xs)), Concat(EntryRows(ys));
      ShredAppend(codec, key, Firsts(ex), Firsts(ey));
      ShredAppend(codec, item, Seconds(ex), Seconds(ey));
      MapAppend(codec, ty, xs, ys);
    case Struct(fields) =>
      forall k | 0 <= k < |fields|
        ensures FieldAppends(codec, fields, xs, ys, k)
      {
        FieldColumnsAppend(fields, xs, ys, k);
        ShredAppend(codec, fields[k].ty, FieldColumn(fields, xs, k), FieldColumn(fields, ys, k));
      }
      StructAppend(codec, ty, xs, ys);
  }

  predicate Appends(codec: Codec, ty: DorisType, xs: seq<Value>, ys: seq<Value>) {
    && Shred(codec, ty, xs).Some? && Shred(codec, ty, ys).Some? && Shred(codec, ty, xs + ys).Some?
    && WellFormed(Shred(codec, ty, xs).value) && WellFormed(Shred(codec, ty, ys).value)
    && Shred(codec, ty, xs + ys).value == Append(Shred(codec, ty, xs).value, Shred(codec, ty, ys).value)
  }

  /** A list column is its offsets, its validity and its child column. */
  lemma ListForm(codec: Codec, ty: DorisType, values: seq<Value>)
    requires ty.Array? && ArrowType(ty).Some? && ShredNested(codec, ty, values).Some?
    ensures var child := Shred(codec, ty.element, Concat(ElementRows(values)));
            child.Some? && ShredNested(codec, ty, values).value == ListColumn(ty, values, child.value)
  {
    ShredMeaning(codec, ty.element, Concat(ElementRows(values)));
  }

  lemma ListColumnsAppend(ty: DorisType, xs: seq<Value>, ys: seq<Value>, cx: Arr, cy: Arr)
    requires WellFormed(ListColumn(ty, xs, cx)) && WellFormed(ListColumn(ty, ys, cy))
    requires WellFormed(cx) && WellFormed(cy)
    ensures ListColumn(ty, xs + ys, Append(cx, cy)) == Append(ListColumn(ty, xs, cx), ListColumn(ty, ys, cy))
  {
    RowsAppend(xs, ys);
    NullsAppend(ty, xs, ys);
    AllOffsetsAppend(ElementRows(xs), ElementRows(ys));
    AppendKeepsType(cx, cy);
  }

  lemma ListAppend(codec: Codec, ty: DorisType, xs: seq<Value>, ys: seq<Value>)
    requires ty.Array? && ArrowType(ty).Some?
    requires ShredNested(codec, ty, xs).Some? && ShredNested(codec, ty, ys).Some?
    requires ShredNested(codec, ty, xs + ys).Some?
    requires WellFormed(ShredNested(codec, ty, xs).value) && WellFormed(ShredNested(codec, ty, ys).value)
    requires Appends(codec, ty.element, Concat(ElementRows(xs)), Concat(ElementRows(ys)))
    ensures ShredNested(codec, ty, xs + ys).value ==
            Append(ShredNested(codec, ty, xs).value, ShredNested(codec, ty, ys).value)
  {
    ListForm(codec, ty, xs);
    ListForm(codec, ty, ys);
    ListForm(codec, ty, xs + ys);
    RowsAppend(xs, ys);
    ListColumnsAppend(ty, xs, ys, Shred(codec, ty.element, Concat(ElementRows(xs))).value,
                      Shred(codec, ty.element, Concat(ElementRows(ys))).value);
  }

  /** A map column is its offsets, its validity and its two child columns. */
  lemma MapForm(codec: Codec, ty: DorisType, values: seq<Value>)
    requires ty.Map? && ArrowType(ty).Some? && ShredNested(codec, ty, values).Some?
    ensures var entries := Concat(EntryRows(values));
            var keys, items := Shred(codec, ty.key, Firsts(entries)), Shred(codec, ty.item, Seconds(entries));
            && keys.Some? && items.Some?
            && ShredNested(codec, ty, values).value == MapColumn(ty, values, keys.value, items.value)
  {
    var entries := Concat(EntryRows(values));
    ShredMeaning(codec, ty.key, Firsts(entries));
    ShredMeaning(codec, ty.item, Seconds(entries));
  }

  lemma MapAppend(codec: Codec, ty: DorisType, xs: seq<Value>, ys: seq<Value>)
    requires ty.Map? && ArrowType(ty).Some?
    requires ShredNested(codec, ty, xs).Some? && ShredNested(codec, ty, ys).Some?
    requires ShredNested(codec, ty, xs + ys).Some?
    requires WellFormed(ShredNested(codec, ty, xs).value) && WellFormed(ShredNested(codec, ty, ys).value)
    requires Appends(codec, ty.key, Firsts(Concat(EntryRows(xs))), Firsts(Concat(EntryRows(ys))))
    requires Appends(codec, ty.item, Seconds(Concat(EntryRows(xs))), Seconds(Concat(EntryRows(ys))))
    ensures ShredNested(codec, ty, xs + ys).value ==
            Append(ShredNested(codec, ty, xs).value, ShredNested(codec, ty, ys).value)
  {
    MapForm(codec, ty, xs);
    MapForm(codec, ty, ys);
    MapForm(codec, ty, xs + ys);
    RowsAppend(xs, ys);
    var ex, ey := Concat(EntryRows(xs)), Concat(EntryRows(ys));
    ShredMeaning(codec, ty.key, Firsts(ex));
    ShredMeaning(codec, ty.item, Seconds(ex));
    MapColumnsAppend(ty, xs, ys,
                     Shred(codec, ty.key, Firsts(ex)).value, Shred(codec, ty.item, Seconds(ex)).value,
                     Shred(codec, ty.key, Firsts(ey)).value, Shred(codec, ty.item, Seconds(ey)).value);
  }

  lemma AppendKeepsType(a: Arr, b: Arr)
    requires WellFormed(a) && WellFormed(b)
    ensures TypeOf(Append(a, b)) == TypeOf(a)
  {
  }

  lemma MapColumnsAppend(ty: DorisType, xs: seq<Value>, ys: seq<Value>, kx: Arr, ix: Arr, ky: Arr, iy: Arr)
    requires WellFormed(MapColumn(ty, xs, kx, ix)) && WellFormed(MapColumn(ty, ys, ky, iy))
    requires WellFormed(kx) && WellFormed(ix) && WellFormed(ky) && WellFormed(iy)
    ensures MapColumn(ty, xs + ys, Append(kx, ky), Append(ix, iy)) ==
            Append(MapColumn(ty, xs, kx, ix), MapColumn(ty, ys, ky, iy))
  {
    RowsAppend(xs, ys);
    NullsAppend(ty, xs, ys);
    AllOffsetsAppend(EntryRows(xs), EntryRows(ys));
    AppendKeepsType(kx, ky);
    AppendKeepsType(ix, iy);
    var ex, ey := MapEntries(kx, ix), MapEntries(ky, iy);
    assert Append(ex, ey).columns == [Append(kx, ky), Append(ix, iy)];
  }

  /** Field `k`: appending rows appends its values and its column. */
  predicate FieldAppends(codec: Codec, fields: seq<Field>, xs: seq<Value>, ys: seq<Value>, k: nat)
    requires k < |fields|
  {
    && FieldColumn(fields, xs + ys, k) == FieldColumn(fields, xs, k) + FieldColumn(fields, ys, k)
    && Appends(codec, fields[k].ty, FieldColumn(fields, xs, k), FieldColumn(fields, ys, k))
  }

  lemma StructAppend(codec: Codec, ty: DorisType, xs: seq<Value>, ys: seq<Value>)
    requires ty.Struct? && ArrowType(ty).Some?
    requires ShredNested(codec, ty, xs).Some? && ShredNested(codec, ty, ys).Some?
    requires ShredNested(codec, ty, xs + ys).Some?
    requires WellFormed(ShredNested(codec, ty, xs).value) && Len(ShredNested(codec, ty, xs).value) == |xs|
    requires WellFormed(ShredNested(codec, ty, ys).value) && Len(ShredNested(codec, ty, ys).value) == |ys|
    requires forall k | 0 <= k < |ty.fields| :: FieldAppends(codec, ty.fields, xs, ys, k)
    ensures ShredNested(codec, ty, xs + ys).value ==
            Append(ShredNested(codec, ty, xs).value, ShredNested(codec, ty, ys).value)
  {
    NullsAppend(ty, xs, ys);
    var a, b := ShredNested(codec, ty, xs).value, ShredNested(codec, ty, ys).value;
    var c := ShredNested(codec, ty, xs + ys).value;
    forall k | 0 <= k < |ty.fields|
      ensures c.columns[k] == Append(a.columns[k], b.columns[k])
    {
      StructForm(codec, ty, xs, k);
      StructForm(codec, ty, ys, k);
      StructForm(codec, ty, xs + ys, k);
      assert FieldAppends(codec, ty.fields, xs, ys, k);
    }
    assert c.columns == Append(a, b).columns;
  }

  /** Column `k` of a struct column is the column of its field's values. */
  lemma StructForm(codec: Codec, ty: DorisType, values: seq<Value>, k: nat)
    requires ty.Struct? && k < |ty.fields| && ShredNested(codec, ty, values).Some?
    ensures var a := ShredNested(codec, ty, values).value;
            && a.StructArr? && |a.columns| == |ty.fields|
            && a.nulls == NullBuffer(Validity(ty, values))
            && ArrowType(ty).Some? && a.fields == ArrowType(ty).value.fields
            && Shred(codec, ty.fields[k].ty, FieldColumn(ty.fields, values, k)) == Some(a.columns[k])
  {
  }
}
