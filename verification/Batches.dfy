/** The column and batch builders of `parquet_out.rs`, the startup probe, and
    what a finished record batch holds. */
module Batches {
  import opened Wrappers
  import opened DorisTypes
  import opened Values
  import opened Scalars
  import opened Arrow
  import opened Flatten
  import opened Columns
  import opened ColumnMeaning
  import opened ColumnAppend
  import opened ColumnBuild

  /** One typed accumulator per column. Nested columns keep shaped values and
      assemble their arrays when the batch is built. */
  class ColumnBuilder {
    const codec: Codec
    const ty: DorisType
    var cells: seq<Option<Cell>>
    var values: seq<Value>
    /** The values appended since the last finish, as they were handed in. */
    ghost var taken: seq<Value>

    ghost predicate Valid()
      reads this
    {
      && ArrowType(ty).Some?
      && if IsNested(ty) then
           |values| == |taken| && forall i | 0 <= i < |taken| :: ShapeNested(codec, ty, taken[i]) == Some(values[i])
         else
           && |cells| == |taken|
           && (forall i | 0 <= i < |taken| :: cells[i] == if taken[i].Null? then None else codec.convert(ty, taken[i]))
           && (forall i | 0 <= i < |taken| :: taken[i].Null? || cells[i].Some?)
    }

    constructor (codec: Codec, ty: DorisType)
      requires ArrowType(ty).Some?
      ensures Valid() && taken == [] && this.codec == codec && this.ty == ty
    {
      this.codec, this.ty := codec, ty;
      cells, values, taken := [], [], [];
    }

    predicate Accepts(value: Value) {
      value.Null? || if IsNested(ty) then ShapeNested(codec, ty, value).Some? else codec.convert(ty, value).Some?
    }

    method Append(value: Value) returns (ok: bool)
      requires Valid()
      modifies this
      ensures Valid()
      ensures ok <==> Accepts(value)
      ensures taken == if ok then old(taken) + [value] else old(taken)
    {
      ok := true;
      if value.Null? {
        if IsNested(ty) {
          values := values + [Null];
        } else {
          cells := cells + [None];
        }
      } else if IsNested(ty) {
        var shaped := ShapeNested(codec, ty, value);
        if shaped.None? {
          return false;
        }
        values := values + [shaped.value];
      } else {
        var cell := codec.convert(ty, value);
        if cell.None? {
          return false;
        }
        cells := cells + [cell];
      }
      taken := taken + [value];
    }

    /** The column of everything appended, leaving the builder empty. */
    method Finish() returns (r: Option<Arr>)
      requires Valid()
      modifies this
      ensures Valid() && taken == []
      ensures r == Shred(codec, ty, old(taken))
    {
      ghost var rows, built := taken, cells;
      if IsNested(ty) {
        assert AllShaped(codec, ty, rows) && values == ShapeAll(codec, ty, rows);
        r := BuildNested(codec, ty, values);
      } else if !IsScalar(ty) {
        r := None;
      } else {
        assert built == seq(|rows|, i requires 0 <= i < |rows| => CellOf(codec, ty, rows[i]));
        r := Some(FlatArr(ScalarType(ty), cells));
      }
      cells, values, taken := [], [], [];
    }
  }

  // The startup probe

  /** A probe passes: the value is not a null the column forbids, and it builds
      a one-row column. */
  predicate Probes(codec: Codec, column: Column, value: Value) {
    && !(value.Null? && !column.nullable)
    && ArrowType(column.ty).Some?
    && Shred(codec, column.ty, [value]).Some?
  }

  /** A value a builder refuses does not build a column. */
  lemma RefusedValue(codec: Codec, ty: DorisType, value: Value)
    requires !value.Null?
    requires if IsNested(ty) then ShapeNested(codec, ty, value).None? else codec.convert(ty, value).None?
    ensures Shred(codec, ty, [value]).None?
  {
    assert [value][0] == value;
  }

  method Probe(codec: Codec, column: Column, value: Value) returns (ok: bool)
    ensures ok <==> Probes(codec, column, value)
  {
    if value.Null? && !column.nullable {
      return false;
    }
    if ArrowType(column.ty).None? {
      return false;
    }
    var builder := new ColumnBuilder(codec, column.ty);
    var appended := builder.Append(value);
    if !appended {
      RefusedValue(codec, column.ty, value);
      return false;
    }
    assert builder.taken == [value];
    var column' := builder.Finish();
    ok := column'.Some?;
  }

  // Nulls in a finished column

  lemma HasNullsMeansNullRow(a: Arr)
    requires WellFormed(a)
    ensures HasNulls(a) <==> exists i: nat | i < Len(a) :: DecodeAt(a, i) == NullDatum
  {
    match a
    case FlatArr(_, cells) =>
      forall i: nat | i < Len(a)
        ensures DecodeAt(a, i) == NullDatum <==> a.cells[i].None?
      {
      }
      if HasNulls(a) {
        var i: nat :| i < |a.cells| && a.cells[i].None?;
        assert DecodeAt(a, i) == NullDatum;
      } else {
        assert forall i: nat | i < |a.cells| :: !a.cells[i].None?;
      }
    case ListArr(_, _, _, nulls) => NullsMeanNullRow(a, nulls);
    case MapArr(_, _, _, nulls) => NullsMeanNullRow(a, nulls);
    case StructArr(_, _, nulls) => NullsMeanNullRow(a, nulls);
  }

  lemma NullsMeanNullRow(a: Arr, nulls: Nulls)
    requires WellFormed(a) && !a.FlatArr? && nulls == a.nulls
    ensures (nulls.Some? && false in nulls.value) <==> exists i: nat | i < Len(a) :: DecodeAt(a, i) == NullDatum
  {
    NullsCovered(a, nulls);
    if nulls.Some? && false in nulls.value {
      var i: nat :| i < |nulls.value| && nulls.value[i] == false;
      NullMeansNullRow(a, nulls, i);
    }
    if exists i: nat | i < Len(a) :: DecodeAt(a, i) == NullDatum {
      var i: nat :| i < Len(a) && DecodeAt(a, i) == NullDatum;
      NullMeansNullRow(a, nulls, i);
    }
  }

  lemma NullsCovered(a: Arr, nulls: Nulls)
    requires WellFormed(a) && !a.FlatArr? && nulls == a.nulls
    ensures NullsCover(nulls, Len(a))
  {
  }

  lemma NullMeansNullRow(a: Arr, nulls: Nulls, i: nat)
    requires WellFormed(a) && !a.FlatArr? && nulls == a.nulls && i < Len(a)
    ensures DecodeAt(a, i) == NullDatum <==> !IsValid(nulls, i)
  {
  }

  /** The value becomes a null row: a null, or JSON text spelling null in a
      nested column. */
  predicate IsNullRow(codec: Codec, ty: DorisType, value: Value) {
    value.Null? || (IsNested(ty) && value.Text? && codec.json(value.text) == Some(Null))
  }

  lemma NormaliseNull(codec: Codec, ty: DorisType, value: Value)
    requires Normalise(codec, ty, value).Some?
    ensures Normalise(codec, ty, value) == Some(NullDatum) <==> IsNullRow(codec, ty, value)
  {
  }

  lemma ColumnNulls(codec: Codec, ty: DorisType, values: seq<Value>)
    requires ArrowType(ty).Some? && Shred(codec, ty, values).Some?
    ensures HasNulls(Shred(codec, ty, values).value) <==>
            exists i | 0 <= i < |values| :: IsNullRow(codec, ty, values[i])
  {
    ShredMeaning(codec, ty, values);
    HasNullsMeansNullRow(Shred(codec, ty, values).value);
    NullRowsShow(codec, ty, values, Shred(codec, ty, values).value);
  }

  lemma NullRowShows(codec: Codec, ty: DorisType, values: seq<Value>, a: Arr, i: nat)
    requires Holds(codec, ty, values, a) && i < |values|
    ensures DecodeAt(a, i) == NullDatum <==> IsNullRow(codec, ty, values[i])
  {
    NormaliseNull(codec, ty, values[i]);
  }

  lemma NullRowsShow(codec: Codec, ty: DorisType, values: seq<Value>, a: Arr)
    requires Holds(codec, ty, values, a)
    ensures (exists i: nat | i < Len(a) :: DecodeAt(a, i) == NullDatum) <==>
            (exists i | 0 <= i < |values| :: IsNullRow(codec, ty, values[i]))
  {
    if exists i | 0 <= i < |values| :: IsNullRow(codec, ty, values[i]) {
      var i: nat :| i < |values| && IsNullRow(codec, ty, values[i]);
      NullRowShows(codec, ty, values, a, i);
    }
    if exists i: nat | i < Len(a) :: DecodeAt(a, i) == NullDatum {
      var i: nat :| i < Len(a) && DecodeAt(a, i) == NullDatum;
      NullRowShows(codec, ty, values, a, i);
    }
  }

  // Record batches

  datatype RecordBatch = RecordBatch(schema: seq<ArrowField>, columns: seq<Arr>)

  /** The checks a record batch makes of its columns. */
  function NewRecordBatch(schema: seq<ArrowField>, columns: seq<Arr>): Option<RecordBatch> {
    if || columns == [] || |columns| != |schema|
       || (exists k | 0 <= k < |columns| :: Len(columns[k]) != Len(columns[0]))
       || (exists k | 0 <= k < |columns| :: TypeOf(columns[k]) != schema[k].ty)
       || (exists k | 0 <= k < |columns| :: !schema[k].nullable && HasNulls(columns[k]))
    then None
    else Some(RecordBatch(schema, columns))
  }

  predicate ColumnBuilds(codec: Codec, column: Column, values: seq<Value>) {
    && Shred(codec, column.ty, values).Some?
    && (column.nullable || !HasNulls(Shred(codec, column.ty, values).value))
  }

  /** Startup probing is sound for whole batches: when every value probes, the
      batch's column builds and satisfies its nullability exactly when the
      nested offsets fit and no NOT NULL nested column is fed JSON null text. */
  lemma ProbedBatchBuilds(codec: Codec, column: Column, values: seq<Value>)
    requires values != []
    requires forall i | 0 <= i < |values| :: Probes(codec, column, values[i])
    ensures ColumnBuilds(codec, column, values) <==>
            && OffsetsFit(codec, column.ty, values)
            && (column.nullable || forall i | 0 <= i < |values| :: !IsNullRow(codec, column.ty, values[i]))
  {
    var ty := column.ty;
    assert Probes(codec, column, values[0]);
    ShredMeaning(codec, ty, [values[0]]);
    BuildsRowByRow(codec, ty, values);
    if Shred(codec, ty, values).Some? {
      ColumnNulls(codec, ty, values);
    }
  }

  /** The gap the probe leaves: `null` as JSON text passes it for a NOT NULL
      ARRAY and then fails the whole batch. */
  lemma JsonNullSlipsPastTheProbe(codec: Codec)
    requires codec.json("null") == Some(Null)
    ensures var column := Column("tags", Array(Int), false);
            && Probes(codec, column, Text("null"))
            && !ColumnBuilds(codec, column, [Text("null")])
  {
    var ty := Array(Int);
    var values := [Text("null")];
    ShredMeaning(codec, ty, values);
    assert ShapeOrNull(codec, ty, values) == [Null];
    var rows := ElementRows([Null]);
    assert |rows| == 1 && rows[0] == [] && rows[..0] == [];
    assert Concat(rows) == [];
    assert Normalise(codec, ty, values[0]) == Some(NullDatum);
    ColumnNulls(codec, ty, values);
    assert IsNullRow(codec, ty, values[0]);
  }

  // Batches of rows

  function SchemaFields(columns: seq<Column>): Option<seq<ArrowField>> {
    if forall k | 0 <= k < |columns| :: ArrowType(columns[k].ty).Some?
    then Some(seq(|columns|, k requires 0 <= k < |columns| =>
                    ArrowField(columns[k].name, ArrowType(columns[k].ty).value, columns[k].nullable)))
    else None
  }

  /** Column `k` of a table of rows. */
  function TableColumn(table: seq<seq<Value>>, k: nat): seq<Value>
    requires forall row | row in table :: k < |row|
  {
    seq(|table|, i requires 0 <= i < |table| => table[i][k])
  }

  /** The batch holds the table: in column order, row `i` of column `k` reads
      back as the value of row `i`, and NOT NULL columns hold no null. */
  ghost predicate BatchHolds(codec: Codec, columns: seq<Column>, table: seq<seq<Value>>, batch: RecordBatch)
    requires forall row | row in table :: |row| == |columns|
  {
    && |batch.columns| == |columns| && Some(batch.schema) == SchemaFields(columns)
    && forall k | 0 <= k < |columns| ::
         && Holds(codec, columns[k].ty, TableColumn(table, k), batch.columns[k])
         && (columns[k].nullable || !HasNulls(batch.columns[k]))
  }

  /** A builder of this type has taken exactly these values. */
  ghost predicate Collects(b: ColumnBuilder, codec: Codec, ty: DorisType, values: seq<Value>)
    reads b
  {
    b.Valid() && b.codec == codec && b.ty == ty && b.taken == values
  }

  predicate Rectangular(table: seq<seq<Value>>, width: nat) {
    forall row | row in table :: |row| == width
  }

  predicate Distinct(bs: seq<ColumnBuilder>) {
    forall j, k | 0 <= j < k < |bs| :: bs[j] != bs[k]
  }

  /** Builder `k` has taken column `k` of the table. */
  ghost predicate CollectsTable(bs: seq<ColumnBuilder>, codec: Codec, columns: seq<Column>, table: seq<seq<Value>>)
    requires |bs| == |columns| && Rectangular(table, |columns|)
    reads bs
  {
    forall k | 0 <= k < |columns| :: Collects(bs[k], codec, columns[k].ty, TableColumn(table, k))
  }

  /** A looked-up value the column takes. */
  predicate TakesValue(codec: Codec, column: Column, value: Option<Value>) {
    && value.Some? && !(value.value.Null? && !column.nullable)
    && (value.value.Null?
        || if IsNested(column.ty) then ShapeNested(codec, column.ty, value.value).Some?
           else codec.convert(column.ty, value.value).Some?)
  }

  method NewBuilders(codec: Codec, columns: seq<Column>) returns (builders: seq<ColumnBuilder>)
    requires forall k | 0 <= k < |columns| :: ArrowType(columns[k].ty).Some?
    ensures |builders| == |columns| && fresh(builders)
    ensures forall j, k | 0 <= j < k < |builders| :: builders[j] != builders[k]
    ensures forall k | 0 <= k < |columns| ::
              && builders[k].Valid() && builders[k].taken == []
              && builders[k].codec == codec && builders[k].ty == columns[k].ty
  {
    builders := [];
    for k := 0 to |columns|
      invariant |builders| == k && fresh(builders)
      invariant forall i, j | 0 <= i < j < k :: builders[i] != builders[j]
      invariant forall j | 0 <= j < k ::
                  && builders[j].Valid() && builders[j].taken == []
                  && builders[j].codec == codec && builders[j].ty == columns[j].ty
    {
      var builder := new ColumnBuilder(codec, columns[k].ty);
      builders := builders + [builder];
    }
  }

  function LookedUp(columns: seq<Column>, lookup: string -> Option<Value>): seq<Value>
    requires forall k | 0 <= k < |columns| :: lookup(columns[k].name).Some?
  {
    seq(|columns|, k requires 0 <= k < |columns| => lookup(columns[k].name).value)
  }

  /** The column loop of `append_row`, over builders that hold `taken`. */
  method AppendColumns(bs: seq<ColumnBuilder>, codec: Codec, columns: seq<Column>, lookup: string -> Option<Value>,
                       ghost taken: seq<seq<Value>>)
    returns (ok: bool)
    requires |bs| == |columns| == |taken| && Distinct(bs)
    requires forall k | 0 <= k < |bs| :: Collects(bs[k], codec, columns[k].ty, taken[k])
    modifies bs
    ensures ok <==> forall k | 0 <= k < |columns| :: TakesValue(codec, columns[k], lookup(columns[k].name))
    ensures ok ==> forall k | 0 <= k < |bs| ::
                     Collects(bs[k], codec, columns[k].ty, taken[k] + [lookup(columns[k].name).value])
  {
    for k := 0 to |columns|
      invariant forall j | 0 <= j < k :: TakesValue(codec, columns[j], lookup(columns[j].name))
      invariant forall j | 0 <= j < k ::
                  Collects(bs[j], codec, columns[j].ty, taken[j] + [lookup(columns[j].name).value])
      invariant forall j | k <= j < |bs| :: Collects(bs[j], codec, columns[j].ty, taken[j])
    {
      var value := lookup(columns[k].name);
      if value.None? {
        return false;
      }
      if value.value.Null? && !columns[k].nullable {
        return false;
      }
      var appended := AppendOne(bs[k], codec, columns[k].ty, value.value, taken[k]);
      if !appended {
        return false;
      }
    }
    ok := true;
  }

  method AppendOne(b: ColumnBuilder, codec: Codec, ty: DorisType, value: Value, ghost taken: seq<Value>)
    returns (ok: bool)
    requires Collects(b, codec, ty, taken)
    modifies b
    ensures ok <==> value.Null? || if IsNested(ty) then ShapeNested(codec, ty, value).Some?
                                   else codec.convert(ty, value).Some?
    ensures ok ==> Collects(b, codec, ty, taken + [value])
  {
    ok := b.Append(value);
  }

  /** The column loop of `finish`, over builders that hold `taken`. */
  method FinishColumns(bs: seq<ColumnBuilder>, codec: Codec, columns: seq<Column>, ghost taken: seq<seq<Value>>)
    returns (arrays: Option<seq<Arr>>)
    requires |bs| == |columns| == |taken| && Distinct(bs)
    requires forall k | 0 <= k < |bs| :: Collects(bs[k], codec, columns[k].ty, taken[k])
    modifies bs
    ensures arrays.Some? <==> forall k | 0 <= k < |columns| :: Shred(codec, columns[k].ty, taken[k]).Some?
    ensures arrays.Some? ==>
              && |arrays.value| == |columns|
              && forall k | 0 <= k < |columns| :: Shred(codec, columns[k].ty, taken[k]) == Some(arrays.value[k])
  {
    var built: seq<Arr> := [];
    for k := 0 to |columns|
      invariant |built| == k
      invariant forall j | 0 <= j < k :: Shred(codec, columns[j].ty, taken[j]) == Some(built[j])
      invariant forall j | k <= j < |bs| :: Collects(bs[j], codec, columns[j].ty, taken[j])
    {
      var column := FinishOne(bs[k], codec, columns[k].ty, taken[k]);
      if column.None? {
        return None;
      }
      built := built + [column.value];
    }
    arrays := Some(built);
  }

  method FinishOne(b: ColumnBuilder, codec: Codec, ty: DorisType, ghost taken: seq<Value>) returns (r: Option<Arr>)
    requires Collects(b, codec, ty, taken)
    modifies b
    ensures r == Shred(codec, ty, taken)
  {
    r := b.Finish();
  }

  /** The columns of a table of this width. */
  function TableColumns(table: seq<seq<Value>>, width: nat): (columns: seq<seq<Value>>)
    requires Rectangular(table, width)
    ensures |columns| == width
  {
    seq(width, k requires 0 <= k < width => TableColumn(table, k))
  }

  lemma TableColumnStep(table: seq<seq<Value>>, row: seq<Value>, k: nat)
    requires Rectangular(table, |row|) && k < |row|
    ensures Rectangular(table + [row], |row|)
    ensures TableColumn(table + [row], k) == TableColumn(table, k) + [row[k]]
  {
  }

  /** The batch of builders that hold a table. */
  method MakeBatch(bs: seq<ColumnBuilder>, codec: Codec, columns: seq<Column>, ghost table: seq<seq<Value>>)
    returns (r: Option<RecordBatch>)
    requires SchemaFields(columns).Some? && Distinct(bs) && |bs| == |columns| && Rectangular(table, |columns|)
    requires CollectsTable(bs, codec, columns, table)
    modifies bs
    ensures r.Some? ==> BatchHolds(codec, columns, table, r.value)
    ensures r.Some? <==>
            columns != [] && forall k | 0 <= k < |columns| :: ColumnBuilds(codec, columns[k], TableColumn(table, k))
  {
    var arrays := FinishColumns(bs, codec, columns, TableColumns(table, |columns|));
    if arrays.None? {
      return None;
    }
    FinishedColumns(codec, columns, table, arrays.value);
    r := NewRecordBatch(SchemaFields(columns).value, arrays.value);
  }

  class BatchBuilder {
    const codec: Codec
    const columns: seq<Column>
    var builders: seq<ColumnBuilder>
    var rows: nat
    /** The rows appended since the last finish. */
    ghost var table: seq<seq<Value>>

    ghost predicate Valid()
      reads this, builders
    {
      && |builders| == |columns| && SchemaFields(columns).Some? && Distinct(builders)
      && rows == |table| && Rectangular(table, |columns|)
      && CollectsTable(builders, codec, columns, table)
    }

    constructor (codec: Codec, columns: seq<Column>)
      requires SchemaFields(columns).Some?
      ensures Valid() && table == [] && fresh(builders)
      ensures this.codec == codec && this.columns == columns
    {
      this.codec, this.columns := codec, columns;
      rows, table := 0, [];
      new;
      builders := NewBuilders(codec, columns);
    }

    /** Append one row, taking each column's value from `lookup`. A refused row
        leaves the row count alone; its caller drops the builder. */
    method AppendRow(lookup: string -> Option<Value>) returns (ok: bool)
      requires Valid()
      modifies this, builders
      ensures builders == old(builders)
      ensures ok <==> forall k | 0 <= k < |columns| :: TakesValue(codec, columns[k], lookup(columns[k].name))
      ensures ok ==> Valid() && table == old(table) + [LookedUp(columns, lookup)]
      ensures !ok ==> rows == old(rows)
    {
      ok := AppendColumns(builders, codec, columns, lookup, TableColumns(table, |columns|));
      if ok {
        ghost var row := LookedUp(columns, lookup);
        forall k | 0 <= k < |columns|
          ensures Rectangular(table + [row], |columns|)
          ensures TableColumn(table + [row], k) == TableColumn(table, k) + [row[k]]
        {
          TableColumnStep(table, row, k);
        }
        rows, table := rows + 1, table + [row];
      }
    }

    /** Take the accumulated rows as a batch, leaving an empty builder. */
    method Finish() returns (r: Option<RecordBatch>)
      requires Valid()
      modifies this, builders
      ensures r.Some? ==> Valid() && table == [] && rows == 0 && fresh(builders)
      ensures r.Some? ==> BatchHolds(codec, columns, old(table), r.value)
      ensures r.Some? <==>
              && columns != []
              && forall k | 0 <= k < |columns| :: ColumnBuilds(codec, columns[k], TableColumn(old(table), k))
    {
      r := MakeBatch(builders, codec, columns, table);
      if r.None? {
        return None;
      }
      rows, table := 0, [];
      builders := NewBuilders(codec, columns);
    }
  }

  /** Finished columns pass every check of the record batch but nullability. */
  lemma FinishedColumns(codec: Codec, columns: seq<Column>, table: seq<seq<Value>>, arrays: seq<Arr>)
    requires SchemaFields(columns).Some? && |arrays| == |columns|
    requires forall row | row in table :: |row| == |columns|
    requires forall k | 0 <= k < |columns| :: Shred(codec, columns[k].ty, TableColumn(table, k)) == Some(arrays[k])
    ensures var batch := NewRecordBatch(SchemaFields(columns).value, arrays);
            && (batch.Some? <==>
                && columns != []
                && forall k | 0 <= k < |columns| :: ColumnBuilds(codec, columns[k], TableColumn(table, k)))
            && (batch.Some? ==> BatchHolds(codec, columns, table, batch.value))
  {
    forall k | 0 <= k < |columns|
      ensures Holds(codec, columns[k].ty, TableColumn(table, k), arrays[k])
    {
      ShredMeaning(codec, columns[k].ty, TableColumn(table, k));
    }
    HeldColumnsPass(codec, columns, table, arrays);
  }

  lemma HeldColumnsPass(codec: Codec, columns: seq<Column>, table: seq<seq<Value>>, arrays: seq<Arr>)
    requires SchemaFields(columns).Some? && |arrays| == |columns|
    requires forall row | row in table :: |row| == |columns|
    requires forall k | 0 <= k < |columns| :: Holds(codec, columns[k].ty, TableColumn(table, k), arrays[k])
    ensures var batch := NewRecordBatch(SchemaFields(columns).value, arrays);
            && (batch.Some? <==>
                columns != [] && forall k | 0 <= k < |columns| :: columns[k].nullable || !HasNulls(arrays[k]))
            && (batch.Some? ==> BatchHolds(codec, columns, table, batch.value))
  {
    assert forall k | 0 <= k < |columns| :: Len(arrays[k]) == |table|;
  }
}
