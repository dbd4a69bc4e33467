/** The Arrow columnar layout. */
module Arrow {
  // Types, arrays, the checks their constructors make, and reading a row back
  // (Apache Arrow Columnar Format, "Variable-size List Layout", "Struct Layout",
  // "Map Layout").

  import opened Wrappers
  import opened Scalars

  datatype DataType =
    | BooleanType
    | Int8
    | Int16
    | Int32
    | Int64
    | Float32
    | Float64
    | Decimal128(precision: int, scale: int)
    | Decimal256(precision: int, scale: int)
    | Date32
    | TimestampMicros
    | Utf8
    | ListType(element: ArrowField)
    | MapType(entries: ArrowField)
    | StructType(fields: seq<ArrowField>)

  datatype ArrowField = ArrowField(name: string, ty: DataType, nullable: bool)

  /** Absent when every row is valid. */
  type Nulls = Option<seq<bool>>

  datatype Arr =
    | FlatArr(ty: DataType, cells: seq<Option<Cell>>)
    | ListArr(field: ArrowField, offsets: seq<int>, child: Arr, nulls: Nulls)
    | MapArr(field: ArrowField, offsets: seq<int>, child: Arr, nulls: Nulls)
    | StructArr(fields: seq<ArrowField>, columns: seq<Arr>, nulls: Nulls)

  function Len(a: Arr): int {
    match a
    case FlatArr(_, cells) => |cells|
    case ListArr(_, offsets, _, _) => |offsets| - 1
    case MapArr(_, offsets, _, _) => |offsets| - 1
    case StructArr(_, columns, _) => if columns == [] then 0 else Len(columns[0])
  }

  function TypeOf(a: Arr): DataType {
    match a
    case FlatArr(ty, _) => ty
    case ListArr(field, _, _, _) => ListType(field)
    case MapArr(field, _, _, _) => MapType(field)
    case StructArr(fields, _, _) => StructType(fields)
  }

  /** `null_buffer`. */
  function NullBuffer(valid: seq<bool>): (nulls: Nulls)
    ensures forall i | 0 <= i < |valid| :: IsValid(nulls, i) == valid[i]
  {
    if forall i | 0 <= i < |valid| :: valid[i] then None else Some(valid)
  }

  predicate IsValid(nulls: Nulls, i: nat) {
    match nulls
    case None => true
    case Some(valid) => i < |valid| && valid[i]
  }

  predicate HasNulls(a: Arr) {
    match a
    case FlatArr(_, cells) => exists i | 0 <= i < |cells| :: cells[i].None?
    case ListArr(_, _, _, nulls) => nulls.Some? && false in nulls.value
    case MapArr(_, _, _, nulls) => nulls.Some? && false in nulls.value
    case StructArr(_, _, nulls) => nulls.Some? && false in nulls.value
  }

  predicate NullsCover(nulls: Nulls, len: int) {
    nulls.None? || |nulls.value| == len
  }

  /** Offsets start at 0, never decrease and end at the child length. */
  predicate OffsetsInto(offsets: seq<int>, childLen: int) {
    && offsets != [] && offsets[0] == 0 && offsets[|offsets| - 1] == childLen
    && (forall i, j | 0 <= i <= j < |offsets| :: offsets[i] <= offsets[j])
  }

  // Array constructors and the checks they make

  function NewList(field: ArrowField, offsets: seq<int>, child: Arr, nulls: Nulls): Option<Arr> {
    if || offsets == []
       || offsets[|offsets| - 1] > Len(child)
       || !NullsCover(nulls, |offsets| - 1)
       || (!field.nullable && HasNulls(child))
       || field.ty != TypeOf(child)
    then None
    else Some(ListArr(field, offsets, child, nulls))
  }

  function NewStruct(fields: seq<ArrowField>, columns: seq<Arr>, nulls: Nulls): Option<Arr> {
    if || columns == [] || |columns| != |fields|
       || !NullsCover(nulls, Len(columns[0]))
       || (exists k | 0 <= k < |columns| :: Len(columns[k]) != Len(columns[0]))
       || (exists k | 0 <= k < |columns| :: TypeOf(columns[k]) != fields[k].ty)
       // A required column may hold nulls only under a null row; nothing here
       // pairs a required column with a null buffer.
       || (exists k | 0 <= k < |columns| :: !fields[k].nullable && HasNulls(columns[k]))
    then None
    else Some(StructArr(fields, columns, nulls))
  }

  function NewMap(field: ArrowField, offsets: seq<int>, entries: Arr, nulls: Nulls): Option<Arr> {
    if || offsets == []
       || offsets[|offsets| - 1] > Len(entries)
       || !NullsCover(nulls, |offsets| - 1)
       || !entries.StructArr? || |entries.columns| != 2 || HasNulls(entries)
       || field.ty != TypeOf(entries)
    then None
    else Some(MapArr(field, offsets, entries, nulls))
  }

  // Reading rows back

  datatype Datum =
    | NullDatum
    | Leaf(cell: Cell)
    | Items(items: seq<Datum>)
    | Entries(entries: seq<Datum>)
    | Members(members: seq<Datum>)

  /** The layout invariants of every array, at every depth. */
  predicate WellFormed(a: Arr): (ok: bool)
    ensures ok ==> Len(a) >= 0
  {
    match a
    case FlatArr(_, _) => true
    case ListArr(field, offsets, child, nulls) =>
      WellFormed(child) && OffsetsInto(offsets, Len(child)) && NullsCover(nulls, |offsets| - 1)
    case MapArr(field, offsets, child, nulls) =>
      && WellFormed(child) && OffsetsInto(offsets, Len(child)) && NullsCover(nulls, |offsets| - 1)
      && child.StructArr? && |child.columns| == 2 && child.nulls.None?
      && !HasNulls(child.columns[0])
    case StructArr(fields, columns, nulls) =>
      && columns != [] && NullsCover(nulls, Len(columns[0]))
      && (forall k | 0 <= k < |columns| :: WellFormed(columns[k]))
      && (forall k | 0 <= k < |columns| :: Len(columns[k]) == Len(columns[0]))
  }

  /** Row `i` of an array. */
  function DecodeAt(a: Arr, i: nat): Datum
    requires WellFormed(a) && i < Len(a)
    decreases a, 0
  {
    match a
    case FlatArr(_, cells) => if cells[i].Some? then Leaf(cells[i].value) else NullDatum
    case ListArr(_, offsets, child, nulls) =>
      if IsValid(nulls, i) then Items(DecodeRange(child, offsets[i], offsets[i + 1])) else NullDatum
    case MapArr(_, offsets, child, nulls) =>
      if IsValid(nulls, i) then Entries(DecodeRange(child, offsets[i], offsets[i + 1])) else NullDatum
    case StructArr(_, columns, nulls) =>
      if IsValid(nulls, i) then Members(seq(|columns|, k requires 0 <= k < |columns| => DecodeAt(columns[k], i)))
      else NullDatum
  }

  /** Rows `from` up to `to`. */
  function DecodeRange(a: Arr, from: int, to: int): (rows: seq<Datum>)
    requires WellFormed(a) && 0 <= from <= to <= Len(a)
    ensures |rows| == to - from
    decreases a, 1
  {
    seq(to - from, j requires 0 <= j < to - from => DecodeAt(a, from + j))
  }

  // Column-wise append

  function AppendNulls(a: Nulls, la: nat, b: Nulls, lb: nat): Nulls {
    if a.None? && b.None? then None
    else Some((if a.Some? then a.value else seq(la, _ => true)) + (if b.Some? then b.value else seq(lb, _ => true)))
  }

  function AppendOffsets(a: seq<int>, b: seq<int>): seq<int>
    requires a != [] && b != []
  {
    a + seq(|b| - 1, i requires 0 <= i < |b| - 1 => a[|a| - 1] + b[i + 1])
  }

  /** Arrays of one type put end to end, column by column. */
  function Append(a: Arr, b: Arr): Arr
    requires WellFormed(a) && WellFormed(b)
  {
    match (a, b)
    case (FlatArr(ty, x), FlatArr(_, y)) => FlatArr(ty, x + y)
    case (ListArr(field, x, c, m), ListArr(_, y, d, n)) =>
      ListArr(field, AppendOffsets(x, y), Append(c, d), AppendNulls(m, |x| - 1, n, |y| - 1))
    case (MapArr(field, x, c, m), MapArr(_, y, d, n)) =>
      MapArr(field, AppendOffsets(x, y), Append(c, d), AppendNulls(m, |x| - 1, n, |y| - 1))
    case (StructArr(fields, x, m), StructArr(_, y, n)) =>
      if |x| != |y| then a else
        StructArr(fields,
                  seq(|x|, k requires 0 <= k < |x| => Append(x[k], y[k])),
                  AppendNulls(m, Len(a), n, Len(b)))
    case _ => a
  }
}
