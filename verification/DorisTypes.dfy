/** Doris column types and their DDL spelling (`schema.rs`). */
module DorisTypes {
  import opened Numerals

  datatype DorisType =
    | Boolean
    | TinyInt
    | SmallInt
    | Int
    | BigInt
    | LargeInt
    | Float
    | Double
    | Decimal(precision: u8, scale: u8)
    | Date
    | DateTime(places: u8)
    | Char(len: u32)
    | Varchar(len: u32)
    | String
    | Json
    | Variant
    | Ipv4
    | Ipv6
    | Array(element: DorisType)
    | Map(key: DorisType, item: DorisType)
    | Struct(fields: seq<Field>)
    | Bitmap
    | Hll
    | QuantileState
    | AggState(signature: string)

  datatype Field = Field(name: string, ty: DorisType)

  datatype Column = Column(name: string, ty: DorisType, nullable: bool)

  predicate IsNested(ty: DorisType) {
    ty.Array? || ty.Map? || ty.Struct?
  }

  predicate DistinctNames(fields: seq<Field>) {
    forall i, j | 0 <= i < j < |fields| :: fields[i].name != fields[j].name
  }

  predicate IsGeneratable(ty: DorisType) {
    match ty
    case AggState(_) => false
    case Array(element) => IsGeneratable(element)
    case Map(key, item) => IsGeneratable(key) && IsGeneratable(item)
    case Struct(fields) => forall f | f in fields :: IsGeneratable(f.ty)
    case _ => true
  }

  function SqlWord(ty: DorisType): string {
    match ty
    case Boolean => "BOOLEAN"
    case TinyInt => "TINYINT"
    case SmallInt => "SMALLINT"
    case Int => "INT"
    case BigInt => "BIGINT"
    case LargeInt => "LARGEINT"
    case Float => "FLOAT"
    case Double => "DOUBLE"
    case Decimal(_, _) => "DECIMAL"
    case Date => "DATE"
    case DateTime(_) => "DATETIME"
    case Char(_) => "CHAR"
    case Varchar(_) => "VARCHAR"
    case String => "STRING"
    case Json => "JSON"
    case Variant => "VARIANT"
    case Ipv4 => "IPV4"
    case Ipv6 => "IPV6"
    case Array(_) => "ARRAY"
    case Map(_, _) => "MAP"
    case Struct(_) => "STRUCT"
    case Bitmap => "BITMAP"
    case Hll => "HLL"
    case QuantileState => "QUANTILE_STATE"
    case AggState(_) => "AGG_STATE"
  }

  predicate HasArgs(ty: DorisType) {
    ty.Decimal? || ty.DateTime? || ty.Char? || ty.Varchar?
  }

  /** What a type is spelled with between its brackets. */
  function SqlInner(ty: DorisType): string
    requires HasArgs(ty) || IsNested(ty) || ty.AggState?
    decreases ty, 0
  {
    match ty
    case Decimal(precision, scale) => Numeral(precision) + "," + Numeral(scale)
    case DateTime(places) => Numeral(places)
    case Char(len) => Numeral(len)
    case Varchar(len) => Numeral(len)
    case Array(element) => SqlName(element)
    case Map(key, item) => SqlName(key) + "," + SqlName(item)
    case Struct(fields) => SqlFields(fields)
    case AggState(signature) => signature
  }

  /** The type as written in Doris DDL. */
  function SqlName(ty: DorisType): string
    decreases ty, 1
  {
    if HasArgs(ty) then SqlWord(ty) + (['('] + SqlInner(ty) + [')'])
    else if IsNested(ty) || ty.AggState? then SqlWord(ty) + (['<'] + SqlInner(ty) + ['>'])
    else SqlWord(ty)
  }

  function SqlField(field: Field): string
    decreases field, 2
  {
    field.name + ":" + SqlName(field.ty)
  }

  /** The fields of a STRUCT joined with commas. */
  function SqlFields(fields: seq<Field>): string
    decreases fields, 0
  {
    if fields == [] then ""
    else if |fields| == 1 then SqlField(fields[0])
    else SqlField(fields[0]) + "," + SqlFields(fields[1..])
  }
}
