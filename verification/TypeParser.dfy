/** `parse_type` and `parse_container`: Doris type text to `DorisType`. */
module TypeParser {
  import opened Wrappers
  import opened Numerals
  import opened Chars
  import opened DorisTypes
  import opened Scanners

  datatype ParseError =
    | MissingType
    | BadArgument
    | PrecisionOutOfRange
    | ScaleExceedsPrecision
    | PlacesOutOfRange
    | Unsupported
    | MapArity
    | NoFieldName
    | FieldTwice
    | NoFields
    | SliceOutOfRange // where the source panics: an opening `<` ends the text

  // read_ident

  function IdentEnd(s: string): (k: nat)
    ensures k <= |s|
    ensures AllIdent(s[..k])
  {
    if s != "" && IsIdent(s[0]) then
      var k := 1 + IdentEnd(s[1..]);
      assert s[..k] == [s[0]] + s[1..][..k - 1];
      k
    else 0
  }

  /** The first index of `c`, or the length of the text. */
  function IndexOf(s: string, c: char): (k: nat)
    ensures k <= |s|
    ensures k < |s| ==> s[k] == c
    ensures c !in s[..k]
  {
    if s == "" || s[0] == c then 0 else
      var k := 1 + IndexOf(s[1..], c);
      assert s[..k] == [s[0]] + s[1..][..k - 1];
      k
  }

  /** A name at the start of the text and the characters it takes. */
  datatype Ident = Ident(name: string, used: nat)

  function ReadIdent(input: string): (r: Option<Ident>)
    ensures r.Some? ==> 0 < r.value.used <= |input|
  {
    if input != "" && input[0] == '`' then
      var end := 1 + IndexOf(input[1..], '`');
      if end < |input| then Some(Ident(input[1..end], end + 1)) else None
    else
      var end := IdentEnd(input);
      if end == 0 then None else Some(Ident(input[..end], end))
  }

  // strip_nullability

  predicate EndsWith(s: string, suffix: string) {
    |suffix| <= |s| && s[|s| - |suffix|..] == suffix
  }

  function StripNullability(text: string): (r: string)
    ensures |r| <= |text|
  {
    if EndsWith(Upper(text), " NOT NULL") then TrimEnd(text[..|text| - 9])
    else if EndsWith(Upper(text), " NULL") then TrimEnd(text[..|text| - 5])
    else text
  }

  // parse_type

  function Arg(args: seq<string>, i: nat, fallback: u32): Result<u32, ParseError> {
    if i >= |args| then Ok(fallback) else
      match ParseUnsigned(args[i], U32_MAX)
      case Some(n) => Ok(n)
      case None => Err(BadArgument)
  }

  function ParseDecimal(args: seq<string>, precision: u32, scale: u32): Result<DorisType, ParseError> {
    var p :- Arg(args, 0, precision);
    var s :- Arg(args, 1, scale);
    if p == 0 || p > DECIMAL256_MAX_PRECISION then Err(PrecisionOutOfRange)
    else if s > p then Err(ScaleExceedsPrecision)
    else Ok(Decimal(p, s))
  }

  function ParseDateTime(args: seq<string>): Result<DorisType, ParseError> {
    var places :- Arg(args, 0, 0);
    if places > 6 then Err(PlacesOutOfRange) else Ok(DateTime(places))
  }

  function ParseChar(args: seq<string>): Result<DorisType, ParseError> {
    var len :- Arg(args, 0, 1);
    Ok(Char(len))
  }

  function ParseVarchar(args: seq<string>): Result<DorisType, ParseError> {
    if args != [] && args[0] == "*" then Ok(Varchar(65533)) else
      var len :- Arg(args, 0, 65533);
      Ok(Varchar(len))
  }

  /** The types whose arguments, if any, are ignored. */
  function ParsePlain(name: string): Result<DorisType, ParseError> {
    if name == "BOOLEAN" || name == "BOOL" then Ok(Boolean)
    else if name == "TINYINT" then Ok(TinyInt)
    else if name == "SMALLINT" then Ok(SmallInt)
    else if name == "INT" || name == "INTEGER" then Ok(Int)
    else if name == "BIGINT" then Ok(BigInt)
    else if name == "LARGEINT" then Ok(LargeInt)
    else if name == "FLOAT" || name == "REAL" then Ok(Float)
    else if name == "DOUBLE" then Ok(Double)
    else if name == "DATE" || name == "DATEV2" || name == "DATEV1" then Ok(Date)
    else if name == "STRING" || name == "TEXT" then Ok(String)
    else if name == "JSON" || name == "JSONB" then Ok(Json)
    else if name == "VARIANT" then Ok(Variant)
    else if name == "IPV4" then Ok(Ipv4)
    else if name == "IPV6" then Ok(Ipv6)
    else if name == "BITMAP" then Ok(Bitmap)
    else if name == "HLL" then Ok(Hll)
    else if name == "QUANTILE_STATE" then Ok(QuantileState)
    else if name == "AGG_STATE" then Ok(AggState(""))
    else Err(Unsupported)
  }

  function ParseScalar(name: string, args: seq<string>): Result<DorisType, ParseError> {
    if name == "DECIMALV2" then ParseDecimal(args, 27, 9)
    else if name == "DECIMAL" || name == "DECIMALV3" || name == "NUMERIC" then ParseDecimal(args, 9, 0)
    else if name == "DATETIME" || name == "DATETIMEV2" || name == "DATETIMEV1" then ParseDateTime(args)
    else if name == "CHAR" then ParseChar(args)
    else if name == "VARCHAR" then ParseVarchar(args)
    else ParsePlain(name)
  }

  function TrimAll(pieces: seq<string>): (r: seq<string>)
    ensures |r| == |pieces|
  {
    seq(|pieces|, i requires 0 <= i < |pieces| => Trim(pieces[i]))
  }

  /** Type text in two: the part before a trailing parenthesised list, and the list. */
  function SplitArgs(t: string): (r: (string, seq<string>))
    requires t != ""
    ensures |r.0| <= |t|
  {
    var open := IndexOf(t, '(');
    if open < |t| && t[|t| - 1] == ')' then
      (Trim(t[..open]), TrimAll(TopLevelPieces(Trim(t[open + 1..|t| - 1]))))
    else (t, [])
  }

  /** Type text taken apart: a scalar name with its arguments, or a container
      name with what its brackets hold. */
  datatype TypeText =
    | NoText
    | ScalarText(name: string, args: seq<string>)
    | ContainerText(name: string, inner: string)
    | Unclosed

  function SplitBase(base: string, args: seq<string>): (r: TypeText)
    ensures r.ContainerText? ==> |r.inner| < |base|
  {
    var open := IndexOf(base, '<');
    if open == |base| then ScalarText(Upper(base), args)
    else if open + 1 == |base| then Unclosed
    else ContainerText(Upper(Trim(base[..open])), Trim(base[open + 1..|base| - 1]))
  }

  function TakeApart(text: string): (r: TypeText)
    ensures r.ContainerText? ==> |r.inner| < |text|
  {
    var t := StripNullability(Trim(text));
    if t == "" then NoText else SplitBase(SplitArgs(t).0, SplitArgs(t).1)
  }

  function ParseType(text: string): Result<DorisType, ParseError>
    decreases |text|, 1
  {
    match TakeApart(text)
    case NoText => Err(MissingType)
    case ScalarText(name, args) => ParseScalar(name, args)
    case ContainerText(name, inner) => ParseContainer(name, inner)
    case Unclosed => Err(SliceOutOfRange)
  }

  // parse_container

  function DropColons(s: string): (r: string)
    ensures |r| <= |s|
  {
    if s != "" && s[0] == ':' then DropColons(s[1..]) else s
  }

  const COMMENT_KEYWORD := "COMMENT"

  /** The type text of a STRUCT field, after its name. */
  function FieldTypeText(afterName: string): (r: string)
    ensures |r| <= |afterName|
  {
    BeforeKeyword(TrimStart(DropColons(TrimStart(afterName))), COMMENT_KEYWORD)
  }

  predicate Declares(fields: seq<Field>, name: string) {
    exists f | f in fields :: f.name == name
  }

  predicate NoLongerThan(pieces: seq<string>, bound: nat) {
    forall p | p in pieces :: |p| <= bound
  }

  /** The fields in `pieces`, added to those already read. */
  function ParseFields(pieces: seq<string>, bound: nat, fields: seq<Field>): Result<seq<Field>, ParseError>
    requires NoLongerThan(pieces, bound)
    decreases bound, 2, |pieces|
  {
    if pieces == [] then Ok(fields) else
      var part := Trim(pieces[0]);
      assert pieces[0] in pieces;
      if part == "" then ParseFields(pieces[1..], bound, fields) else
        match ReadIdent(part)
        case None => Err(NoFieldName)
        case Some(id) =>
          if Declares(fields, id.name) then Err(FieldTwice) else
            var ty :- ParseType(FieldTypeText(part[id.used..]));
            ParseFields(pieces[1..], bound, fields + [Field(id.name, ty)])
  }

  lemma PiecesOf(inner: string)
    ensures NoLongerThan(TopLevelPieces(inner), |inner|)
  {
    forall p | p in TopLevelPieces(inner) {
      PiecesFit(inner, 0, None, "", p);
    }
  }

  function ParseMap(inner: string): Result<DorisType, ParseError>
    decreases |inner|, 3
  {
    PiecesOf(inner);
    var parts := TopLevelPieces(inner);
    if |parts| != 2 then Err(MapArity) else
      assert parts[0] in parts && parts[1] in parts;
      var key :- ParseType(parts[0]);
      var item :- ParseType(parts[1]);
      Ok(Map(key, item))
  }

  function ParseStruct(inner: string): Result<DorisType, ParseError>
    decreases |inner|, 3
  {
    PiecesOf(inner);
    var fields :- ParseFields(TopLevelPieces(inner), |inner|, []);
    if fields == [] then Err(NoFields) else Ok(Struct(fields))
  }

  function ParseContainer(name: string, inner: string): Result<DorisType, ParseError>
    decreases |inner|, 4
  {
    if name == "ARRAY" then
      var element :- ParseType(inner);
      Ok(Array(element))
    else if name == "MAP" then ParseMap(inner)
    else if name == "STRUCT" then ParseStruct(inner)
    else if name == "AGG_STATE" then Ok(AggState(Trim(inner)))
    else Err(Unsupported)
  }

  /** The STRUCT arm of `parse_container` as the loop it is. */
  method CollectStructFields(inner: string) returns (r: Result<DorisType, ParseError>)
    ensures r == ParseStruct(inner)
  {
    PiecesOf(inner);
    var pieces := SplitTopLevel(inner);
    var fields: seq<Field> := [];
    for i := 0 to |pieces|
      invariant ParseFields(pieces, |inner|, []) == ParseFields(pieces[i..], |inner|, fields)
    {
      ghost var left := pieces[i..];
      assert left[0] == pieces[i] && left[1..] == pieces[i + 1..];
      var part := Trim(pieces[i]);
      if part == "" {
        continue;
      }
      var id := ReadIdent(part);
      if id.None? {
        return Err(NoFieldName);
      }
      var afterName := TrimStart(DropColons(TrimStart(part[id.value.used..])));
      var rest := CutAtTopLevelKeyword(afterName, COMMENT_KEYWORD);
      if Declares(fields, id.value.name) {
        return Err(FieldTwice);
      }
      var ty := ParseType(rest);
      if ty.Err? {
        return Err(ty.error);
      }
      fields := fields + [Field(id.value.name, ty.value)];
    }
    assert pieces[|pieces|..] == [];
    r := if fields == [] then Err(NoFields) else Ok(Struct(fields));
  }
}
