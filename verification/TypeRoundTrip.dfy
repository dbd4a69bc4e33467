/** Printing a type and parsing it back (`sql_name` against `parse_type`).

    Printed text has nothing to trim and no nullability to strip; it comes apart
    into its word and what its brackets hold, which splits into exactly the
    printed parts, and each of those reads back. */
module TypeRoundTrip {
  import opened Wrappers
  import opened Numerals
  import opened Chars
  import opened DorisTypes
  import opened Scanners
  import opened TypeParser
  import opened TypeWalks
  import opened PrintedTypes

  // One level of parse_type

  predicate AllBenign(s: string) {
    forall i | 0 <= i < |s| :: Benign(s[i])
  }

  lemma NoSuffix(s: string, suffix: string)
    requires AllBenign(s) && suffix != "" && suffix[0] == ' '
    ensures !EndsWith(Upper(s), suffix)
  {
    if |suffix| <= |s| {
      var i := |s| - |suffix|;
      assert Upper(s)[i..][0] == Upper(s)[i] && Benign(s[i]);
    }
  }

  lemma StripNothing(s: string)
    requires AllBenign(s)
    ensures StripNullability(s) == s
  {
    NoSuffix(s, " NOT NULL");
    NoSuffix(s, " NULL");
  }

  lemma IndexAfterWord(word: string, rest: string, c: char)
    requires AllIdent(word) && !IsIdent(c) && rest != "" && rest[0] == c
    ensures IndexOf(word + rest, c) == |word|
  {
    var s := word + rest;
    var k := IndexOf(s, c);
    assert s[|word|] == c && s[..|word|] == word;
    assert forall j | 0 <= j < k :: s[..k][j] == s[j] != c;
  }

  lemma TakeWord(word: string)
    requires GoodWord(word)
    ensures TakeApart(word) == ScalarText(word, [])
  {
    WordFacts(word);
    TidyTrims(word);
    StripNothing(word);
  }

  predicate Brackets(open: char, close: char) {
    (open == '(' && close == ')') || (open == '<' && close == '>')
  }

  lemma BracketedText(t: string, word: string, open: char, inner: string, close: char)
    requires GoodWord(word) && AllBenign(inner) && Brackets(open, close)
    requires t == word + ([open] + inner + [close])
    ensures AllBenign(t) && t != "" && t[|t| - 1] == close
    ensures t[..|word|] == word && t[|word| + 1..|t| - 1] == inner
  {
    WordFacts(word);
  }

  /** A word and a bracketed part, as one text that nothing trims or cuts. */
  lemma WrappedText(t: string, word: string, open: char, inner: string, close: char)
    requires GoodWord(word) && AllBenign(inner) && Brackets(open, close)
    requires t == word + ([open] + inner + [close])
    ensures t != "" && t[|t| - 1] == close && Trim(t) == t && StripNullability(t) == t
    ensures IndexOf(t, open) == |word| && t[..|word|] == word && t[|word| + 1..|t| - 1] == inner
  {
    BracketedText(t, word, open, inner, close);
    WordFacts(word);
    TidyTrims(t);
    StripNothing(t);
    IndexAfterWord(word, [open] + inner + [close], open);
  }

  lemma TrimWord(word: string)
    requires GoodWord(word)
    ensures Trim(word) == word && Upper(word) == word
    ensures IndexOf(word, '<') == |word|
  {
    WordFacts(word);
    TidyTrims(word);
  }

  lemma SplitArgsText(t: string, word: string, inner: string)
    requires GoodWord(word) && AllBenign(inner) && Tidy(inner) && t == word + (['('] + inner + [')'])
    ensures StripNullability(Trim(t)) == t != ""
    ensures SplitArgs(t) == (word, TrimAll(TopLevelPieces(inner)))
  {
    WrappedText(t, word, '(', inner, ')');
    TrimWord(word);
    TidyTrims(inner);
  }

  lemma TakeArgs(word: string, inner: string)
    requires GoodWord(word) && AllBenign(inner) && Tidy(inner)
    ensures TakeApart(word + (['('] + inner + [')'])) == ScalarText(word, TrimAll(TopLevelPieces(inner)))
  {
    SplitArgsText(word + (['('] + inner + [')']), word, inner);
    TrimWord(word);
  }

  lemma SplitOpened(t: string, word: string, inner: string)
    requires IndexOf(t, '<') == |word| < |t| - 1 && t[..|word|] == word && t[|word| + 1..|t| - 1] == inner
    requires Trim(word) == word == Upper(word)
    ensures SplitBase(t, []) == ContainerText(word, Trim(inner))
  {
  }

  lemma TakeBrackets(word: string, inner: string)
    requires GoodWord(word) && AllBenign(inner) && Tidy(inner)
    ensures TakeApart(word + (['<'] + inner + ['>'])) == ContainerText(word, inner)
  {
    var t := word + (['<'] + inner + ['>']);
    WrappedText(t, word, '<', inner, '>');
    TrimWord(word);
    TidyTrims(inner);
    SplitOpened(t, word, inner);
  }

  // split_top_level returns the printed parts

  lemma PiecesOne(a: string)
    requires Level(a, Flat)
    ensures TopLevelPieces(a) == [a]
  {
    PiecesSkip(a, "", 0, "");
    assert a + "" == a && "" + a == a;
  }

  lemma PiecesCons(a: string, rest: string)
    requires Level(a, Flat)
    ensures TopLevelPieces(a + "," + rest) == [a] + TopLevelPieces(rest)
  {
    PiecesSkip(a, "," + rest, 0, "");
    assert a + ("," + rest) == a + "," + rest && "" + a == a;
    assert ("," + rest)[1..] == rest;
  }

  function FieldTexts(fields: seq<Field>): (texts: seq<string>)
    ensures |texts| == |fields|
  {
    seq(|fields|, i requires 0 <= i < |fields| => SqlField(fields[i]))
  }

  lemma {:induction false} PiecesOfFields(fields: seq<Field>)
    requires fields != []
    requires forall f | f in fields :: BareName(f.name) && Bare(f.ty) && IsGeneratable(f.ty)
    ensures TopLevelPieces(SqlFields(fields)) == FieldTexts(fields)
  {
    FieldLevel(fields[0], Flat);
    if |fields| == 1 {
      PiecesOne(SqlField(fields[0]));
    } else {
      PiecesOfFields(fields[1..]);
      PiecesCons(SqlField(fields[0]), SqlFields(fields[1..]));
      assert FieldTexts(fields) == [SqlField(fields[0])] + FieldTexts(fields[1..]);
    }
  }

  // Leaves

  lemma NumeralPieces(n: nat)
    ensures AllBenign(Numeral(n)) && Tidy(Numeral(n)) && Level(Numeral(n), Flat)
    ensures TrimAll(TopLevelPieces(Numeral(n))) == [Numeral(n)]
  {
    WalkIdent(Numeral(n), 0, Flat);
    PiecesOne(Numeral(n));
    TidyTrims(Numeral(n));
  }

  lemma PairPieces(p: nat, s: nat)
    ensures TrimAll(TopLevelPieces(Numeral(p) + "," + Numeral(s))) == [Numeral(p), Numeral(s)]
  {
    NumeralPieces(p);
    NumeralPieces(s);
    PiecesCons(Numeral(p), Numeral(s));
    PiecesOne(Numeral(s));
    TidyTrims(Numeral(p));
    TidyTrims(Numeral(s));
  }

  lemma NumericScalars()
    ensures ParseScalar("BOOLEAN", []) == Ok(Boolean)
    ensures ParseScalar("TINYINT", []) == Ok(TinyInt)
    ensures ParseScalar("SMALLINT", []) == Ok(SmallInt)
    ensures ParseScalar("INT", []) == Ok(Int)
  {
  }

  lemma WideScalars()
    ensures ParseScalar("BIGINT", []) == Ok(BigInt)
    ensures ParseScalar("LARGEINT", []) == Ok(LargeInt)
    ensures ParseScalar("FLOAT", []) == Ok(Float)
    ensures ParseScalar("DOUBLE", []) == Ok(Double)
    ensures ParseScalar("DATE", []) == Ok(Date)
  {
  }

  lemma TextScalars()
    ensures ParseScalar("STRING", []) == Ok(String)
    ensures ParseScalar("JSON", []) == Ok(Json)
    ensures ParseScalar("VARIANT", []) == Ok(Variant)
  {
  }

  lemma AddressScalars()
    ensures ParseScalar("IPV4", []) == Ok(Ipv4)
    ensures ParseScalar("IPV6", []) == Ok(Ipv6)
  {
  }

  lemma SketchScalars()
    ensures ParseScalar("BITMAP", []) == Ok(Bitmap)
    ensures ParseScalar("HLL", []) == Ok(Hll)
    ensures ParseScalar("QUANTILE_STATE", []) == Ok(QuantileState)
  {
  }

  lemma NumberArgScalars(args: seq<string>)
    ensures ParseScalar("DECIMAL", args) == ParseDecimal(args, 9, 0)
    ensures ParseScalar("DATETIME", args) == ParseDateTime(args)
  {
  }

  lemma TextArgScalars(args: seq<string>)
    ensures ParseScalar("CHAR", args) == ParseChar(args)
    ensures ParseScalar("VARCHAR", args) == ParseVarchar(args)
  {
  }

  lemma DecimalArgs(precision: u8, scale: u8)
    requires Sound(Decimal(precision, scale))
    ensures ParseDecimal([Numeral(precision), Numeral(scale)], 9, 0) == Ok(Decimal(precision, scale))
  {
    ParseNumeral(precision, U32_MAX);
    ParseNumeral(scale, U32_MAX);
  }

  lemma DecimalRoundTrip(precision: u8, scale: u8)
    requires Sound(Decimal(precision, scale))
    ensures ParseType(SqlName(Decimal(precision, scale))) == Ok(Decimal(precision, scale))
  {
    var ty := Decimal(precision, scale);
    SqlWordFacts(ty);
    NumeralPieces(precision);
    NumeralPieces(scale);
    PairPieces(precision, scale);
    TakeArgs(SqlWord(ty), SqlInner(ty));
    DecimalArgs(precision, scale);
    NumberArgScalars([Numeral(precision), Numeral(scale)]);
  }

  lemma OneArgRoundTrip(ty: DorisType, n: u32)
    requires Sound(ty) && HasArgs(ty) && !ty.Decimal? && n == if ty.DateTime? then ty.places else ty.len
    ensures ParseType(SqlName(ty)) == Ok(ty)
  {
    SqlWordFacts(ty);
    NumeralPieces(n);
    TakeArgs(SqlWord(ty), SqlInner(ty));
    ParseNumeral(n, U32_MAX);
    NumberArgScalars([Numeral(n)]);
    TextArgScalars([Numeral(n)]);
    assert IsDigit(Numeral(n)[0]);
  }

  lemma PlainScalar(ty: DorisType)
    requires !HasArgs(ty) && !IsNested(ty) && !ty.AggState?
    ensures ParseScalar(SqlWord(ty), []) == Ok(ty)
  {
    NumericScalars();
    WideScalars();
    TextScalars();
    AddressScalars();
    SketchScalars();
  }

  lemma ScalarReads(text: string, name: string, args: seq<string>)
    requires TakeApart(text) == ScalarText(name, args)
    ensures ParseType(text) == ParseScalar(name, args)
  {
  }

  lemma ContainerReads(text: string, name: string, inner: string)
    requires TakeApart(text) == ContainerText(name, inner)
    ensures ParseType(text) == ParseContainer(name, inner)
  {
  }

  lemma PlainRoundTrip(ty: DorisType)
    requires !HasArgs(ty) && !IsNested(ty) && !ty.AggState?
    ensures ParseType(SqlName(ty)) == Ok(ty)
  {
    SqlWordFacts(ty);
    TakeWord(SqlWord(ty));
    ScalarReads(SqlWord(ty), SqlWord(ty), []);
    PlainScalar(ty);
  }

  // STRUCT fields

  lemma {:induction false} IdentEndOf(name: string, rest: string)
    requires AllIdent(name) && rest != "" && !IsIdent(rest[0])
    ensures IdentEnd(name + rest) == |name|
  {
    if name == "" {
      assert name + rest == rest;
    } else {
      assert (name + rest)[1..] == name[1..] + rest;
      IdentEndOf(name[1..], rest);
    }
  }

  lemma FieldReads(field: Field)
    requires BareName(field.name) && Bare(field.ty) && IsGeneratable(field.ty)
    ensures Trim(SqlField(field)) == SqlField(field) != ""
    ensures ReadIdent(SqlField(field)) == Some(Ident(field.name, |field.name|))
    ensures FieldTypeText(SqlField(field)[|field.name|..]) == SqlName(field.ty)
  {
    FieldTidy(field);
    TidyTrims(SqlField(field));
    PrintedTidy(field.ty);
    NoKeywordInPrinted(field.ty);
    NameThenType(field.name, SqlName(field.ty));
  }

  lemma NameThenType(name: string, printed: string)
    requires BareName(name) && Tidy(printed) && printed[0] != ':'
    requires BeforeKeyword(printed, COMMENT_KEYWORD) == printed
    ensures ReadIdent(name + ":" + printed) == Some(Ident(name, |name|))
    ensures FieldTypeText((name + ":" + printed)[|name|..]) == printed
  {
    var text, after := name + ":" + printed, ":" + printed;
    assert text == name + after;
    IdentEndOf(name, after);
    assert text[..|name|] == name && text[|name|..] == after;
    assert DropColons(after) == printed by {
      assert after[1..] == printed;
    }
    TidyTrims(printed);
  }

  predicate ReadsBack(field: Field) {
    BareName(field.name) && Printable(field.ty) && ParseType(SqlName(field.ty)) == Ok(field.ty)
  }

  predicate AllReadBack(fields: seq<Field>) {
    forall f | f in fields :: ReadsBack(f)
  }

  lemma NotYetDeclared(fields: seq<Field>, i: nat)
    requires i < |fields| && DistinctNames(fields)
    ensures !Declares(fields[..i], fields[i].name)
  {
  }

  lemma NextText(fields: seq<Field>, i: nat)
    requires i < |fields|
    ensures FieldTexts(fields)[i..] != [] && FieldTexts(fields)[i..][0] == SqlField(fields[i])
    ensures FieldTexts(fields)[i..][1..] == FieldTexts(fields)[i + 1..]
    ensures fields[..i] + [fields[i]] == fields[..i + 1]
  {
  }

  lemma ReadOneField(texts: seq<string>, bound: nat, before: seq<Field>, part: string, id: Ident, ty: DorisType)
    requires NoLongerThan(texts, bound) && texts != [] && part == Trim(texts[0]) != ""
    requires ReadIdent(part) == Some(id) && !Declares(before, id.name)
    requires ParseType(FieldTypeText(part[id.used..])) == Ok(ty)
    ensures NoLongerThan(texts[1..], bound)
    ensures ParseFields(texts, bound, before) == ParseFields(texts[1..], bound, before + [Field(id.name, ty)])
  {
  }

  lemma FieldStep(texts: seq<string>, bound: nat, before: seq<Field>, field: Field)
    requires texts != [] && texts[0] == SqlField(field) && NoLongerThan(texts, bound)
    requires !Declares(before, field.name) && ReadsBack(field)
    ensures NoLongerThan(texts[1..], bound)
    ensures ParseFields(texts, bound, before) == ParseFields(texts[1..], bound, before + [field])
  {
    FieldReads(field);
    ReadOneField(texts, bound, before, SqlField(field), Ident(field.name, |field.name|), field.ty);
    assert Field(field.name, field.ty) == field;
  }

  /** Reading back the printed fields from `i` on, the earlier ones already read. */
  lemma {:induction false} FieldsRoundTrip(fields: seq<Field>, i: nat, bound: nat)
    requires i <= |fields| && DistinctNames(fields)
    requires AllReadBack(fields)
    requires NoLongerThan(FieldTexts(fields)[i..], bound)
    ensures ParseFields(FieldTexts(fields)[i..], bound, fields[..i]) == Ok(fields)
    decreases |fields| - i
  {
    var texts := FieldTexts(fields)[i..];
    if i < |fields| {
      NotYetDeclared(fields, i);
      NextText(fields, i);
      assert ReadsBack(fields[i]) by {
        assert fields[i] in fields;
      }
      FieldStep(texts, bound, fields[..i], fields[i]);
      FieldsRoundTrip(fields, i + 1, bound);
    } else {
      assert texts == [] && fields[..i] == fields;
    }
  }

  // The theorem

  lemma InnerText(ty: DorisType)
    requires IsNested(ty) && Printable(ty)
    ensures AllBenign(SqlInner(ty)) && Tidy(SqlInner(ty))
  {
    InnerLevel(ty, Both);
    WalkBenign(SqlInner(ty), 0, Both);
    match ty
    case Array(element) => PrintedTidy(element);
    case Map(key, item) =>
      PrintedTidy(key);
      PrintedTidy(item);
    case Struct(fields) => FieldsTidy(fields);
  }

  lemma NestedReads(ty: DorisType)
    requires IsNested(ty) && Printable(ty)
    ensures ParseType(SqlName(ty)) == ParseContainer(SqlWord(ty), SqlInner(ty))
  {
    SqlWordFacts(ty);
    InnerText(ty);
    TakeBrackets(SqlWord(ty), SqlInner(ty));
    ContainerReads(SqlName(ty), SqlWord(ty), SqlInner(ty));
  }

  lemma StructRoundTrip(fields: seq<Field>)
    requires Printable(Struct(fields)) && AllReadBack(fields)
    ensures ParseStruct(SqlFields(fields)) == Ok(Struct(fields))
  {
    var inner := SqlFields(fields);
    PiecesOf(inner);
    PiecesOfFields(fields);
    assert FieldTexts(fields)[0..] == FieldTexts(fields) && fields[..0] == [];
    FieldsRoundTrip(fields, 0, |inner|);
  }

  lemma ParseMapOf(inner: string, a: string, b: string, key: DorisType, item: DorisType)
    requires TopLevelPieces(inner) == [a, b] && ParseType(a) == Ok(key) && ParseType(b) == Ok(item)
    ensures ParseMap(inner) == Ok(Map(key, item))
  {
    PiecesOf(inner);
  }

  lemma PiecesTwo(a: string, b: string)
    requires Level(a, Flat) && Level(b, Flat)
    ensures TopLevelPieces(a + "," + b) == [a, b]
  {
    PiecesCons(a, b);
    PiecesOne(b);
  }

  lemma MapRoundTrip(key: DorisType, item: DorisType)
    requires Printable(key) && Printable(item)
    requires ParseType(SqlName(key)) == Ok(key) && ParseType(SqlName(item)) == Ok(item)
    ensures ParseMap(SqlName(key) + "," + SqlName(item)) == Ok(Map(key, item))
  {
    var a, b := SqlName(key), SqlName(item);
    PrintedLevel(key, Flat);
    PrintedLevel(item, Flat);
    PiecesTwo(a, b);
    ParseMapOf(a + "," + b, a, b, key, item);
  }

  /** Parsing a printed type gives the type back. */
  lemma {:induction false} PrintRoundTrip(ty: DorisType)
    requires Printable(ty)
    ensures ParseType(SqlName(ty)) == Ok(ty)
  {
    if ty.Decimal? {
      DecimalRoundTrip(ty.precision, ty.scale);
    } else if HasArgs(ty) {
      OneArgRoundTrip(ty, if ty.DateTime? then ty.places else ty.len);
    } else if ty.Array? {
      NestedReads(ty);
      PrintRoundTrip(ty.element);
    } else if ty.Map? {
      NestedReads(ty);
      PrintRoundTrip(ty.key);
      PrintRoundTrip(ty.item);
      MapRoundTrip(ty.key, ty.item);
    } else if ty.Struct? {
      NestedReads(ty);
      forall f | f in ty.fields ensures ReadsBack(f) {
        PrintRoundTrip(f.ty);
      }
      StructRoundTrip(ty.fields);
    } else {
      PlainRoundTrip(ty);
    }
  }
}
