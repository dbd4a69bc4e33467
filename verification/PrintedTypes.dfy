/** What the text of a printed type looks like to the scanners. */
module PrintedTypes {
  import opened Wrappers
  import opened Numerals
  import opened Chars
  import opened DorisTypes
  import opened Scanners
  import opened TypeParser
  import opened TypeWalks

  // What makes a type printable

  /** What the parser guarantees of every type it returns. */
  predicate Sound(ty: DorisType) {
    match ty
    case Decimal(precision, scale) => 1 <= precision <= DECIMAL256_MAX_PRECISION && scale <= precision
    case DateTime(places) => places <= 6
    case Array(element) => Sound(element)
    case Map(key, item) => Sound(key) && Sound(item)
    case Struct(fields) =>
      fields != [] && DistinctNames(fields) && forall f | f in fields :: '`' !in f.name && Sound(f.ty)
    case _ => true
  }

  predicate BareName(name: string) {
    name != "" && AllIdent(name)
  }

  /** Every STRUCT field name, at any depth, is an identifier that needs no backticks. */
  predicate Bare(ty: DorisType) {
    match ty
    case Array(element) => Bare(element)
    case Map(key, item) => Bare(key) && Bare(item)
    case Struct(fields) => forall f | f in fields :: BareName(f.name) && Bare(f.ty)
    case _ => true
  }

  predicate Printable(ty: DorisType) {
    Sound(ty) && Bare(ty) && IsGeneratable(ty)
  }

  // The words types are spelled with

  predicate IsWordChar(c: char) {
    'A' <= c <= 'Z' || IsDigit(c) || c == '_'
  }

  predicate Word(s: string) {
    forall i | 0 <= i < |s| :: IsWordChar(s[i])
  }

  lemma WordFacts(s: string)
    requires Word(s)
    ensures AllIdent(s) && Upper(s) == s
  {
  }

  predicate GoodWord(s: string) {
    Word(s) && |s| >= 3 && !(s[0] == 'C' && s[1] == 'O') && !(s[|s| - 2] == 'O' && s[|s| - 1] == 'T')
  }

  lemma NumericWords()
    ensures GoodWord("BOOLEAN") && GoodWord("TINYINT") && GoodWord("SMALLINT") && GoodWord("INT")
    ensures GoodWord("BIGINT") && GoodWord("LARGEINT") && GoodWord("FLOAT") && GoodWord("DOUBLE")
    ensures GoodWord("DECIMAL") && GoodWord("DATE") && GoodWord("DATETIME") && GoodWord("CHAR")
    ensures GoodWord("VARCHAR")
  {
  }

  lemma OtherWords()
    ensures GoodWord("STRING") && GoodWord("JSON") && GoodWord("VARIANT") && GoodWord("IPV4")
    ensures GoodWord("IPV6") && GoodWord("ARRAY") && GoodWord("MAP") && GoodWord("STRUCT")
    ensures GoodWord("BITMAP") && GoodWord("HLL") && GoodWord("QUANTILE_STATE") && GoodWord("AGG_STATE")
  {
  }

  lemma SqlWordFacts(ty: DorisType)
    ensures GoodWord(SqlWord(ty))
    ensures AllIdent(SqlWord(ty)) && Upper(SqlWord(ty)) == SqlWord(ty)
  {
    NumericWords();
    OtherWords();
    WordFacts(SqlWord(ty));
  }

  predicate Bracketed(ty: DorisType) {
    HasArgs(ty) || IsNested(ty)
  }

  function Opening(ty: DorisType): char {
    if HasArgs(ty) then '(' else '<'
  }

  function Closing(ty: DorisType): char {
    if HasArgs(ty) then ')' else '>'
  }

  // Printed types are level

  lemma {:induction false} PrintedLevel(ty: DorisType, k: Kind)
    requires Bare(ty) && IsGeneratable(ty)
    ensures Level(SqlName(ty), k)
    decreases ty, 1
  {
    SqlWordFacts(ty);
    WalkIdent(SqlWord(ty), 0, k);
    if Bracketed(ty) {
      InnerLevel(ty, if k == Flat then Both else k);
      LevelBracketed(Opening(ty), SqlInner(ty), Closing(ty), k);
      LevelConcat(SqlWord(ty), [Opening(ty)] + SqlInner(ty) + [Closing(ty)], k);
    }
  }

  lemma {:induction false} InnerLevel(ty: DorisType, k: Kind)
    requires Bare(ty) && IsGeneratable(ty) && Bracketed(ty) && k != Flat
    ensures Level(SqlInner(ty), k)
    decreases ty, 0
  {
    WalkOne(',', 0, k);
    match ty
    case Decimal(precision, scale) =>
      WalkIdent(Numeral(precision), 0, k);
      WalkIdent(Numeral(scale), 0, k);
      LevelConcat(Numeral(precision), ",", k);
      LevelConcat(Numeral(precision) + ",", Numeral(scale), k);
    case DateTime(places) => WalkIdent(Numeral(places), 0, k);
    case Char(len) => WalkIdent(Numeral(len), 0, k);
    case Varchar(len) => WalkIdent(Numeral(len), 0, k);
    case Array(element) => PrintedLevel(element, k);
    case Map(key, item) =>
      PrintedLevel(key, k);
      PrintedLevel(item, k);
      LevelConcat(SqlName(key), ",", k);
      LevelConcat(SqlName(key) + ",", SqlName(item), k);
    case Struct(fields) => FieldsLevel(fields, k);
  }

  lemma {:induction false} FieldLevel(field: Field, k: Kind)
    requires BareName(field.name) && Bare(field.ty) && IsGeneratable(field.ty)
    ensures Level(SqlField(field), k)
    decreases field, 2
  {
    WalkIdent(field.name, 0, k);
    WalkOne(':', 0, k);
    PrintedLevel(field.ty, k);
    LevelConcat(field.name, ":", k);
    LevelConcat(field.name + ":", SqlName(field.ty), k);
  }

  lemma {:induction false} FieldsLevel(fields: seq<Field>, k: Kind)
    requires forall f | f in fields :: BareName(f.name) && Bare(f.ty) && IsGeneratable(f.ty)
    requires k != Flat
    ensures Level(SqlFields(fields), k)
    decreases fields, 0
  {
    if fields != [] {
      FieldLevel(fields[0], k);
      if |fields| > 1 {
        FieldsLevel(fields[1..], k);
        WalkOne(',', 0, k);
        LevelConcat(SqlField(fields[0]), ",", k);
        LevelConcat(SqlField(fields[0]) + ",", SqlFields(fields[1..]), k);
      }
    }
  }

  // Printed types have nothing to trim

  predicate Tidy(s: string) {
    s != "" && Benign(s[0]) && Benign(s[|s| - 1])
  }

  lemma TidyTrims(s: string)
    requires Tidy(s)
    ensures TrimStart(s) == s && TrimEnd(s) == s && Trim(s) == s
  {
  }

  lemma PrintedTidy(ty: DorisType)
    requires IsGeneratable(ty)
    ensures Tidy(SqlName(ty)) && IsIdent(SqlName(ty)[0])
  {
    SqlWordFacts(ty);
  }

  lemma FieldTidy(field: Field)
    requires BareName(field.name) && IsGeneratable(field.ty)
    ensures Tidy(SqlField(field)) && SqlField(field)[0] == field.name[0]
  {
    PrintedTidy(field.ty);
  }

  lemma {:induction false} FieldsTidy(fields: seq<Field>)
    requires fields != [] && forall f | f in fields :: BareName(f.name) && IsGeneratable(f.ty)
    ensures Tidy(SqlFields(fields))
  {
    FieldTidy(fields[0]);
    if |fields| > 1 {
      FieldsTidy(fields[1..]);
    }
  }

  // No keyword stands outside the brackets of a printed type

  lemma NoKeywordInPrinted(ty: DorisType)
    requires Bare(ty) && IsGeneratable(ty)
    ensures BeforeKeyword(SqlName(ty), COMMENT_KEYWORD) == SqlName(ty)
  {
    var s := SqlName(ty);
    PrintedLevel(ty, Both);
    WalkBenign(s, 0, Both);
    BlankedBenign(s);
    NoKeywordInUpper(ty, Upper(s));
  }

  lemma UpperConcat(a: string, b: string)
    ensures Upper(a + b) == Upper(a) + Upper(b)
  {
  }

  lemma NoKeywordInUpper(ty: DorisType, s: string)
    requires Bare(ty) && IsGeneratable(ty) && s == Upper(SqlName(ty))
    ensures KeywordIndex(s, 0, 0, COMMENT_KEYWORD) == None
  {
    SqlWordFacts(ty);
    if Bracketed(ty) {
      InnerLevel(ty, Both);
      NoKeywordInShape(SqlWord(ty), Opening(ty), SqlInner(ty), Closing(ty));
    } else {
      NoKeywordAfterWord(s, SqlWord(ty));
    }
  }

  lemma NoKeywordInShape(word: string, open: char, inner: string, close: char)
    requires GoodWord(word) && Level(inner, Both)
    requires (open == '(' && close == ')') || (open == '<' && close == '>')
    ensures KeywordIndex(Upper(word + ([open] + inner + [close])), 0, 0, COMMENT_KEYWORD) == None
  {
    var tail := [open] + inner + [close];
    var s := Upper(word + tail);
    WordFacts(word);
    UpperConcat(word, tail);
    UpperConcat([open] + inner, [close]);
    UpperConcat([open], inner);
    assert s == word + ([open] + Upper(inner) + [close]);
    NoKeywordAfterWord(s, word);
    WalkUpper(inner, 0, Both);
    NoKeywordInBrackets(s, |word|, Upper(inner), open, close, COMMENT_KEYWORD);
  }

  lemma NoKeywordAfterWord(s: string, word: string)
    requires GoodWord(word) && word <= s
    ensures KeywordIndex(s, 0, 0, COMMENT_KEYWORD) == KeywordIndex(s, |word|, 0, COMMENT_KEYWORD)
  {
    WordFacts(word);
    assert s[..|word|] == word;
    assert !StartsWith(s, 0, COMMENT_KEYWORD) by {
      assert s[0] == word[0] && s[1] == word[1];
    }
    KeywordSkipIdent(s, 1, |word|, COMMENT_KEYWORD);
  }

  lemma NoKeywordInBrackets(s: string, n: nat, inner: string, open: char, close: char, keyword: string)
    requires n <= |s| && s[n..] == [open] + inner + [close] && Level(inner, Both)
    requires (open == '(' && close == ')') || (open == '<' && close == '>')
    ensures KeywordIndex(s, n, 0, keyword) == None
  {
    var tail := s[n..];
    assert s[n] == tail[0] && s[|s| - 1] == tail[|tail| - 1];
    assert s[n + 1..|s| - 1] == inner;
    KeywordSkip(s, n + 1, |s| - 1, 0, keyword);
  }
}
