/** What every accepted type text guarantees, and exactly when printing the
    accepted type gives text that parses back to it.

    Names are what decides: a field name read from backticks can be anything,
    and the printed form does not put the backticks back. */
module TypeSoundness {
  import opened Wrappers
  import opened Numerals
  import opened Chars
  import opened DorisTypes
  import opened Scanners
  import opened TypeParser
  import opened TypeWalks
  import opened PrintedTypes
  import opened TypeRoundTrip
  import opened Literals

  // Accepted types are sound

  lemma PlainSound(name: string)
    requires ParsePlain(name).Ok?
    ensures Sound(ParsePlain(name).value) && !IsNested(ParsePlain(name).value)
  {
  }

  lemma ScalarSound(name: string, args: seq<string>)
    requires ParseScalar(name, args).Ok?
    ensures Sound(ParseScalar(name, args).value) && !IsNested(ParseScalar(name, args).value)
  {
    if ParseScalar(name, args) == ParsePlain(name) {
      PlainSound(name);
    }
  }

  predicate SoundFields(fields: seq<Field>) {
    DistinctNames(fields) && forall f | f in fields :: '`' !in f.name && Sound(f.ty)
  }

  lemma NameHasNoBacktick(input: string)
    requires ReadIdent(input).Some?
    ensures '`' !in ReadIdent(input).value.name
  {
    if input[0] == '`' {
      var end := IndexOf(input[1..], '`');
      assert input[1..end + 1] == input[1..][..end];
    }
  }

  lemma AddSoundField(fields: seq<Field>, name: string, ty: DorisType)
    requires SoundFields(fields) && !Declares(fields, name) && '`' !in name && Sound(ty)
    ensures SoundFields(fields + [Field(name, ty)])
  {
  }

  lemma {:induction false} FieldsSound(pieces: seq<string>, bound: nat, before: seq<Field>)
    requires NoLongerThan(pieces, bound) && SoundFields(before)
    requires ParseFields(pieces, bound, before).Ok?
    ensures SoundFields(ParseFields(pieces, bound, before).value)
    decreases bound, 2, |pieces|
  {
    if pieces != [] {
      var part := Trim(pieces[0]);
      assert pieces[0] in pieces;
      if part == "" {
        FieldsSound(pieces[1..], bound, before);
      } else {
        var id := ReadIdent(part).value;
        NameHasNoBacktick(part);
        ParsedIsSound(FieldTypeText(part[id.used..]));
        var ty := ParseType(FieldTypeText(part[id.used..])).value;
        AddSoundField(before, id.name, ty);
        FieldsSound(pieces[1..], bound, before + [Field(id.name, ty)]);
      }
    }
  }

  /** Every accepted type text yields valid precisions and scales, and STRUCTs
      with at least one field and no name twice, at every depth. */
  lemma {:induction false} ParsedIsSound(text: string)
    requires ParseType(text).Ok?
    ensures Sound(ParseType(text).value)
    decreases |text|, 1
  {
    var parts := TakeApart(text);
    if parts.ScalarText? {
      ScalarSound(parts.name, parts.args);
    } else if parts.ContainerText? {
      ContainerSound(parts.name, parts.inner);
    }
  }

  lemma {:induction false} ContainerSound(name: string, inner: string)
    requires ParseContainer(name, inner).Ok?
    ensures Sound(ParseContainer(name, inner).value)
    decreases |inner|, 4
  {
    PiecesOf(inner);
    var parts := TopLevelPieces(inner);
    if name == "ARRAY" {
      ParsedIsSound(inner);
    } else if name == "MAP" {
      assert parts[0] in parts && parts[1] in parts;
      ParsedIsSound(parts[0]);
      ParsedIsSound(parts[1]);
    } else if name == "STRUCT" {
      FieldsSound(parts, |inner|, []);
    }
  }

  // Text without backticks

  predicate Lacks(s: string, c: char) {
    c !in s
  }

  lemma {:induction false} TrimLacks(s: string, c: char)
    requires Lacks(s, c)
    ensures Lacks(TrimStart(s), c) && Lacks(TrimEnd(s), c)
  {
    if s != "" {
      TrimLacks(s[1..], c);
      TrimLacks(s[..|s| - 1], c);
    }
  }

  lemma {:induction false} DropColonsLacks(s: string, c: char)
    requires Lacks(s, c)
    ensures Lacks(DropColons(s), c)
  {
    if s != "" {
      DropColonsLacks(s[1..], c);
    }
  }

  lemma {:induction false} PieceLacks(s: string, depth: nat, quote: Quote, current: string, piece: string, c: char)
    requires Lacks(s, c) && Lacks(current, c) && piece in Pieces(s, depth, quote, current)
    ensures Lacks(piece, c)
    decreases |s|
  {
    if s != "" {
      var longer := current + [s[0]];
      if quote.Some? {
        PieceLacks(s[1..], depth, if s[0] == quote.value then None else quote, longer, piece, c);
      } else if IsQuote(s[0]) {
        PieceLacks(s[1..], depth, Some(s[0]), longer, piece, c);
      } else if s[0] == ',' && depth == 0 {
        if piece != current {
          PieceLacks(s[1..], 0, None, "", piece, c);
        }
      } else {
        PieceLacks(s[1..], NextDepth(s[0], depth), None, longer, piece, c);
      }
    }
  }

  lemma FieldTypeTextLacks(afterName: string, c: char)
    requires Lacks(afterName, c)
    ensures Lacks(FieldTypeText(afterName), c)
  {
    var colons := TrimStart(afterName);
    var typed := TrimStart(DropColons(colons));
    TrimLacks(afterName, c);
    DropColonsLacks(colons, c);
    TrimLacks(DropColons(colons), c);
    BeforeKeywordLacks(typed, COMMENT_KEYWORD, c);
  }

  lemma BeforeKeywordLacks(text: string, keyword: string, c: char)
    requires Lacks(text, c)
    ensures Lacks(BeforeKeyword(text, keyword), c)
  {
    var at := KeywordIndex(Upper(Blanked(text, None, false)), 0, 0, keyword);
    if at.Some? {
      TrimLacks(text[..at.value], c);
    }
  }

  lemma InnerLacks(text: string, c: char)
    requires Lacks(text, c) && TakeApart(text).ContainerText?
    ensures Lacks(TakeApart(text).inner, c)
  {
    TrimsLack(text, c);
    StripLacks(Trim(text), c);
    var t := StripNullability(Trim(text));
    BaseLacks(t, c);
    SplitLacks(SplitArgs(t).0, SplitArgs(t).1, c);
  }

  lemma TrimsLack(s: string, c: char)
    requires Lacks(s, c)
    ensures Lacks(Trim(s), c)
  {
    TrimLacks(s, c);
    TrimLacks(TrimStart(s), c);
  }

  lemma BaseLacks(t: string, c: char)
    requires t != "" && Lacks(t, c)
    ensures Lacks(SplitArgs(t).0, c)
  {
    TrimsLack(t[..IndexOf(t, '(')], c);
  }

  lemma SplitLacks(base: string, args: seq<string>, c: char)
    requires Lacks(base, c) && SplitBase(base, args).ContainerText?
    ensures Lacks(SplitBase(base, args).inner, c)
  {
    var bracket := IndexOf(base, '<');
    TrimsLack(base[bracket + 1..|base| - 1], c);
  }

  lemma StripLacks(text: string, c: char)
    requires Lacks(text, c)
    ensures Lacks(StripNullability(text), c)
  {
    forall k | 0 <= k <= |text| ensures Lacks(TrimEnd(text[..k]), c) {
      TrimLacks(text[..k], c);
    }
  }

  predicate BareFields(fields: seq<Field>) {
    forall f | f in fields :: BareName(f.name) && Bare(f.ty)
  }

  lemma {:induction false} FieldsBare(pieces: seq<string>, bound: nat, before: seq<Field>)
    requires NoLongerThan(pieces, bound) && BareFields(before)
    requires forall p | p in pieces :: Lacks(p, '`')
    requires ParseFields(pieces, bound, before).Ok?
    ensures BareFields(ParseFields(pieces, bound, before).value)
    decreases bound, 2, |pieces|
  {
    if pieces != [] {
      var part := Trim(pieces[0]);
      assert pieces[0] in pieces;
      TrimLacks(pieces[0], '`');
      TrimLacks(TrimStart(pieces[0]), '`');
      if part == "" {
        FieldsBare(pieces[1..], bound, before);
      } else {
        var id := ReadIdent(part).value;
        assert BareName(id.name);
        FieldTypeTextLacks(part[id.used..], '`');
        ParsedIsBare(FieldTypeText(part[id.used..]));
        var ty := ParseType(FieldTypeText(part[id.used..])).value;
        FieldsBare(pieces[1..], bound, before + [Field(id.name, ty)]);
      }
    }
  }

  /** Type text without a backtick yields bare field names only. */
  lemma {:induction false} ParsedIsBare(text: string)
    requires Lacks(text, '`') && ParseType(text).Ok?
    ensures Bare(ParseType(text).value)
    decreases |text|, 1
  {
    var parts := TakeApart(text);
    if parts.ScalarText? {
      ScalarSound(parts.name, parts.args);
    } else if parts.ContainerText? {
      InnerLacks(text, '`');
      ContainerBare(parts.name, parts.inner);
    }
  }

  lemma {:induction false} ContainerBare(name: string, inner: string)
    requires Lacks(inner, '`') && ParseContainer(name, inner).Ok?
    ensures Bare(ParseContainer(name, inner).value)
    decreases |inner|, 4
  {
    PiecesOf(inner);
    var parts := TopLevelPieces(inner);
    forall p | p in parts ensures Lacks(p, '`') {
      PieceLacks(inner, 0, None, "", p, '`');
    }
    if name == "ARRAY" {
      ParsedIsBare(inner);
    } else if name == "MAP" {
      assert parts[0] in parts && parts[1] in parts;
      ParsedIsBare(parts[0]);
      ParsedIsBare(parts[1]);
    } else if name == "STRUCT" {
      FieldsBare(parts, |inner|, []);
    }
  }

  // Printed types hold no backtick

  lemma {:induction false} PrintedLacks(ty: DorisType)
    requires Sound(ty) && IsGeneratable(ty)
    ensures Lacks(SqlName(ty), '`')
    decreases ty, 1
  {
    SqlWordFacts(ty);
    if Bracketed(ty) {
      InnerPrintedLacks(ty);
    }
  }

  lemma {:induction false} InnerPrintedLacks(ty: DorisType)
    requires Sound(ty) && IsGeneratable(ty) && Bracketed(ty)
    ensures Lacks(SqlInner(ty), '`')
    decreases ty, 0
  {
    match ty
    case Decimal(precision, scale) => assert AllDigits(Numeral(precision)) && AllDigits(Numeral(scale));
    case DateTime(places) => assert AllDigits(Numeral(places));
    case Char(len) => assert AllDigits(Numeral(len));
    case Varchar(len) => assert AllDigits(Numeral(len));
    case Array(element) => PrintedLacks(element);
    case Map(key, item) =>
      PrintedLacks(key);
      PrintedLacks(item);
    case Struct(fields) => FieldsPrintedLacks(fields);
  }

  lemma {:induction false} FieldsPrintedLacks(fields: seq<Field>)
    requires forall f | f in fields :: '`' !in f.name && Sound(f.ty) && IsGeneratable(f.ty)
    ensures Lacks(SqlFields(fields), '`')
    decreases fields, 0
  {
    if fields != [] {
      PrintedLacks(fields[0].ty);
      if |fields| > 1 {
        FieldsPrintedLacks(fields[1..]);
      }
    }
  }

  /** The printed form of an accepted type parses back to it exactly when no
      field name at any depth needed its backticks. */
  lemma ReprintParses(text: string, ty: DorisType)
    requires ParseType(text) == Ok(ty) && IsGeneratable(ty)
    ensures ParseType(SqlName(ty)) == Ok(ty) <==> Bare(ty)
  {
    ParsedIsSound(text);
    if Bare(ty) {
      PrintRoundTrip(ty);
    } else {
      PrintedLacks(ty);
      if ParseType(SqlName(ty)).Ok? {
        ParsedIsBare(SqlName(ty));
      }
    }
  }

  // Backticked names

  function Quoted(name: string, rest: string): string {
    "`" + (name + ("`" + rest))
  }

  lemma QuotedFieldPieces(name: string, printed: string)
    requires Lacks(name, '`') && Level(printed, Flat)
    ensures TopLevelPieces(Quoted(name, ":" + printed)) == [Quoted(name, ":" + printed)]
  {
    var rest := ":" + printed;
    var field := Quoted(name, rest);
    assert field[1..] == name + ("`" + rest);
    ToQuote(name, rest, '`', 0, "`");
    WalkOne(':', 0, Flat);
    LevelConcat(":", printed, Flat);
    var current := "`" + name + "`";
    PiecesSkip(rest, "", 0, current);
    assert rest + "" == rest && current + rest == field;
    assert "" + [field[0]] == "`";
  }

  lemma ReadsQuoted(name: string, rest: string)
    requires Lacks(name, '`')
    ensures ReadIdent(Quoted(name, rest)) == Some(Ident(name, |name| + 2))
    ensures Quoted(name, rest)[|name| + 2..] == rest
  {
    var s := Quoted(name, rest);
    var t := name + ("`" + rest);
    assert s[1..] == t;
    var k := IndexOf(t, '`');
    assert t[|name|] == '`' && forall j | 0 <= j < |name| :: t[j] == name[j];
    assert forall j | 0 <= j < k :: t[..k][j] == t[j];
    assert s[1..|name| + 1] == name;
  }

  lemma TakeAngles(word: string, inner: string)
    requires GoodWord(word)
    ensures TakeApart(word + (['<'] + inner + ['>'])) == ContainerText(word, Trim(inner))
  {
    var rest := ['<'] + inner + ['>'];
    var t := word + rest;
    WordFacts(word);
    TrimWord(word);
    AnglesText(t, word, inner);
    TidyTrims(t);
    AnglesStay(t);
    IndexAfterWord(word, rest, '<');
    SplitOpened(t, word, inner);
  }

  lemma AnglesText(t: string, word: string, inner: string)
    requires t == word + (['<'] + inner + ['>']) && word != ""
    ensures |t| == |word| + |inner| + 2 && t[0] == word[0] && t[|t| - 1] == '>'
    ensures t[..|word|] == word && t[|word| + 1..|t| - 1] == inner
  {
  }

  /** Text ending in a bracket has no marker to strip and no arguments. */
  lemma AnglesStay(t: string)
    requires t != "" && t[|t| - 1] == '>'
    ensures StripNullability(t) == t && SplitArgs(t) == (t, [])
  {
    EndsElsewhere(t, " NOT NULL");
    EndsElsewhere(t, " NULL");
  }

  lemma EndsElsewhere(t: string, suffix: string)
    requires t != "" && t[|t| - 1] == '>' && suffix != "" && suffix[|suffix| - 1] == 'L'
    ensures !EndsWith(Upper(t), suffix)
  {
    var u := Upper(t);
    if |suffix| <= |u| {
      assert u[|u| - |suffix|..][|suffix| - 1] == u[|u| - 1];
    }
  }

  lemma FieldTypeOf(printed: string)
    requires Tidy(printed) && printed[0] != ':' && BeforeKeyword(printed, COMMENT_KEYWORD) == printed
    ensures FieldTypeText(":" + printed) == printed
  {
    var after := ":" + printed;
    assert after[1..] == printed;
    TidyTrims(printed);
    assert TrimStart(after) == after && DropColons(after) == printed;
  }

  lemma QuotedFieldReads(name: string, ty: DorisType, inner: string)
    requires Lacks(name, '`') && Printable(ty) && inner == Quoted(name, ":" + SqlName(ty))
    ensures Trim(inner) == inner != "" && TopLevelPieces(inner) == [inner]
    ensures ReadIdent(inner) == Some(Ident(name, |name| + 2))
    ensures FieldTypeText(inner[|name| + 2..]) == SqlName(ty)
  {
    var printed := SqlName(ty);
    PrintedTidy(ty);
    assert inner[|inner| - 1] == printed[|printed| - 1];
    TrimClean(inner);
    PrintedLevel(ty, Flat);
    QuotedFieldPieces(name, printed);
    ReadsQuoted(name, ":" + printed);
    NoKeywordInPrinted(ty);
    FieldTypeOf(printed);
  }

  lemma ParseOneField(inner: string, id: Ident, ty: DorisType)
    requires Trim(inner) == inner != "" && TopLevelPieces(inner) == [inner]
    requires ReadIdent(inner) == Some(id) && ParseType(FieldTypeText(inner[id.used..])) == Ok(ty)
    ensures ParseStruct(inner) == Ok(Struct([Field(id.name, ty)]))
  {
    PiecesOf(inner);
    ReadOneField([inner], |inner|, [], inner, id, ty);
    assert [inner][1..] == [] && [] + [Field(id.name, ty)] == [Field(id.name, ty)];
  }

  lemma StructText(text: string, word: string, inner: string)
    requires TakeApart(text) == ContainerText(word, inner) && word == "STRUCT"
    ensures ParseType(text) == ParseStruct(inner)
  {
  }

  lemma OneFieldStruct(inner: string, id: Ident, ty: DorisType, word: string)
    requires Trim(inner) == inner != "" && TopLevelPieces(inner) == [inner] && word == "STRUCT" && GoodWord(word)
    requires ReadIdent(inner) == Some(id) && ParseType(FieldTypeText(inner[id.used..])) == Ok(ty)
    ensures ParseType(word + (['<'] + inner + ['>'])) == Ok(Struct([Field(id.name, ty)]))
  {
    ParseOneField(inner, id, ty);
    TakeAngles(word, inner);
    StructText(word + (['<'] + inner + ['>']), word, inner);
  }

  lemma OneFieldBare(name: string, field: DorisType)
    requires Printable(field)
    ensures IsGeneratable(Struct([Field(name, field)]))
    ensures Bare(Struct([Field(name, field)])) <==> BareName(name)
  {
    assert Struct([Field(name, field)]).fields[0] in [Field(name, field)];
  }

  /** Any name without a backtick can be quoted as a field name. When it is not
      an identifier, the accepted type prints to text that does not parse back. */
  lemma QuotedNameDoesNotReprint(name: string, field: DorisType)
    requires Lacks(name, '`') && Printable(field)
    ensures var ty := Struct([Field(name, field)]);
            && ParseType(SqlWord(ty) + (['<'] + Quoted(name, ":" + SqlName(field)) + ['>'])) == Ok(ty)
            && (ParseType(SqlName(ty)) == Ok(ty) <==> BareName(name))
  {
    var ty := Struct([Field(name, field)]);
    var inner := Quoted(name, ":" + SqlName(field));
    QuotedFieldReads(name, field, inner);
    PrintRoundTrip(field);
    SqlWordFacts(ty);
    OneFieldStruct(inner, Ident(name, |name| + 2), field, SqlWord(ty));
    OneFieldBare(name, field);
    ReprintParses(SqlWord(ty) + (['<'] + inner + ['>']), ty);
  }
}
