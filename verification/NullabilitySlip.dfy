/** The three ways in which `parse_column` gets a nullability wrong.

    A marker inside the type is read for the column's, a literal inside the type
    hides the column's marker, and a marker glued to the type is swallowed by it:
    each as a family of column entries, with the blanks before the type that it
    takes. */
module NullabilitySlip {
  import opened Wrappers
  import opened Chars
  import opened DorisTypes
  import opened Scanners
  import opened TypeParser
  import opened TypeWalks
  import opened PrintedTypes
  import opened TypeRoundTrip
  import opened TypeSoundness
  import opened Comments
  import opened Ddl
  import opened DdlText
  import opened ColumnRoundTrip
  import opened Literals
  import opened NullabilityRead

  const ELEMENT_MARKER := " NOT NULL"

  /** An array whose element type is marked, with a blank before the bracket. */
  function MarkedArray(element: string): string {
    "ARRAY" + ("<" + (element + (ELEMENT_MARKER + " ")) + ">")
  }

  // The marker on an element type changes nothing

  const PLAIN_MARKER := " NULL"

  lemma MarkedUpper(element: string, marker: string)
    requires marker == ELEMENT_MARKER || marker == PLAIN_MARKER
    ensures Upper(element + marker) == Upper(element) + marker
  {
    UpperConcat(element, marker);
    assert Upper(marker) == marker;
  }

  lemma SuffixStart(s: string, suffix: string)
    requires suffix != "" && EndsWith(s, suffix)
    ensures s[|s| - |suffix|] == suffix[0]
  {
    assert s[|s| - |suffix|..][0] == suffix[0];
  }

  /** Without blanks of its own, a text marked NULL does not end in NOT NULL. */
  lemma NotTheLongMarker(element: string, marker: string, long: string)
    requires AllBenign(element) && marker == PLAIN_MARKER && long == ELEMENT_MARKER
    ensures !EndsWith(Upper(element + marker), long)
  {
    MarkedUpper(element, marker);
    var u := Upper(element) + marker;
    var n := |element| - 4;
    if n >= 0 {
      assert Benign(element[n]) && u[n] == UpperChar(element[n]);
    }
    if EndsWith(u, long) {
      SuffixStart(u, long);
    }
  }

  lemma StripMarker(element: string, marker: string)
    requires Tidy(element) && AllBenign(element) && (marker == ELEMENT_MARKER || marker == PLAIN_MARKER)
    ensures Trim(element + marker) == element + marker
    ensures StripNullability(element + marker) == element
  {
    var text := element + marker;
    var n := |element|;
    TrimClean(text);
    MarkedUpper(element, marker);
    assert Upper(text)[n..] == marker && text[..n] == element;
    TidyTrims(element);
    if marker == PLAIN_MARKER {
      NotTheLongMarker(element, marker, ELEMENT_MARKER);
    }
  }

  /** Either marker after an element type is dropped before the type is read. */
  lemma MarkerIsIgnored(element: string, marker: string)
    requires Tidy(element) && AllBenign(element) && (marker == ELEMENT_MARKER || marker == PLAIN_MARKER)
    ensures ParseType(element + marker) == ParseType(element)
  {
    StripMarker(element, marker);
    TidyTrims(element);
    StripNothing(element);
    assert TakeApart(element + marker) == TakeApart(element);
  }

  lemma TrimBlank(s: string)
    requires s != "" && !IsSpace(s[0]) && !IsSpace(s[|s| - 1])
    ensures Trim(s + " ") == s
  {
    var text := s + " ";
    TrimClean(s);
    assert text[|s|] == ' ' && text[..|s|] == s;
    assert TrimStart(text) == text && TrimEnd(text) == TrimEnd(text[..|s|]);
  }

  lemma TakeMarked(word: string, element: string, marker: string)
    requires GoodWord(word) && Tidy(element) && marker != "" && !IsSpace(marker[|marker| - 1])
    ensures TakeApart(word + ("<" + (element + (marker + " ")) + ">")) == ContainerText(word, element + marker)
  {
    var inner := element + (marker + " ");
    TakeAngles(word, inner);
    MarkedTrims(element, marker, inner);
    assert "<" + inner + ">" == ['<'] + inner + ['>'];
  }

  lemma MarkedTrims(element: string, marker: string, inner: string)
    requires Tidy(element) && marker != "" && !IsSpace(marker[|marker| - 1]) && inner == element + (marker + " ")
    ensures Trim(inner) == element + marker
  {
    Append(element, marker, " ");
    TrimBlank(element + marker);
  }

  lemma ParseArrayOf(inner: string, element: DorisType)
    requires ParseType(inner) == Ok(element)
    ensures ParseContainer("ARRAY", inner) == Ok(Array(element))
  {
  }

  lemma ParseMarked(element: DorisType)
    requires Printable(element)
    ensures ParseType(MarkedArray(SqlName(element))) == Ok(Array(element))
  {
    PrintedTidy(element);
    PrintedLevel(element, Both);
    PrintRoundTrip(element);
    MarkedReads(SqlName(element), "ARRAY", ELEMENT_MARKER, element);
  }

  lemma MarkedReads(e: string, word: string, marker: string, element: DorisType)
    requires Tidy(e) && Level(e, Both) && ParseType(e) == Ok(element) && word == "ARRAY" && marker == ELEMENT_MARKER
    ensures ParseType(word + ("<" + (e + (marker + " ")) + ">")) == Ok(Array(element))
  {
    WalkBenign(e, 0, Both);
    MarkerIsIgnored(e, marker);
    OtherWords();
    TakeMarked(word, e, marker);
    ArrayReads(word + ("<" + (e + (marker + " ")) + ">"), word, e + marker, element);
  }

  lemma ArrayReads(text: string, word: string, inner: string, element: DorisType)
    requires word == "ARRAY" && TakeApart(text) == ContainerText(word, inner) && ParseType(inner) == Ok(element)
    ensures ParseType(text) == Ok(Array(element))
  {
    ContainerReads(text, word, inner);
    ParseArrayOf(inner, element);
  }

  lemma {:induction false} NoAngles(u: string, rest: string, depth: nat)
    requires forall i | 0 <= i < |u| :: u[i] != '<' && u[i] != '>'
    ensures AngleEnd(u + rest, depth) == |u| + AngleEnd(rest, depth)
  {
    if u == "" {
      assert u + rest == rest;
    } else {
      assert (u + rest)[1..] == u[1..] + rest;
      NoAngles(u[1..], rest, depth);
    }
  }

  lemma TokenOfAngles(word: string, element: string, marker: string, t: string, tail: string)
    requires GoodWord(word) && Level(element, Angle)
    requires forall i | 0 <= i < |marker| :: marker[i] != '<' && marker[i] != '>'
    requires t == word + ("<" + (element + marker) + ">") && NoArgs(tail)
    ensures TypeToken(t + tail) == (t, |t|)
  {
    var end := marker + (">" + tail);
    var rest := "<" + (element + end);
    assert t + tail == word + rest && rest[1..] == element + end;
    WordFacts(word);
    NameEndOf(word, rest);
    AngleSkip(element, end, 0);
    NoAngles(marker, ">" + tail, 1);
    TokenEnds(t, tail, |t|);
  }

  lemma TokenOfMarked(element: string)
    requires Level(element, Angle)
    ensures TypeToken(MarkedArray(element)) == (MarkedArray(element), |MarkedArray(element)|)
  {
    OtherWords();
    TokenOfAngles("ARRAY", element, ELEMENT_MARKER + " ", MarkedArray(element), "");
    assert MarkedArray(element) + "" == MarkedArray(element);
  }

  // What the shifted offset sees

  lemma {:induction false} NotNeedsItsLetters(s: string)
    requires "NOT" in Words(s)
    ensures exists i | 0 <= i < |s| - 1 :: s[i] == 'N' && s[i + 1] == 'O'
  {
    if IsSpace(s[0]) {
      NotNeedsItsLetters(s[1..]);
      var i :| 0 <= i < |s[1..]| - 1 && s[1..][i] == 'N' && s[1..][i + 1] == 'O';
      assert s[i + 1] == 'N' && s[i + 1 + 1] == 'O';
    } else if FirstWord(s) == "NOT" {
      FirstWordPrefix(s);
      assert s[0] == "NOT"[0] && s[0 + 1] == "NOT"[1];
    } else {
      var n := |FirstWord(s)|;
      NotNeedsItsLetters(s[n..]);
      var i :| 0 <= i < |s[n..]| - 1 && s[n..][i] == 'N' && s[n..][i + 1] == 'O';
      assert s[n + i] == 'N' && s[n + i + 1] == 'O';
    }
  }

  const SEEN := "NOT NULL >"

  lemma ThreeWords(a: string, b: string, c: string)
    requires NoSpaces(a) && a != "" && NoSpaces(b) && b != "" && NoSpaces(c) && c != ""
    ensures Words(a + (" " + (b + (" " + c)))) == [a, b, c]
  {
    TwoWords(b, c);
    WordsThen(a, " " + (b + (" " + c)));
  }

  lemma SeenWords()
    ensures Words(SEEN) == ["NOT", "NULL", ">"]
  {
    ThreeWords("NOT", "NULL", ">");
    assert SEEN == "NOT" + (" " + ("NULL" + (" " + ">")));
  }

  lemma MarkerNotSeen(k: nat)
    requires 1 <= k <= |SEEN|
    ensures !NotNullIn(Words(SEEN[k..]))
  {
    var s := SEEN[k..];
    assert forall j | 2 <= j < |SEEN| :: SEEN[j] != 'O';
    assert forall i | 1 <= i < |s| :: s[i] == SEEN[k + i] != 'O';
    if "NOT" in Words(s) {
      NotNeedsItsLetters(s);
    }
  }

  // The last characters of the blanks and the type, as many as the blanks

  lemma ShiftedInEnd(gap: string, head: string, end: string)
    requires |gap| <= |end|
    ensures (gap + (head + end))[|head| + |end|..] == end[|end| - |gap|..]
  {
  }

  lemma ShiftedInHead(gap: string, head: string, end: string)
    requires |end| < |gap| <= |head| + |end|
    ensures (gap + (head + end))[|head| + |end|..] == head[|head| + |end| - |gap|..] + end
  {
  }

  lemma ShiftedInGap(gap: string, head: string, end: string)
    requires |head| + |end| < |gap|
    ensures (gap + (head + end))[|head| + |end|..] == gap[|head| + |end|..] + (head + end)
  {
  }

  lemma ShiftedIntoMarker(gap: string, head: string)
    requires AllSpaces(gap) && NoSpaces(head)
    ensures NotNullIn(Words((gap + (head + (" " + SEEN)))[|head| + 11..])) <==> |gap| >= 10
  {
    ShiftedInto(gap, head, " " + SEEN);
  }

  lemma ShiftedInto(gap: string, head: string, end: string)
    requires AllSpaces(gap) && NoSpaces(head) && end == " " + SEEN
    ensures NotNullIn(Words((gap + (head + end))[|head| + |end|..])) <==> |gap| >= 10
  {
    MarkerAtEnd(end);
    if |gap| <= |end| {
      ShiftedInEnd(gap, head, end);
      EndShows(end, |end| - |gap|);
    } else if |gap| <= |head| + |end| {
      ShiftedInHead(gap, head, end);
      StillSeen(head[|head| + |end| - |gap|..], end);
    } else {
      ShiftedInGap(gap, head, end);
      StillSeen(head, end);
      WordsSkip(gap[|head| + |end|..], head + end);
    }
  }

  /** A marker in words stays one after another word. */
  lemma StillSeen(w: string, end: string)
    requires NoSpaces(w) && end != "" && IsSpace(end[0]) && NotNullIn(Words(end))
    ensures NotNullIn(Words(w + end))
  {
    WordsThen(w, end);
    NotNullConcat(if w == "" then [] else [w], Words(end));
  }

  lemma EndShows(end: string, k: nat)
    requires end == " " + SEEN && k <= |end|
    ensures NotNullIn(Words(end[k..])) <==> k <= 1
  {
    if k > 1 {
      assert end[k..] == SEEN[k - 1..];
      MarkerNotSeen(k - 1);
    } else {
      MarkerAtEnd(end[k..]);
    }
  }

  lemma MarkerAtEnd(s: string)
    requires s == SEEN || s == " " + SEEN
    ensures NotNullIn(Words(s))
  {
    SeenWords();
    assert (" " + SEEN)[1..] == SEEN;
    assert Words(s)[0] == "NOT" && Words(s)[1] == "NULL";
  }

  /** A nullable array column whose element type is marked NOT NULL is read as
      NOT NULL exactly when ten or more blanks stand before its type. */
  lemma BlanksFlipNullability(name: string, gap: string, element: DorisType)
    requires Lacks(name, '`') && AsciiSpaces(gap) && Printable(element)
    ensures ParseColumn(Quoted(name, gap + MarkedArray(SqlName(element)))) ==
            Ok(Column(name, Array(element), |gap| < 10))
  {
    var e := SqlName(element);
    var t := MarkedArray(e);
    TextParts(name, gap, t);
    PrintedLevel(element, Angle);
    PrintedLevel(element, Both);
    WalkBenign(e, 0, Both);
    TokenOfMarked(e);
    ParseMarked(element);
    ShiftedModifiers(gap, e, t);
  }

  lemma UpperMarked(gap: string, head: string)
    requires AllSpaces(gap)
    ensures Upper(gap + (head + (" " + SEEN))) == gap + (Upper(head) + (" " + SEEN))
  {
    UpperAfterSpace(gap, head, " " + SEEN);
    assert Upper(" " + SEEN) == " " + SEEN;
  }

  lemma UnquotedTail(whole: string, n: nat)
    requires n <= |whole| && forall i | 0 <= i < |whole| :: !IsQuote(whole[i])
    ensures Upper(Blanked(whole[n..], None, false)) == Upper(whole)[n..]
  {
    UnquotedStays(whole[n..]);
  }

  lemma NoQuotes(gap: string, head: string)
    requires AllSpaces(gap) && AllBenign(head)
    ensures var whole := gap + (head + (" " + SEEN)); forall i | 0 <= i < |whole| :: !IsQuote(whole[i])
  {
    assert forall i | 0 <= i < |" " + SEEN| :: !IsQuote((" " + SEEN)[i]);
  }

  lemma ShiftedModifiers(gap: string, element: string, t: string)
    requires AllSpaces(gap) && AllBenign(element) && t == MarkedArray(element)
    ensures NotNullIn(Words(Upper(Blanked((gap + t)[|t|..], None, false)))) <==> |gap| >= 10
  {
    var head := "ARRAY<" + element;
    assert t == head + (" " + SEEN);
    NoQuotes(gap, head);
    UnquotedTail(gap + t, |t|);
    UpperMarked(gap, head);
    UpperBenign(head);
    ShiftedIntoMarker(gap, Upper(head));
  }

  // A comment on a STRUCT field loses the column's marker

  /** The entry whose type text is `t`, with these blanks and modifiers. */
  function EntryOf(name: string, gap: string, t: string, m: string): string {
    Quoted(name, gap + (t + m))
  }

  lemma EntryParts(name: string, gap: string, t: string, m: string)
    requires Lacks(name, '`') && AllSpaces(gap) && t != "" && !IsSpace(t[0])
    requires TypeToken(t + m) == (t, |t|)
    ensures ReadIdent(EntryOf(name, gap, t, m)) == Some(Ident(name, |name| + 2))
    ensures PartsOf(EntryOf(name, gap, t, m)) == Parts(gap, t, m)
  {
    TextParts(name, gap, t + m);
    assert (gap + (t + m))[..|gap|] == gap;
    assert (t + m)[..|t|] == t && (t + m)[|t|..] == m;
  }

  lemma EntryAccepted(name: string, gap: string, t: string, m: string, ty: DorisType)
    requires Lacks(name, '`') && AllSpaces(gap) && t != "" && !IsSpace(t[0])
    requires TypeToken(t + m) == (t, |t|) && ParseType(t) == Ok(ty)
    ensures var c := ParseColumn(EntryOf(name, gap, t, m)); c.Ok? && c.value.name == name && c.value.ty == ty
  {
    TextParts(name, gap, t + m);
  }

  lemma {:induction false} NoQuoteNoEnd(m: string, active: char)
    requires active !in m
    ensures QuoteRest(m, active) == ""
    decreases |m|
  {
    if m != "" {
      if m[0] == '\\' && active != '`' {
        if |m| >= 2 {
          NoQuoteNoEnd(m[2..], active);
        }
      } else {
        NoQuoteNoEnd(m[1..], active);
      }
    }
  }

  const QUOTE_END := "'>"

  lemma QuoteEndOpens()
    ensures OpenAfter(QUOTE_END) == Inside(Some('\''), false) && Modifiers(QUOTE_END) == []
  {
    var s := QUOTE_END;
    assert s[1..][1..] == "";
    BlankedAt(s, 0);
    BlankedAt(s, 1);
    assert s[..0] == "" && s[..1] == [s[0]] && s[..1][1..] == "";
    var r := Read(s);
    assert r == r + "";
    WordsSkip(r, "");
  }

  lemma TwoBlanksLose(name: string, gap: string, t: string, m: string, ty: DorisType, end: string)
    requires Lacks(name, '`') && AllSpaces(gap) && |gap| == |end| && end == QUOTE_END
    requires |t| >= |end| && t[|t| - |end|..] == end && !IsSpace(t[0]) && ParseType(t) == Ok(ty)
    requires TypeToken(t + m) == (t, |t|) && '\'' !in m
    ensures ParseColumn(EntryOf(name, gap, t, m)) == Ok(Column(name, ty, true))
  {
    var entry := EntryOf(name, gap, t, m);
    EntryParts(name, gap, t, m);
    EntryAccepted(name, gap, t, m, ty);
    RereadEnd(gap, t, m);
    QuoteEndOpens();
    NoQuoteNoEnd(m, '\'');
    OneCharacter("");
    ReadsNullability(entry);
  }

  lemma RereadEnd(gap: string, t: string, m: string)
    requires |gap| <= |t|
    ensures Reread(Parts(gap, t, m)) == t[|t| - |gap|..]
  {
  }

  lemma FewerBlanksKeep(name: string, gap: string, t: string, m: string, ty: DorisType)
    requires Lacks(name, '`') && AllSpaces(gap) && |gap| <= 1
    requires t != "" && !IsSpace(t[0]) && ParseType(t) == Ok(ty)
    requires TypeToken(t + m) == (t, |t|) && (m != "" ==> IsSpace(m[0]))
    ensures ParseColumn(EntryOf(name, gap, t, m)) == Ok(Column(name, ty, !SaysNotNull(m)))
  {
    EntryParts(name, gap, t, m);
    EntryAccepted(name, gap, t, m, ty);
    ShortGapIsRight(EntryOf(name, gap, t, m));
  }

  /** A column whose type text ends in a quoted comment and `>`, two blanks
      after its name, is read as nullable whatever its modifiers say, unless
      they hold such a quote; with fewer blanks it is read right. */
  lemma QuotedCommentLosesMarker(name: string, gap: string, t: string, m: string, ty: DorisType)
    requires Lacks(name, '`') && AsciiSpaces(gap) && |gap| <= 2
    requires |t| >= 2 && t[|t| - 2..] == QUOTE_END && !IsSpace(t[0]) && ParseType(t) == Ok(ty)
    requires TypeToken(t + m) == (t, |t|) && '\'' !in m && (m != "" ==> IsSpace(m[0]))
    ensures ParseColumn(EntryOf(name, gap, t, m)) ==
            Ok(Column(name, ty, |gap| == 2 || !SaysNotNull(m)))
  {
    if |gap| == 2 {
      TwoBlanksLose(name, gap, t, m, ty, QUOTE_END);
    } else {
      FewerBlanksKeep(name, gap, t, m, ty);
    }
  }

  // Such a type: a STRUCT with a commented field

  /** `STRUCT<field:WORD COMMENT 'c'>` */
  function Commented(field: string, word: string, c: string): string {
    field + (":" + (word + (" COMMENT " + ("'" + (c + "'")))))
  }

  function CommentedStruct(field: string, word: string, c: string): string {
    "STRUCT" + ("<" + Commented(field, word, c) + ">")
  }

  predicate PlainType(ty: DorisType) {
    !HasArgs(ty) && !IsNested(ty) && !ty.AggState?
  }

  lemma CommentPieces(c: string, current: string)
    requires AllIdent(c)
    ensures Pieces("'" + (c + "'"), 0, None, current) == [current + ("'" + (c + "'"))]
  {
    var q := '\'';
    var s := "'" + (c + "'");
    assert s[1..] == c + ([q] + "");
    ToQuote(c, "", q, 0, current + [q]);
    assert current + [q] + c + [q] == current + s;
  }

  lemma InertParts(field: string, word: string, keyword: string)
    requires AllIdent(field) && AllIdent(word) && Inert(keyword)
    ensures Inert(field + (":" + (word + keyword)))
  {
    var u := field + (":" + (word + keyword));
    forall i | 0 <= i < |u| ensures u[i] in field || u[i] == ':' || u[i] in word || u[i] in keyword {
    }
    assert forall c | c in field || c in word :: IsIdent(c);
  }

  lemma CommentedPieces(field: string, word: string, c: string)
    requires AllIdent(field) && AllIdent(word) && AllIdent(c)
    ensures TopLevelPieces(Commented(field, word, c)) == [Commented(field, word, c)]
  {
    var literal := "'" + (c + "'");
    var keyword := " COMMENT ";
    var u := field + (":" + (word + keyword));
    assert Inert(keyword);
    InertParts(field, word, keyword);
    CommentedSplits(field, word, keyword, literal);
    InertPieces(u, literal, "");
    assert "" + u == u;
    CommentPieces(c, u);
  }

  lemma CommentedSplits(field: string, word: string, keyword: string, literal: string)
    ensures field + (":" + (word + (keyword + literal))) == (field + (":" + (word + keyword))) + literal
  {
    assert word + (keyword + literal) == (word + keyword) + literal;
    assert ":" + ((word + keyword) + literal) == (":" + (word + keyword)) + literal;
  }

  // The type of the field is what stands before its comment

  lemma ReadsHead(head: string, literal: string)
    requires (forall i | 0 <= i < |head| :: !IsQuote(head[i])) && Upper(head) == head
    ensures |head| <= |Read(head + literal)| && Read(head + literal)[..|head|] == head
  {
    UnquotedStays(head);
    UnquotedOutside(head);
    ReadConcat(head, literal);
  }

  lemma KeywordHead(word: string, keyword: string)
    requires GoodWord(word) && keyword == " COMMENT "
    ensures (forall i | 0 <= i < |word + keyword| :: !IsQuote((word + keyword)[i]))
    ensures Upper(word + keyword) == word + keyword
  {
    WordFacts(word);
    UpperConcat(word, keyword);
  }

  lemma CutBefore(text: string, word: string, keyword: string, n: nat)
    requires KeywordIndex(Read(text), 0, 0, keyword) == Some(n) && n <= |text| && TrimEnd(text[..n]) == word
    ensures BeforeKeyword(text, keyword) == word
  {
  }

  lemma CommentCut(word: string, c: string)
    requires GoodWord(word) && AllIdent(c)
    ensures BeforeKeyword(word + (" COMMENT " + ("'" + (c + "'"))), COMMENT_KEYWORD) == word
  {
    var keyword := " COMMENT ";
    var literal := "'" + (c + "'");
    var text := word + (keyword + literal);
    assert text == (word + keyword) + literal;
    KeywordHead(word, keyword);
    ReadsHead(word + keyword, literal);
    KeywordAfterWord(Read(text), word);
    assert text[..|word| + 1] == word + " ";
    TrimEndBlank(word);
    CutBefore(text, word, COMMENT_KEYWORD, |word| + 1);
  }

  lemma TrimEndBlank(word: string)
    requires GoodWord(word)
    ensures TrimEnd(word + " ") == word
  {
    WordFacts(word);
    var s := word + " ";
    assert s[..|s| - 1] == word;
    assert IsIdent(word[|word| - 1]);
  }

  lemma KeywordAfterWord(s: string, word: string)
    requires GoodWord(word) && |word| + 9 <= |s| && s[..|word| + 9] == word + " COMMENT "
    ensures KeywordIndex(s, 0, 0, COMMENT_KEYWORD) == Some(|word| + 1)
  {
    var n := |word|;
    var head := word + " COMMENT ";
    assert s[..n] == word && word <= s;
    NoKeywordAfterWord(s, word);
    assert s[n] == head[n] == ' ';
    assert s[n + 1] == head[n + 1] == 'C';
    OtherStart(s, n, COMMENT_KEYWORD);
    assert s[n + 1..n + 8] == head[n + 1..n + 8] == COMMENT_KEYWORD;
    assert s[n + 8] == head[n + 8] == ' ';
  }

  lemma FieldTypeBefore(typed: string, word: string)
    requires typed != "" && !IsSpace(typed[0]) && typed[0] != ':' && BeforeKeyword(typed, COMMENT_KEYWORD) == word
    ensures FieldTypeText(":" + typed) == word
  {
    var after := ":" + typed;
    assert after[1..] == typed;
    StartStays(after);
    StartStays(typed);
    assert DropColons(after) == typed;
  }

  lemma StartStays(s: string)
    requires s != "" && !IsSpace(s[0])
    ensures TrimStart(s) == s
  {
  }

  lemma CommentedField(field: string, word: string, c: string)
    requires GoodWord(word) && AllIdent(c)
    ensures FieldTypeText(Commented(field, word, c)[|field|..]) == word
  {
    var typed := word + (" COMMENT " + ("'" + (c + "'")));
    WordFacts(word);
    assert Commented(field, word, c)[|field|..] == ":" + typed;
    assert typed[0] == word[0] && IsIdent(word[0]);
    CommentCut(word, c);
    FieldTypeBefore(typed, word);
  }

  lemma CommentedName(field: string, rest: string)
    requires BareName(field) && rest != "" && !IsSpace(rest[|rest| - 1])
    ensures var inner := field + (":" + rest);
            Trim(inner) == inner != "" && ReadIdent(inner) == Some(Ident(field, |field|))
  {
    var inner := field + (":" + rest);
    assert inner[0] == field[0] && IsIdent(field[0]) && inner[|inner| - 1] == rest[|rest| - 1];
    TrimClean(inner);
    IdentEndOf(field, ":" + rest);
    assert inner[..|field|] == field;
  }

  lemma CommentedReads(field: string, word: string, c: string)
    requires BareName(field) && GoodWord(word) && AllIdent(c)
    ensures var inner := Commented(field, word, c);
            && Trim(inner) == inner != ""
            && ReadIdent(inner) == Some(Ident(field, |field|))
            && FieldTypeText(inner[|field|..]) == word
  {
    CommentedName(field, word + (" COMMENT " + ("'" + (c + "'"))));
    CommentedField(field, word, c);
  }

  lemma CommentedStructParses(field: string, ty: DorisType, c: string)
    requires BareName(field) && PlainType(ty) && AllIdent(c)
    ensures ParseType(CommentedStruct(field, SqlWord(ty), c)) == Ok(Struct([Field(field, ty)]))
  {
    var word, inner := SqlWord(ty), Commented(field, SqlWord(ty), c);
    SqlWordFacts(ty);
    PlainRoundTrip(ty);
    CommentedReads(field, word, c);
    CommentedPieces(field, word, c);
    OtherWords();
    OneFieldStruct(inner, Ident(field, |field|), ty, "STRUCT");
  }

  lemma CommentedStructToken(field: string, word: string, c: string, m: string)
    requires AllIdent(field) && AllIdent(word) && AllIdent(c) && NoArgs(m)
    ensures var t := CommentedStruct(field, word, c); TypeToken(t + m) == (t, |t|)
  {
    var inner := Commented(field, word, c);
    OtherWords();
    assert Walk("", 0, Angle) == Some(0);
    assert "" + inner == inner;
    TokenOfAngles("STRUCT", "", inner, CommentedStruct(field, word, c), m);
  }

  lemma ModifiersOf(m: string, words: seq<string>)
    requires (forall i | 0 <= i < |m| :: !IsQuote(m[i])) && Upper(m) == m && Words(m) == words
    ensures Modifiers(m) == words
  {
    UnquotedStays(m);
  }

  lemma MarkerShape(m: string)
    requires m == ELEMENT_MARKER
    ensures (forall i | 0 <= i < |m| :: !IsQuote(m[i])) && m != "" && IsSpace(m[0]) && Follows(m)
  {
  }

  lemma MarkerWords(m: string)
    requires m == ELEMENT_MARKER
    ensures Words(m) == ["NOT", "NULL"]
  {
    NotNullWords();
  }

  lemma MarkerUpper(m: string)
    requires m == ELEMENT_MARKER
    ensures Upper(m) == m
  {
  }

  lemma MarkerFacts(m: string)
    requires m == ELEMENT_MARKER
    ensures SaysNotNull(m) && NoArgs(m) && '\'' !in m && m != "" && IsSpace(m[0])
  {
    var words := ["NOT", "NULL"];
    MarkerShape(m);
    FollowsNoArgs(m);
    MarkerWords(m);
    MarkerUpper(m);
    ModifiersOf(m, words);
    NotThenNull(words);
  }

  lemma NotThenNull(words: seq<string>)
    requires words == ["NOT", "NULL"]
    ensures NotNullIn(words)
  {
    assert words[0] == "NOT" && words[1] == "NULL";
  }

  lemma CommentedEnd(field: string, word: string, c: string)
    ensures var t := CommentedStruct(field, word, c); |t| >= 2 && t[|t| - 2..] == QUOTE_END && t[0] == 'S'
  {
    var t := CommentedStruct(field, word, c);
    assert t[|t| - 2] == '\'' && t[|t| - 1] == '>';
  }

  /** `STRUCT<a:INT COMMENT 'x'> NOT NULL` two blanks after the column name is a
      nullable column. */
  lemma CommentedFieldLosesMarker(name: string, gap: string, field: string, ty: DorisType, c: string, m: string)
    requires Lacks(name, '`') && AsciiSpaces(gap) && |gap| <= 2 && m == ELEMENT_MARKER
    requires BareName(field) && PlainType(ty) && AllIdent(c)
    ensures ParseColumn(EntryOf(name, gap, CommentedStruct(field, SqlWord(ty), c), m)) ==
            Ok(Column(name, Struct([Field(field, ty)]), |gap| == 2))
  {
    var t := CommentedStruct(field, SqlWord(ty), c);
    SqlWordFacts(ty);
    CommentedStructParses(field, ty, c);
    MarkerFacts(m);
    CommentedStructToken(field, SqlWord(ty), c, m);
    CommentedEnd(field, SqlWord(ty), c);
    QuotedCommentLosesMarker(name, gap, t, m, Struct([Field(field, ty)]));
  }

  // A marker glued to the type

  const GLUED_MARKER := "NOT NULL"

  lemma PairOfWords(a: string, b: string)
    requires NoSpaces(a) && a != "" && NoSpaces(b) && b != ""
    ensures Words(a + (" " + b)) == [a, b]
  {
    OneWord(b);
    WordsThen(a, " " + b);
  }

  lemma GluedMarkerWords(m: string)
    requires m == GLUED_MARKER
    ensures Modifiers(m) == ["NOT", "NULL"]
    ensures SaysNotNull(m) && !NotNullIn(Modifiers(m)[1..])
  {
    var a, b := "NOT", "NULL";
    PairOfWords(a, b);
    GluedMarkerText(m, a, b);
    ModifiersOf(m, [a, b]);
    MarkerPair(Modifiers(m), a, b);
  }

  lemma GluedMarkerText(m: string, a: string, b: string)
    requires m == GLUED_MARKER && a == "NOT" && b == "NULL"
    ensures m == a + (" " + b) && Upper(m) == m && forall i | 0 <= i < |m| :: !IsQuote(m[i])
  {
  }

  lemma MarkerPair(words: seq<string>, a: string, b: string)
    requires words == [a, b] && a == "NOT" && b == "NULL"
    ensures NotNullIn(words) && !NotNullIn(words[1..])
  {
    assert words[0] == a && words[1] == b;
  }

  lemma GluedMarkerShape(m: string)
    requires m == GLUED_MARKER
    ensures m != "" && !IsSpace(m[0]) && !IsQuote(m[0]) && NoArgs(m)
  {
    StartStays(m);
  }

  lemma BracketedUnbroken(ty: DorisType)
    requires Printable(ty)
    ensures Unbroken(SqlName(ty)) && Tidy(SqlName(ty))
  {
    PrintedLevel(ty, Both);
    LevelUnbroken(SqlName(ty));
    PrintedTidy(ty);
  }

  lemma LevelUnbroken(s: string)
    requires Level(s, Both)
    ensures Unbroken(s)
  {
    WalkBenign(s, 0, Both);
    forall i | 0 <= i < |s|
      ensures !IsSpace(s[i]) && !IsQuote(s[i])
    {
      assert Benign(s[i]);
    }
  }

  lemma GluedEntry(name: string, gap: string, t: string, m: string, ty: DorisType)
    requires Lacks(name, '`') && AllSpaces(gap) && Unbroken(t) && t != "" && m == GLUED_MARKER
    requires TypeToken(t + m) == (t, |t|) && ParseType(t) == Ok(ty)
    ensures ParseColumn(EntryOf(name, gap, t, m)) == Ok(Column(name, ty, gap != ""))
  {
    var p := Parts(gap, t, m);
    EntryParts(name, gap, t, m);
    EntryAccepted(name, gap, t, m, ty);
    UnbrokenTypeIsRight(EntryOf(name, gap, t, m));
    GluedMarkerWords(m);
    GluedMarkerShape(m);
    var space, k := RereadShape(p);
  }

  /** NOT NULL written right after the closing bracket of a type is found only
      when no blank stands before the type. */
  lemma GluedMarkerIsLost(name: string, gap: string, ty: DorisType, m: string)
    requires Lacks(name, '`') && AsciiSpaces(gap) && Printable(ty) && Bracketed(ty) && m == GLUED_MARKER
    ensures ParseColumn(EntryOf(name, gap, SqlName(ty), m)) == Ok(Column(name, ty, gap != ""))
  {
    GluedMarkerShape(m);
    TokenOfPrinted(ty, m);
    PrintRoundTrip(ty);
    BracketedUnbroken(ty);
    GluedEntry(name, gap, SqlName(ty), m, ty);
  }
}
