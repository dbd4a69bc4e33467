/** One written column read back: its name, its type and its nullability.

    The type token ends where the printed type ends, whatever follows. The
    modifiers are read from a place shifted by the blanks before the type; the
    marker is still seen when it is there, and nothing in the end of a printed
    type, in quoted text or in the other modifiers can be taken for it. */
module ColumnRoundTrip {
  import opened Wrappers
  import opened Chars
  import opened DorisTypes
  import opened Scanners
  import opened TypeParser
  import opened TypeWalks
  import opened PrintedTypes
  import opened TypeRoundTrip
  import opened TypeSoundness
  import opened Comments
  import opened Literals
  import opened Ddl
  import opened DdlText

  // read_type_token on a printed type

  /** Nothing, or text that starts with a blank and goes on with neither a
      blank nor a parenthesis. */
  predicate Follows(tail: string) {
    tail == "" || (|tail| >= 2 && tail[0] == ' ' && !IsSpace(tail[1]) && tail[1] != '(')
  }

  lemma {:induction false} NameEndOf(word: string, rest: string)
    requires AllIdent(word)
    requires rest == "" || !IsIdent(rest[0])
    ensures NameEnd(word + rest) == |word| + if rest != "" && rest[0] == '<' then AngleEnd(rest, 0) else 0
  {
    if word == "" {
      assert word + rest == rest;
    } else {
      assert (word + rest)[1..] == word[1..] + rest;
      NameEndOf(word[1..], rest);
    }
  }

  /** No argument list comes next. */
  predicate NoArgs(tail: string) {
    TrimStart(tail) == "" || TrimStart(tail)[0] != '('
  }

  lemma FollowsNoArgs(tail: string)
    requires Follows(tail)
    ensures NoArgs(tail)
  {
    if tail != "" {
      assert TrimStart(tail) == tail[1..];
    }
  }

  lemma TokenEnds(t: string, tail: string, index: nat)
    requires Tidy(t) && NoArgs(tail) && index == |t| && NameEnd(t + tail) == index
    ensures TypeToken(t + tail) == (t, |t|)
  {
    assert (t + tail)[index..] == tail && (t + tail)[..index] == t;
    TidyTrims(t);
  }

  lemma TokenOfWord(word: string, tail: string)
    requires GoodWord(word) && Follows(tail)
    ensures TypeToken(word + tail) == (word, |word|)
  {
    WordFacts(word);
    NameEndOf(word, tail);
    FollowsNoArgs(tail);
    TokenEnds(word, tail, |word|);
  }

  lemma TokenOfBrackets(word: string, inner: string, tail: string)
    requires GoodWord(word) && Level(inner, Angle) && NoArgs(tail)
    ensures var t := word + (['<'] + inner + ['>']); TypeToken(t + tail) == (t, |t|)
  {
    var t := word + (['<'] + inner + ['>']);
    var rest := ['<'] + (inner + (['>'] + tail));
    WordFacts(word);
    assert t + tail == word + rest;
    NameEndOf(word, rest);
    assert rest[1..] == inner + (['>'] + tail);
    AngleSkip(inner, ['>'] + tail, 0);
    TokenEnds(t, tail, |t|);
  }

  lemma ArgsToken(input: string, word: string, inner: string, tail: string)
    requires GoodWord(word) && Level(inner, Round) && input == word + (['('] + (inner + ([')'] + tail)))
    ensures NameEnd(input) == |word| && input[|word|..] == ['('] + (inner + ([')'] + tail))
    ensures ParenMatch(input, |word|) == Some(|word| + |inner| + 1)
  {
    var rest := ['('] + (inner + ([')'] + tail));
    WordFacts(word);
    NameEndOf(word, rest);
    assert input[|word|..] == rest && rest[1..] == inner + ([')'] + tail);
    ParenSkip(inner, [')'] + tail, |word| + 1, 0);
  }

  lemma TokenClosed(input: string, index: nat, close: nat)
    requires index < |input| && input[index] == '(' && NameEnd(input) == index
    requires ParenMatch(input, index) == Some(close)
    ensures TypeToken(input) == (TrimEnd(input[..close + 1]), close + 1)
  {
    assert TrimStart(input[index..]) == input[index..];
    assert ArgsOpen(input, index) == Some(index);
  }

  lemma ArgsText(t: string, word: string, inner: string, tail: string)
    requires t == word + (['('] + inner + [')'])
    ensures t + tail == word + (['('] + (inner + ([')'] + tail)))
    ensures (t + tail)[..|t|] == t && TrimEnd(t) == t && |t| == |word| + |inner| + 2
  {
    Append(word, ['('] + inner + [')'], tail);
    Append(['('] + inner, [')'], tail);
    Append(['('], inner, [')'] + tail);
  }

  lemma TokenOfArgs(word: string, inner: string, tail: string)
    requires GoodWord(word) && Level(inner, Round)
    ensures var t := word + (['('] + inner + [')']); TypeToken(t + tail) == (t, |t|)
  {
    var t := word + (['('] + inner + [')']);
    ArgsText(t, word, inner, tail);
    ArgsToken(t + tail, word, inner, tail);
    ClosedToken(t + tail, |word|, t);
  }

  lemma ClosedToken(input: string, index: nat, t: string)
    requires index < |input| && input[index] == '(' && NameEnd(input) == index
    requires 1 <= |t| <= |input| && input[..|t|] == t && TrimEnd(t) == t && ParenMatch(input, index) == Some(|t| - 1)
    ensures TypeToken(input) == (t, |t|)
  {
    TokenClosed(input, index, |t| - 1);
  }

  lemma TokenOfPrinted(ty: DorisType, tail: string)
    requires Printable(ty) && (Follows(tail) || (Bracketed(ty) && NoArgs(tail)))
    ensures TypeToken(SqlName(ty) + tail) == (SqlName(ty), |SqlName(ty)|)
  {
    SqlWordFacts(ty);
    if Follows(tail) {
      FollowsNoArgs(tail);
    }
    if HasArgs(ty) {
      InnerLevel(ty, Round);
      TokenOfArgs(SqlWord(ty), SqlInner(ty), tail);
    } else if IsNested(ty) {
      InnerLevel(ty, Angle);
      TokenOfBrackets(SqlWord(ty), SqlInner(ty), tail);
    } else {
      TokenOfWord(SqlWord(ty), tail);
    }
  }

  // Nullability

  lemma {:induction false} WordsSkip(space: string, s: string)
    requires AllSpaces(space)
    ensures Words(space + s) == Words(s)
  {
    if space == "" {
      assert space + s == s;
    } else {
      assert (space + s)[1..] == space[1..] + s;
      WordsSkip(space[1..], s);
    }
  }

  lemma {:induction false} FirstWordOf(w: string, tail: string)
    requires NoSpaces(w) && (tail == "" || IsSpace(tail[0]))
    ensures FirstWord(w + tail) == w
  {
    if w == "" {
      assert w + tail == tail;
    } else {
      assert (w + tail)[1..] == w[1..] + tail;
      FirstWordOf(w[1..], tail);
    }
  }

  lemma WordsThen(w: string, tail: string)
    requires NoSpaces(w) && (tail == "" || IsSpace(tail[0]))
    ensures Words(w + tail) == (if w == "" then [] else [w]) + Words(tail)
  {
    if w == "" {
      assert w + tail == tail;
    } else {
      FirstWordOf(w, tail);
      assert (w + tail)[|w|..] == tail;
    }
  }

  lemma NotNullWords()
    ensures Words(" NOT NULL") == ["NOT", "NULL"]
  {
    TwoWords("NOT", "NULL");
    assert " NOT NULL" == " " + ("NOT" + (" " + "NULL"));
  }

  lemma TwoWords(a: string, b: string)
    requires NoSpaces(a) && a != "" && NoSpaces(b) && b != ""
    ensures Words(" " + (a + (" " + b))) == [a, b]
  {
    OneWord(b);
    WordsThen(a, " " + b);
    assert (" " + (a + (" " + b)))[1..] == a + (" " + b);
  }

  lemma OneWord(w: string)
    requires NoSpaces(w) && w != ""
    ensures Words(" " + w) == [w]
  {
    assert (" " + w)[1..] == w + "";
    WordsThen(w, "");
  }

  predicate EndsInOT(s: string) {
    |s| >= 2 && UpperChar(s[|s| - 2]) == 'O' && UpperChar(s[|s| - 1]) == 'T'
  }

  lemma PrintedEnd(ty: DorisType)
    requires Printable(ty)
    ensures !EndsInOT(SqlName(ty))
  {
    var s := SqlName(ty);
    SqlWordFacts(ty);
    if Bracketed(ty) {
      assert s[|s| - 1] == Closing(ty);
    }
  }

  lemma EndIsNotNOT(s: string, k: nat)
    requires k <= |s| && !EndsInOT(s)
    ensures Upper(s[k..]) != "NOT"
  {
    var w := Upper(s[k..]);
    if |w| == 3 {
      assert w[1] == UpperChar(s[|s| - 2]) && w[2] == UpperChar(s[|s| - 1]);
    }
  }

  /** The tail end of the blanks and the type, as long as the blanks were. */
  lemma ShiftedText(gap: string, t: string, marker: string) returns (space: string, k: nat)
    requires AllSpaces(gap)
    ensures k <= |t| && AllSpaces(space)
    ensures (gap + (t + marker))[|t|..] == space + (t[k..] + marker)
  {
    var whole := gap + (t + marker);
    if |t| <= |gap| {
      space, k := gap[|t|..], 0;
    } else {
      space, k := "", |t| - |gap|;
    }
    assert whole[|t|..] == space + (t[k..] + marker);
  }

  lemma UpperAfterSpace(space: string, w: string, end: string)
    requires AllSpaces(space)
    ensures Upper(space + (w + end)) == space + (Upper(w) + Upper(end))
  {
    UpperConcat(space, w + end);
    UpperConcat(w, end);
    assert Upper(space) == space;
  }

  lemma UpperBenign(w: string)
    requires AllBenign(w)
    ensures NoSpaces(Upper(w))
  {
    forall i | 0 <= i < |w| ensures !IsSpace(Upper(w)[i]) {
      assert Benign(w[i]);
    }
  }

  /** The part with quoted text blanked. */
  function ShownText(p: Part): string {
    match p
    case Phrase(_, text) => seq(|text| + 3, _ => ' ')
    case _ => PartText(p)
  }

  function ShownParts(parts: seq<Part>): string {
    if parts == [] then "" else ShownText(parts[0]) + ShownParts(parts[1..])
  }

  lemma {:induction false} UnquotedThen(u: string, rest: string)
    requires forall i | 0 <= i < |u| :: !IsQuote(u[i])
    ensures Blanked(u + rest, None, false) == u + Blanked(rest, None, false)
  {
    if u == "" {
      assert u + rest == rest;
    } else {
      assert (u + rest)[1..] == u[1..] + rest;
      UnquotedThen(u[1..], rest);
    }
  }

  lemma UnquotedStays(s: string)
    requires forall i | 0 <= i < |s| :: !IsQuote(s[i])
    ensures Blanked(s, None, false) == s
  {
    UnquotedThen(s, "");
    assert s + "" == s;
  }

  lemma PhraseBlanked(mark: char, text: string, rest: string)
    requires Closes(mark, text)
    ensures Blanked(" " + Enclose(mark, text) + rest, None, false) ==
            seq(|text| + 3, _ => ' ') + Blanked(rest, None, false)
  {
    var blank := " ";
    var inside := text + ([mark] + rest);
    EnclosedTail(mark, text, rest);
    EnclosedText(mark, text, rest);
    BlankedInside(inside, mark, false);
    Append(blank, Enclose(mark, text), rest);
    UnquotedThen(blank, Enclose(mark, text) + rest);
    assert blank + ([' '] + seq(|text| + 1, _ => ' ')) == seq(|text| + 3, _ => ' ');
  }

  lemma PartBlanked(p: Part, rest: string)
    requires IsModifier(p)
    ensures Blanked(PartText(p) + rest, None, false) == ShownText(p) + Blanked(rest, None, false)
  {
    if p.Phrase? {
      PhraseBlanked(p.mark, p.text, rest);
    } else {
      if p.Group? {
        OneBit(p.bits);
      }
      UnquotedThen(PartText(p), rest);
    }
  }

  lemma OneBit(bits: seq<Bit>)
    requires |bits| == 1 && bits[0].Plain?
    ensures BitsText(bits) == bits[0].text
  {
    assert bits[0].text + "" == bits[0].text;
  }

  lemma {:induction false} PartsBlanked(parts: seq<Part>)
    requires forall p | p in parts :: IsModifier(p)
    ensures Blanked(PartsText(parts), None, false) == ShownParts(parts)
  {
    if parts != [] {
      PartBlanked(parts[0], PartsText(parts[1..]));
      PartsBlanked(parts[1..]);
    }
  }

  /** The words the part is read as. */
  function PartWords(p: Part): seq<string> {
    match p
    case NullMark => ["NULL"]
    case NotNullMark => ["NOT", "NULL"]
    case Bare(word) => [Upper(word)]
    case Phrase(_, _) => []
    case Group(bits) => ["(" + Upper(BitsText(bits)) + ")"]
  }

  function PartsWords(parts: seq<Part>): seq<string> {
    if parts == [] then [] else PartWords(parts[0]) + PartsWords(parts[1..])
  }

  lemma SpacedWord(w: string, later: string)
    requires NoSpaces(w) && w != "" && (later == "" || IsSpace(later[0]))
    ensures Words(" " + w + later) == [w] + Words(later)
  {
    assert (" " + w + later)[1..] == w + later;
    WordsThen(w, later);
  }

  lemma SpacedText(text: string, w: string, later: string)
    requires text == " " + w && NoSpaces(w) && w != "" && (later == "" || IsSpace(later[0]))
    ensures Words(text + later) == [w] + Words(later)
  {
    SpacedWord(w, later);
  }

  lemma UpperWord(w: string)
    requires NoSpaces(w)
    ensures NoSpaces(Upper(w))
  {
  }

  lemma UpperSpaced(w: string)
    ensures Upper(" " + w) == " " + Upper(w)
  {
  }

  lemma NullShows(later: string)
    requires later == "" || IsSpace(later[0])
    ensures Words(Upper(" NULL") + later) == ["NULL"] + Words(later)
  {
    var mark, w := " NULL", "NULL";
    MarksAreUpper();
    SpacedText(mark, w, later);
  }

  lemma NotNullShows(later: string)
    requires later == "" || IsSpace(later[0])
    ensures Words(Upper(" NOT NULL") + later) == ["NOT", "NULL"] + Words(later)
  {
    var first, second, a, b := " NOT", " NULL", "NOT", "NULL";
    MarksAreUpper();
    JoinedTexts(" NOT NULL", first, second, a, b, later);
    assert [a] + [b] == ["NOT", "NULL"];
  }

  lemma JoinedTexts(text: string, first: string, second: string, a: string, b: string, later: string)
    requires text == first + second && first == " " + a && second == " " + b
    requires NoSpaces(a) && a != "" && NoSpaces(b) && b != "" && (later == "" || IsSpace(later[0]))
    ensures Words(text + later) == [a] + [b] + Words(later)
  {
    Append(first, second, later);
    SpacedText(second, b, later);
    SpacedText(first, a, second + later);
    Append([a], [b], Words(later));
  }

  lemma MarksAreUpper()
    ensures Upper(" NULL") == " NULL" && Upper(" NOT NULL") == " NOT NULL"
  {
  }

  lemma GroupShows(inner: string, later: string)
    requires NoSpaces(inner) && (later == "" || IsSpace(later[0]))
    ensures Words(Upper(" (" + (inner + ")")) + later) == ["(" + Upper(inner) + ")"] + Words(later)
  {
    var word := "(" + inner + ")";
    UpperSpaced(word);
    UpperWord(word);
    assert " (" + (inner + ")") == " " + word;
    assert Upper(word) == "(" + Upper(inner) + ")";
    SpacedWord(Upper(word), later);
  }

  lemma PartShows(p: Part, later: string)
    requires IsModifier(p) && (later == "" || IsSpace(later[0]))
    ensures Words(Upper(ShownText(p)) + later) == PartWords(p) + Words(later)
  {
    match p
    case NullMark => NullShows(later);
    case NotNullMark => NotNullShows(later);
    case Bare(word) =>
      UpperSpaced(word);
      UpperWord(word);
      SpacedWord(Upper(word), later);
    case Phrase(_, _) =>
      assert Upper(ShownText(p)) == ShownText(p);
      WordsSkip(ShownText(p), later);
    case Group(bits) =>
      OneBit(bits);
      GroupShows(BitsText(bits), later);
  }

  lemma ShownStarts(parts: seq<Part>)
    ensures ShownParts(parts) == "" || IsSpace(ShownParts(parts)[0])
    ensures Upper(ShownParts(parts)) == "" || IsSpace(Upper(ShownParts(parts))[0])
  {
    if parts != [] {
      assert ShownText(parts[0])[0] == ' ';
    }
  }

  lemma {:induction false} PartsShow(parts: seq<Part>)
    requires forall p | p in parts :: IsModifier(p)
    ensures Words(Upper(ShownParts(parts))) == PartsWords(parts)
  {
    if parts == [] {
      assert Upper("") == "";
    } else {
      ShownStarts(parts[1..]);
      UpperConcat(ShownText(parts[0]), ShownParts(parts[1..]));
      PartShows(parts[0], Upper(ShownParts(parts[1..])));
      PartsShow(parts[1..]);
    }
  }

  lemma PartSaysNot(p: Part)
    requires IsModifier(p)
    ensures "NOT" in PartWords(p) <==> p == NotNullMark
  {
    if p.Group? {
      assert PartWords(p)[0][0] == '(';
    } else if p.NotNullMark? {
      assert PartWords(p)[0] == "NOT";
    }
  }

  /** Among words and modifiers only the marker is NOT NULL. */
  lemma {:induction false} MarkerIsSeen(before: seq<string>, parts: seq<Part>)
    requires "NOT" !in before && forall p | p in parts :: IsModifier(p)
    ensures NotNullIn(before + PartsWords(parts)) <==> NotNullMark in parts
    decreases |parts|
  {
    if parts == [] {
      assert before + [] == before;
    } else {
      var p, later := parts[0], PartsWords(parts[1..]);
      PartSaysNot(p);
      Append(before, PartWords(p), later);
      if p == NotNullMark {
        var words := before + (PartWords(p) + later);
        assert words[|before|] == "NOT" && words[|before| + 1] == "NULL";
      } else {
        MarkerIsSeen(before + PartWords(p), parts[1..]);
      }
    }
  }

  lemma ModifiersAfterType(space: string, w: string, parts: seq<Part>)
    requires AllSpaces(space) && AllBenign(w) && Upper(w) != "NOT" && forall p | p in parts :: IsModifier(p)
    ensures NotNullIn(Words(Upper(Blanked(space + (w + PartsText(parts)), None, false)))) <==> NotNullMark in parts
  {
    var shown := ShownParts(parts);
    QuoteFree(space, w);
    Append(space, w, PartsText(parts));
    UnquotedThen(space + w, PartsText(parts));
    PartsBlanked(parts);
    Append(space, w, shown);
    UpperAfterSpace(space, w, shown);
    WordsSkip(space, Upper(w) + Upper(shown));
    UpperBenign(w);
    ShownStarts(parts);
    WordsThen(Upper(w), Upper(shown));
    PartsShow(parts);
    MarkerIsSeen(if Upper(w) == "" then [] else [Upper(w)], parts);
  }

  lemma QuoteFree(space: string, w: string)
    requires AllSpaces(space) && AllBenign(w)
    ensures forall i | 0 <= i < |space + w| :: !IsQuote((space + w)[i])
  {
    forall i | 0 <= i < |w|
      ensures !IsQuote(w[i])
    {
      assert Benign(w[i]);
    }
  }

  lemma ShiftedNullability(c: WrittenColumn, shifted: string)
    requires ColumnOk(c)
    requires shifted == (c.gap + (SqlName(c.ty) + PartsText(c.modifiers)))[|SqlName(c.ty)|..]
    ensures NotNullIn(Words(Upper(Blanked(shifted, None, false)))) <==> NotNullMark in c.modifiers
  {
    var t := SqlName(c.ty);
    var space, k := ShiftedText(c.gap, t, PartsText(c.modifiers));
    PrintedLevel(c.ty, Both);
    WalkBenign(t, 0, Both);
    PrintedEnd(c.ty);
    EndIsNotNOT(t, k);
    ModifiersAfterType(space, t[k..], c.modifiers);
  }

  // The column

  lemma TextParts(name: string, gap: string, typed: string)
    requires Lacks(name, '`') && AllSpaces(gap) && typed != "" && !IsSpace(typed[0])
    ensures ReadIdent(Quoted(name, gap + typed)) == Some(Ident(name, |name| + 2))
    ensures Quoted(name, gap + typed)[|name| + 2..] == gap + typed
    ensures TrimStart(gap + typed) == typed
  {
    ReadsQuoted(name, gap + typed);
    TrimStartSkips(gap, typed);
  }

  lemma ModifiersFollow(parts: seq<Part>)
    requires ModifiersOk(parts)
    ensures Follows(PartsText(parts))
  {
    if parts != [] {
      var p := parts[0];
      assert IsModifier(p);
      var first := PartText(p);
      assert |first| >= 2 && first[0] == ' ' && !IsSpace(first[1]) && first[1] != '(';
      assert PartsText(parts)[0] == first[0] && PartsText(parts)[1] == first[1];
    }
  }

  lemma ColumnParts(c: WrittenColumn)
    requires ColumnOk(c)
    ensures var entry, t, tail := ColumnText(c), SqlName(c.ty), PartsText(c.modifiers);
            && ReadIdent(entry) == Some(Ident(c.name, |c.name| + 2))
            && entry[|c.name| + 2..] == c.gap + (t + tail)
            && TrimStart(c.gap + (t + tail)) == t + tail != ""
            && TypeToken(t + tail) == (t, |t|)
  {
    PrintedTidy(c.ty);
    ModifiersFollow(c.modifiers);
    TypedParts(c.name, c.gap, SqlName(c.ty), PartsText(c.modifiers));
    TokenOfPrinted(c.ty, PartsText(c.modifiers));
  }

  lemma TypedParts(name: string, gap: string, t: string, tail: string)
    requires Lacks(name, '`') && AllSpaces(gap) && Tidy(t)
    ensures var entry := Quoted(name, gap + (t + tail));
            && ReadIdent(entry) == Some(Ident(name, |name| + 2))
            && entry[|name| + 2..] == gap + (t + tail)
            && TrimStart(gap + (t + tail)) == t + tail != ""
  {
    assert (t + tail)[0] == t[0];
    TextParts(name, gap, t + tail);
  }

  /** A written column reads back with its name, its type and its nullability,
      whatever blanks stand between name and type. */
  lemma ColumnReadsBack(c: WrittenColumn)
    requires ColumnOk(c)
    ensures ParseColumn(ColumnText(c)) == Ok(ColumnOf(c))
  {
    var t, afterName := SqlName(c.ty), c.gap + (SqlName(c.ty) + PartsText(c.modifiers));
    ColumnParts(c);
    PrintRoundTrip(c.ty);
    ColumnReads(ColumnText(c), Ident(c.name, |c.name| + 2), afterName, t, c.ty);
    ShiftedNullability(c, afterName[|t|..]);
  }

  /** What `parse_column` makes of an entry whose name and type read. */
  lemma ColumnReads(entry: string, id: Ident, afterName: string, t: string, ty: DorisType)
    requires ReadIdent(entry) == Some(id) && afterName == entry[id.used..] && |t| <= |afterName|
    requires TrimStart(afterName) != "" && TypeToken(TrimStart(afterName)) == (t, |t|) && ParseType(t) == Ok(ty)
    ensures ParseColumn(entry) ==
            Ok(Column(id.name, ty, !NotNullIn(Words(Upper(Blanked(afterName[|t|..], None, false))))))
  {
  }

  lemma ColumnTrims(c: WrittenColumn)
    requires ColumnOk(c)
    ensures Trim(ColumnText(c)) == ColumnText(c) != "" && ColumnText(c)[0] == '`'
  {
    PrintedTidy(c.ty);
    PartsEnd(c.modifiers);
    TypedTrims(c.name, c.gap, SqlName(c.ty), PartsText(c.modifiers));
  }

  lemma TypedTrims(name: string, gap: string, t: string, tail: string)
    requires Tidy(t) && (tail == "" || !IsSpace(tail[|tail| - 1]))
    ensures var entry := Quoted(name, gap + (t + tail)); Trim(entry) == entry != "" && entry[0] == '`'
  {
    EndsUnspaced(t, tail);
    QuotedTrims(name, gap, t + tail);
  }

  lemma PartEnds(p: Part)
    requires PartOk(p)
    ensures PartText(p) != "" && !IsSpace(PartText(p)[|PartText(p)| - 1])
  {
  }

  lemma {:induction false} PartsEnd(parts: seq<Part>)
    requires PartsOk(parts)
    ensures var text := PartsText(parts); text == "" || !IsSpace(text[|text| - 1])
  {
    if parts != [] {
      PartEnds(parts[0]);
      PartsEnd(parts[1..]);
      EndOfJoin(PartText(parts[0]), PartsText(parts[1..]));
    }
  }

  lemma EndOfJoin(a: string, b: string)
    requires a != ""
    ensures (a + b)[|a + b| - 1] == if b == "" then a[|a| - 1] else b[|b| - 1]
  {
  }

  lemma EndsUnspaced(t: string, tail: string)
    requires Tidy(t) && (tail == "" || !IsSpace(tail[|tail| - 1]))
    ensures t + tail != "" && !IsSpace((t + tail)[|t + tail| - 1])
  {
    assert (t + tail)[|t + tail| - 1] == if tail == "" then t[|t| - 1] else tail[|tail| - 1];
  }

  lemma QuotedTrims(name: string, gap: string, end: string)
    requires end != "" && !IsSpace(end[|end| - 1])
    ensures var entry := Quoted(name, gap + end); Trim(entry) == entry != "" && entry[0] == '`'
  {
    var entry := Quoted(name, gap + end);
    assert entry[|entry| - 1] == end[|end| - 1];
    TrimClean(entry);
  }

  lemma TickedIsColumn(entry: string)
    requires entry != "" && entry[0] == '`'
    ensures !IsNonColumnEntry(entry)
  {
    assert Words(entry)[0][0] == '`';
  }

  /** A written column between blanks is an entry of its own. */
  lemma EntryReadsBack(c: WrittenColumn, before: string, after: string)
    requires ColumnOk(c) && AllSpaces(before) && AllSpaces(after)
    ensures ParseEntry(before + (ColumnText(c) + after)) == Ok([ColumnOf(c)])
  {
    ColumnTrims(c);
    TrimsTo(before, ColumnText(c), after);
    TickedIsColumn(ColumnText(c));
    ColumnReadsBack(c);
  }

  lemma {:induction false} TrimEndSkips(s: string, space: string)
    requires AllSpaces(space)
    ensures TrimEnd(s + space) == TrimEnd(s)
  {
    if space == "" {
      assert s + space == s;
    } else {
      var init := space[..|space| - 1];
      assert (s + space)[..|s + space| - 1] == s + init;
      TrimEndSkips(s, init);
    }
  }

  lemma TrimsTo(before: string, e: string, after: string)
    requires AllSpaces(before) && AllSpaces(after) && e != "" && !IsSpace(e[0]) && Trim(e) == e
    ensures Trim(before + (e + after)) == e
  {
    TrimStartSkips(before, e + after);
    assert TrimStart(e + after) == e + after;
    TrimEndSkips(e, after);
    assert TrimStart(e) == e;
  }
}
