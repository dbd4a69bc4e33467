/** What `parse_column` reads as modifiers.

    The offset of the modifiers is counted from the type but applied to text that
    still has the blanks before it (src/schema.rs, line 400), so as many
    characters of the blanks and the type are read again before them. */
module NullabilityRead {
  import opened Wrappers
  import opened Chars
  import opened Scanners
  import opened TypeParser
  import opened PrintedTypes
  import opened TypeRoundTrip
  import opened Literals
  import opened Ddl
  import opened ColumnRoundTrip
  import opened Comments

  // Words of joined text

  lemma {:induction false} FirstWordPrefix(s: string)
    ensures |FirstWord(s)| <= |s| && FirstWord(s) == s[..|FirstWord(s)|]
  {
    if s != "" && !IsSpace(s[0]) {
      FirstWordPrefix(s[1..]);
    }
  }

  lemma {:induction false} FirstWordStops(s: string)
    ensures NoSpaces(FirstWord(s))
    ensures |FirstWord(s)| < |s| ==> IsSpace(s[|FirstWord(s)|])
  {
    if s != "" && !IsSpace(s[0]) {
      FirstWordStops(s[1..]);
    }
  }

  lemma SplitAt(s: string, w: string)
    requires |w| <= |s| && w == s[..|w|]
    ensures s == w + s[|w|..]
  {
  }

  lemma FirstWordSome(s: string)
    requires s != "" && !IsSpace(s[0])
    ensures FirstWord(s) != ""
  {
  }

  lemma FirstWordSplits(s: string)
    requires s != "" && !IsSpace(s[0])
    ensures var w := FirstWord(s);
            w != "" && |w| <= |s| && NoSpaces(w) && s == w + s[|w|..] && (|w| < |s| ==> IsSpace(s[|w|]))
  {
    var w := FirstWord(s);
    FirstWordPrefix(s);
    FirstWordStops(s);
    FirstWordSome(s);
    SplitAt(s, w);
  }

  /** Nothing, or a blank, at the seam. */
  predicate Parted(a: string, b: string) {
    a == "" || b == "" || IsSpace(a[|a| - 1]) || IsSpace(b[0])
  }

  lemma {:induction false} WordsParted(a: string, b: string)
    requires Parted(a, b)
    ensures Words(a + b) == Words(a) + Words(b)
    decreases |a|
  {
    if a == "" {
      assert a + b == b;
    } else if IsSpace(a[0]) {
      assert (a + b)[1..] == a[1..] + b;
      WordsParted(a[1..], b);
    } else {
      var w := FirstWord(a);
      FirstWordSplits(a);
      var rest := a[|w|..];
      if rest == "" {
        assert a == w;
        OneWordText(w);
        WordsThen(w, b);
      } else {
        WordsParted(rest, b);
        WordAhead(w, rest, rest + b, Words(b));
        Append(w, rest, b);
      }
    }
  }

  lemma WordAhead(w: string, rest: string, c: string, after: seq<string>)
    requires w != "" && NoSpaces(w) && rest != "" && IsSpace(rest[0]) && c != "" && c[0] == rest[0]
    requires Words(c) == Words(rest) + after
    ensures Words(w + c) == Words(w + rest) + after
  {
    WordsThen(w, c);
    WordsThen(w, rest);
    Append([w], Words(rest), after);
  }

  /** The words of two texts joined without a blank: the last word of the one
      and the first of the other become one. */
  predicate Joins(x: seq<string>, y: seq<string>, joined: seq<string>) {
    x != [] && y != [] && joined == x[..|x| - 1] + [x[|x| - 1] + y[0]] + y[1..]
  }

  predicate StartsAs(words: seq<string>, c: char) {
    words != [] && words[0] != "" && words[0][0] == c
  }

  predicate EndsAs(words: seq<string>, c: char) {
    words != [] && var last := words[|words| - 1]; last != "" && last[|last| - 1] == c
  }

  lemma FirstOfWords(b: string)
    requires b != "" && !IsSpace(b[0])
    ensures Words(b) == [FirstWord(b)] + Words(b[|FirstWord(b)|..])
    ensures StartsAs(Words(b), b[0])
  {
    FirstWordSplits(b);
  }

  lemma OneWordText(w: string)
    requires w != "" && NoSpaces(w)
    ensures Words(w) == [w]
  {
    assert w + "" == w;
    WordsThen(w, "");
  }

  lemma JoinWord(w: string, b: string)
    requires w != "" && NoSpaces(w) && b != "" && !IsSpace(b[0])
    ensures Words(w) == [w] && Joins(Words(w), Words(b), Words(w + b))
  {
    var v := FirstWord(b);
    FirstWordSplits(b);
    FirstOfWords(b);
    OneWordText(w);
    FirstWordGrows(w, v, b[|v|..], b);
    JoinOne(w, v, Words(b[|v|..]), Words(b), Words(w + b));
  }

  lemma FirstWordGrows(w: string, v: string, tail: string, b: string)
    requires w != "" && NoSpaces(w) && NoSpaces(v) && (tail == "" || IsSpace(tail[0])) && b == v + tail
    ensures Words(w + b) == [w + v] + Words(tail)
  {
    assert w + b == (w + v) + tail;
    WordsThen(w + v, tail);
  }

  lemma JoinOne(w: string, v: string, rest: seq<string>, y: seq<string>, joined: seq<string>)
    requires y == [v] + rest && joined == [w + v] + rest
    ensures Joins([w], y, joined)
  {
    assert y[0] == v && y[1..] == rest;
    assert [w][..0] + [w + v] + rest == joined;
  }

  lemma JoinLater(w: string, x: seq<string>, y: seq<string>, joined: seq<string>)
    requires Joins(x, y, joined)
    ensures Joins([w] + x, y, [w] + joined)
  {
    assert ([w] + x)[..|x|] == [w] + x[..|x| - 1];
  }

  lemma {:induction false} WordsGlued(a: string, b: string)
    requires !Parted(a, b)
    ensures Joins(Words(a), Words(b), Words(a + b))
    ensures EndsAs(Words(a), a[|a| - 1]) && StartsAs(Words(b), b[0])
    decreases |a|
  {
    FirstOfWords(b);
    if IsSpace(a[0]) {
      assert (a + b)[1..] == a[1..] + b;
      WordsGlued(a[1..], b);
    } else {
      var w := FirstWord(a);
      FirstWordSplits(a);
      var rest := a[|w|..];
      if rest == "" {
        assert a == w;
        JoinWord(w, b);
      } else {
        assert a + b == w + (rest + b);
        WordsThen(w, rest + b);
        WordsThen(w, rest);
        WordsGlued(rest, b);
        JoinLater(w, Words(rest), Words(b), Words(rest + b));
      }
    }
  }

  lemma NotNullConcat(x: seq<string>, y: seq<string>)
    ensures NotNullIn(x + y) <==>
            NotNullIn(x) || NotNullIn(y) || (x != [] && y != [] && x[|x| - 1] == "NOT" && y[0] == "NULL")
  {
    var z := x + y;
    if NotNullIn(x) {
      var i :| 0 <= i < |x| - 1 && x[i] == "NOT" && x[i + 1] == "NULL";
      assert z[i] == "NOT" && z[i + 1] == "NULL";
    }
    if NotNullIn(y) {
      var i :| 0 <= i < |y| - 1 && y[i] == "NOT" && y[i + 1] == "NULL";
      assert z[|x| + i] == "NOT" && z[|x| + i + 1] == "NULL";
    }
    if x != [] && y != [] && x[|x| - 1] == "NOT" && y[0] == "NULL" {
      assert z[|x| - 1] == "NOT" && z[|x| - 1 + 1] == "NULL";
    }
    if NotNullIn(z) {
      var i :| 0 <= i < |z| - 1 && z[i] == "NOT" && z[i + 1] == "NULL";
      if i + 1 < |x| {
        assert x[i] == "NOT" && x[i + 1] == "NULL";
      } else if i >= |x| {
        assert y[i - |x|] == "NOT" && y[i - |x| + 1] == "NULL";
      }
    }
  }

  /** Not a keyword: it holds a character no identifier has. */
  predicate Odd(word: string) {
    exists i | 0 <= i < |word| :: !IsIdent(word[i])
  }

  lemma OddWord(word: string)
    requires Odd(word)
    ensures word != "NOT" && word != "NULL"
  {
  }

  /** An odd last word takes part in no NOT NULL. */
  lemma OddLast(x: seq<string>, last: string)
    requires Odd(last)
    ensures NotNullIn(x + [last]) <==> NotNullIn(x)
  {
    OddWord(last);
    NotNullConcat(x, [last]);
  }

  lemma OddMiddle(x: seq<string>, odd: string, y: seq<string>)
    requires Odd(odd)
    ensures NotNullIn(x + [odd] + y) <==> NotNullIn(x) || NotNullIn(y)
  {
    OddWord(odd);
    NotNullConcat(x, [odd]);
    NotNullConcat(x + [odd], y);
  }

  // Text read before the modifiers

  /** How text may end where other text goes on: not in a word that could be
      part of a marker. */
  predicate Seam(a: string, b: string) {
    a != "" && b != "" ==>
      var last := a[|a| - 1];
      && !IsSpace(last)
      && (IsIdent(last) ==> |Words(a)| == 1 && Words(a)[0] != "NOT" && !IsIdent(b[0]))
  }

  lemma LastOfWords(a: string)
    requires a != "" && !IsSpace(a[|a| - 1])
    ensures EndsAs(Words(a), a[|a| - 1])
  {
    WordsGlued(a, ".");
  }

  lemma SeamParted(a: string, b: string)
    requires Seam(a, b) && Parted(a, b)
    ensures NotNullIn(Words(a + b)) <==> NotNullIn(Words(a)) || NotNullIn(Words(b))
  {
    WordsParted(a, b);
    NotNullConcat(Words(a), Words(b));
    if a != "" && b != "" {
      LastOfWords(a);
      var last := Words(a)[|Words(a)| - 1];
      if !IsIdent(last[|last| - 1]) {
        OddWord(last);
      }
    }
  }

  lemma SeamGlued(a: string, b: string)
    requires Seam(a, b) && !Parted(a, b)
    ensures Words(b) != []
    ensures NotNullIn(Words(a + b)) <==> NotNullIn(Words(a)) || NotNullIn(Words(b)[1..])
  {
    WordsGlued(a, b);
    LastOfWords(a);
    JoinedOdd(Words(a), Words(b), Words(a + b), a[|a| - 1], b[0]);
  }

  /** A marker in joined lists is one in the first or after the word joined. */
  lemma JoinedOdd(x: seq<string>, y: seq<string>, joined: seq<string>, c: char, d: char)
    requires Joins(x, y, joined) && EndsAs(x, c) && StartsAs(y, d)
    requires IsIdent(c) ==> |x| == 1 && x[0] != "NOT" && !IsIdent(d)
    ensures NotNullIn(joined) <==> NotNullIn(x) || NotNullIn(y[1..])
  {
    var init, last := x[..|x| - 1], x[|x| - 1];
    assert x == init + [last];
    OddJoin(last, y[0], c, d);
    OddMiddle(init, last + y[0], y[1..]);
    if !IsIdent(c) {
      OddLast(init, last);
    }
  }

  lemma OddJoin(last: string, next: string, c: char, d: char)
    requires last != "" && last[|last| - 1] == c && next != "" && next[0] == d && !(IsIdent(c) && IsIdent(d))
    ensures Odd(last + next)
    ensures !IsIdent(c) ==> Odd(last)
  {
    assert (last + next)[|last| - 1] == c && (last + next)[|last|] == d;
  }

  // The parts of an entry

  /** The blanks before the type, the type text, and what follows it. */
  datatype Parts = Parts(gap: string, typed: string, modifiers: string)

  function PartsOf(entry: string): Parts
    requires ReadIdent(entry).Some?
  {
    var afterName := entry[ReadIdent(entry).value.used..];
    var rest := TrimStart(afterName);
    var end := TypeToken(rest).1;
    Parts(afterName[..|afterName| - |rest|], rest[..end], rest[end..])
  }

  /** As many characters of the blanks and the type as there are blanks: what
      is read before the modifiers. */
  function Reread(p: Parts): string {
    (p.gap + p.typed)[|p.typed|..]
  }

  function Modifiers(text: string): seq<string> {
    Words(Upper(Blanked(text, None, false)))
  }

  /** The text says NOT NULL, in words outside literals. */
  predicate SaysNotNull(text: string) {
    NotNullIn(Modifiers(text))
  }

  lemma {:induction false} TrimStartParts(s: string)
    ensures var rest := TrimStart(s);
            && AllSpaces(s[..|s| - |rest|]) && s == s[..|s| - |rest|] + rest
            && (rest != "" ==> !IsSpace(rest[0]))
  {
    if s != "" && IsSpace(s[0]) {
      TrimStartParts(s[1..]);
      var rest := TrimStart(s[1..]);
      assert s[..|s| - |rest|] == [s[0]] + s[1..][..|s[1..]| - |rest|];
    }
  }

  lemma TokenIsPrefix(input: string)
    ensures TypeToken(input).0 == TrimEnd(input[..TypeToken(input).1])
  {
  }

  lemma NoTypeText()
    ensures ParseType("") == Err(MissingType)
  {
  }

  lemma JoinedParts(whole: string, gap: string, typed: string, modifiers: string)
    requires whole == gap + (typed + modifiers)
    ensures whole[|typed|..] == (gap + typed)[|typed|..] + modifiers
  {
    assert whole == (gap + typed) + modifiers;
  }

  lemma CutAt(s: string, end: nat)
    requires end <= |s|
    ensures s == s[..end] + s[end..]
  {
  }

  lemma PartsOfRest(afterName: string, rest: string, end: nat)
    requires rest == TrimStart(afterName) && end <= |rest|
    ensures var gap, typed, modifiers := afterName[..|afterName| - |rest|], rest[..end], rest[end..];
            && AllSpaces(gap) && rest == typed + modifiers && afterName == gap + rest
            && (typed != "" ==> !IsSpace(typed[0]))
  {
    TrimStartParts(afterName);
    CutAt(rest, end);
  }

  lemma PartsJoin(entry: string)
    requires ReadIdent(entry).Some?
    ensures var p := PartsOf(entry);
            var afterName := entry[ReadIdent(entry).value.used..];
            && AllSpaces(p.gap) && afterName == p.gap + (p.typed + p.modifiers)
            && TrimStart(afterName) == p.typed + p.modifiers
            && (p.typed != "" ==> !IsSpace(p.typed[0]))
            && TypeToken(p.typed + p.modifiers) == (TrimEnd(p.typed), |p.typed|)
  {
    var afterName := entry[ReadIdent(entry).value.used..];
    var rest := TrimStart(afterName);
    TokenIsPrefix(rest);
    PartsOfRest(afterName, rest, TypeToken(rest).1);
  }

  lemma ReadsModifiers(entry: string)
    requires ParseColumn(entry).Ok?
    ensures ReadIdent(entry).Some?
    ensures var p := PartsOf(entry);
            && p.typed != "" && ParseType(TrimEnd(p.typed)).Ok?
            && ParseColumn(entry).value.nullable == !SaysNotNull(Reread(p) + p.modifiers)
  {
    var p := PartsOf(entry);
    PartsJoin(entry);
    JoinedParts(entry[ReadIdent(entry).value.used..], p.gap, p.typed, p.modifiers);
    NoTypeText();
  }

  // Where a type ends

  lemma {:induction false} AngleEndShape(s: string, depth: nat)
    ensures AngleEnd(s, depth) < |s| ==> AngleEnd(s, depth) > 0 && s[AngleEnd(s, depth) - 1] == '>'
  {
    if s != "" && s[0] == '<' {
      AngleEndShape(s[1..], depth + 1);
    } else if s != "" && !(s[0] == '>' && depth <= 1) {
      AngleEndShape(s[1..], if s[0] == '>' then depth - 1 else depth);
    }
  }

  lemma {:induction false} NameEndShape(s: string)
    ensures var k := NameEnd(s);
            k < |s| ==> (k > 0 && s[k - 1] == '>') || (AllIdent(s[..k]) && !IsIdent(s[k]))
  {
    if s != "" && s[0] == '<' {
      AngleEndShape(s, 0);
    } else if s != "" && IsIdent(s[0]) {
      NameEndShape(s[1..]);
      var k := NameEnd(s);
      assert s[..k] == [s[0]] + s[1..][..k - 1];
    }
  }

  lemma {:induction false} ClosingIsParen(s: string, at: nat, depth: nat, quote: Quote)
    ensures var k := ClosingParen(s, at, depth, quote); k.Some? ==> s[k.value - at] == ')'
    decreases |s|
  {
    if s == "" {
    } else if quote.Some? {
      if s[0] == '\\' && quote.value != '`' {
        if |s| >= 2 {
          ClosingIsParen(s[2..], at + 2, depth, quote);
        }
      } else {
        ClosingIsParen(s[1..], at + 1, depth, if s[0] == quote.value then None else quote);
      }
    } else if IsQuote(s[0]) {
      ClosingIsParen(s[1..], at + 1, depth, Some(s[0]));
    } else if s[0] == '(' {
      ClosingIsParen(s[1..], at + 1, depth + 1, None);
    } else if !(s[0] == ')' && depth <= 1) {
      ClosingIsParen(s[1..], at + 1, if s[0] == ')' then depth - 1 else depth, None);
    }
  }

  /** Where text goes on after a type, the type ends in a bracket or is a bare
      name that the text does not go on with. */
  predicate EndsWell(typed: string, modifiers: string) {
    typed != "" && modifiers != "" ==>
      || typed[|typed| - 1] == '>' || typed[|typed| - 1] == ')'
      || (AllIdent(typed) && !IsIdent(modifiers[0]))
  }

  lemma TokenEndsWell(input: string)
    ensures var end := TypeToken(input).1; EndsWell(input[..end], input[end..])
  {
    var index := NameEnd(input);
    NameEndShape(input);
    var open := ArgsOpen(input, index);
    if open.Some? {
      ClosingIsParen(input[open.value..], open.value, 0, None);
    }
  }

  // No type name ends like the first word of a marker

  lemma PlainName(name: string)
    requires ParsePlain(name).Ok?
    ensures name != "" && !EndsInOT(name)
  {
  }

  lemma ScalarName(name: string)
    requires ParseScalar(name, []).Ok?
    ensures name != "" && !EndsInOT(name)
  {
    if ParseScalar(name, []) == ParsePlain(name) {
      PlainName(name);
    }
  }

  lemma NoBrackets(t: string)
    requires AllIdent(t) && t != ""
    ensures IndexOf(t, '(') == |t| == IndexOf(t, '<')
  {
  }

  lemma NameStays(t: string)
    requires AllIdent(t) && t != ""
    ensures TrimEnd(t) == t && Trim(t) == t && StripNullability(t) == t
  {
    assert !IsSpace(t[0]) && !IsSpace(t[|t| - 1]);
    TrimClean(t);
    StripNothing(t);
  }

  lemma TakeName(t: string)
    requires AllIdent(t) && t != ""
    ensures TakeApart(t) == ScalarText(Upper(t), [])
  {
    NameStays(t);
    NoBrackets(t);
    assert SplitArgs(t) == (t, []);
  }

  lemma BareTypeEnd(t: string)
    requires AllIdent(t) && t != "" && ParseType(TrimEnd(t)).Ok?
    ensures !EndsInOT(t)
  {
    NameStays(t);
    TakeName(t);
    ScalarReads(t, Upper(t), []);
    ScalarName(Upper(t));
  }

  // The seam between what is read again and the modifiers

  function Read(text: string): string {
    Upper(Blanked(text, None, false))
  }

  lemma RereadShape(p: Parts) returns (space: string, k: nat)
    requires AllSpaces(p.gap)
    ensures k <= |p.typed| && AllSpaces(space) && Reread(p) == space + p.typed[k..]
    ensures |Reread(p)| == |p.gap|
    ensures p.gap != "" && p.typed != "" ==> k < |p.typed|
  {
    if |p.gap| <= |p.typed| {
      space, k := "", |p.typed| - |p.gap|;
    } else {
      space, k := p.gap[|p.typed|..], 0;
    }
    assert Reread(p) == space + p.typed[k..];
  }

  /** Text that leaves no literal open keeps its last character. */
  lemma LastStays(s: string)
    requires s != "" && OpenAfter(s).quote.None? && !IsQuote(s[|s| - 1])
    ensures Blanked(s, None, false)[|s| - 1] == s[|s| - 1]
  {
    var init, last := s[..|s| - 1], s[|s| - 1];
    assert s == init + [last];
    InsideConcat(init, [last], OUTSIDE);
    OpenIsQuote(init, OUTSIDE);
    assert [last][1..] == "";
    BlankedAt(s, |s| - 1);
  }

  /** Text that leaves a literal open ends in a blank. */
  lemma OpenEndsBlank(s: string)
    requires OpenAfter(s).quote.Some?
    ensures s != "" && Blanked(s, None, false)[|s| - 1] == ' '
  {
    var init, last := s[..|s| - 1], s[|s| - 1];
    assert s == init + [last];
    InsideConcat(init, [last], OUTSIDE);
    assert [last][1..] == "";
    BlankedAt(s, |s| - 1);
  }

  /** What is read again of a bare type name is one word, not a marker's. */
  lemma BareNameRead(space: string, name: string)
    requires AllSpaces(space) && AllIdent(name) && name != "" && Upper(name) != "NOT"
    ensures OpenAfter(space + name).quote.None? && Read(space + name) == space + Upper(name)
    ensures Words(Read(space + name)) == [Upper(name)]
  {
    var w := space + name;
    assert forall i | 0 <= i < |w| :: !IsQuote(w[i]);
    UnquotedStays(w);
    UnquotedOutside(w);
    UpperConcat(space, name);
    assert Upper(space) == space;
    WordsSkip(space, Upper(name));
    WordsThen(Upper(name), "");
    assert Upper(name) + "" == Upper(name);
  }

  lemma {:induction false} UnquotedOutside(s: string)
    requires forall i | 0 <= i < |s| :: !IsQuote(s[i])
    ensures OpenAfter(s) == OUTSIDE
  {
    if s != "" {
      UnquotedOutside(s[1..]);
    }
  }

  predicate Accepted(p: Parts) {
    && AllSpaces(p.gap) && p.typed != "" && EndsWell(p.typed, p.modifiers)
    && ParseType(TrimEnd(p.typed)).Ok?
  }

  lemma SeamAfterBracket(w: string, b: string)
    requires w != "" && OpenAfter(w).quote.None? && (w[|w| - 1] == '>' || w[|w| - 1] == ')')
    ensures Seam(Read(w), b)
  {
    LastStays(w);
  }

  lemma SeamAfterName(space: string, name: string, m: string)
    requires AllSpaces(space) && AllIdent(name) && name != "" && Upper(name) != "NOT"
    requires m != "" && !IsIdent(m[0])
    ensures Seam(Read(space + name), Read(m))
  {
    BareNameRead(space, name);
    BlankedAt(m, 0);
    assert m[..0] == "";
    var a := Read(space + name);
    assert a[|a| - 1] == UpperChar(name[|name| - 1]);
    assert !IsIdent(Read(m)[0]);
  }

  lemma SeamOf(space: string, typed: string, k: nat, w: string, m: string)
    requires AllSpaces(space) && k < |typed| && w == space + typed[k..] && OpenAfter(w).quote.None?
    requires m != "" && EndsWell(typed, m) && (AllIdent(typed) ==> !EndsInOT(typed))
    ensures Seam(Read(w), Read(m))
  {
    assert w[|w| - 1] == typed[|typed| - 1];
    if typed[|typed| - 1] == '>' || typed[|typed| - 1] == ')' {
      SeamAfterBracket(w, Read(m));
    } else {
      EndIsNotNOT(typed, k);
      SeamAfterName(space, typed[k..], m);
    }
  }

  lemma NothingRead(s: string)
    requires s == ""
    ensures Read(s) == ""
  {
  }

  lemma SeamHolds(p: Parts)
    requires Accepted(p) && OpenAfter(Reread(p)).quote.None?
    ensures Seam(Read(Reread(p)), Read(p.modifiers))
  {
    var w, m := Reread(p), p.modifiers;
    var space, k := RereadShape(p);
    if w == "" {
      NothingRead(w);
    } else if m == "" {
      NothingRead(m);
    } else {
      if AllIdent(p.typed) {
        BareTypeEnd(p.typed);
      }
      SeamOf(space, p.typed, k, w, m);
    }
  }

  // What is read

  /** The modifiers follow the type without a blank, and some of it is read
      again: their first word is taken for the end of the type. */
  predicate Glued(w: string, m: string) {
    w != "" && m != "" && !IsSpace(m[0]) && !IsQuote(m[0])
  }

  /** The modifiers without what the type swallows. */
  function Unswallowed(w: string, m: string): seq<string> {
    if Glued(w, m) && Modifiers(m) != [] then Modifiers(m)[1..] else Modifiers(m)
  }

  /** NOT NULL is found in `m` read after `w`: in `w` itself or in what is left
      of the modifiers; when `w` leaves a literal open, only after its end. */
  predicate Found(w: string, m: string) {
    var inside := OpenAfter(w);
    match inside.quote
    case None => SaysNotNull(w) || NotNullIn(Unswallowed(w, m))
    case Some(active) => NotNullIn(Modifiers(w) + Modifiers(AfterLiteral(m, active, inside.escaped)))
  }

  lemma UpperSpaces(n: nat, s: string)
    ensures var space := seq(n, _ => ' '); AllSpaces(space) && Upper(space + s) == space + Upper(s)
  {
  }

  lemma ReadConcat(w: string, m: string)
    ensures var inside := OpenAfter(w);
            Read(w + m) == Read(w) + Upper(Blanked(m, inside.quote, inside.escaped))
  {
    var inside := OpenAfter(w);
    BlankedConcat(w, m, OUTSIDE);
    UpperConcat(Blanked(w, None, false), Blanked(m, inside.quote, inside.escaped));
  }

  lemma FoundOpen(w: string, m: string)
    requires OpenAfter(w).quote.Some?
    ensures SaysNotNull(w + m) <==> Found(w, m)
  {
    var inside := OpenAfter(w);
    var rest := AfterLiteral(m, inside.quote.value, inside.escaped);
    var space := seq(|m| - |rest|, _ => ' ');
    ReadConcat(w, m);
    BlankedInside(m, inside.quote.value, inside.escaped);
    UpperSpaces(|m| - |rest|, Blanked(rest, None, false));
    OpenEndsBlank(w);
    WordsParted(Read(w), space + Read(rest));
    WordsSkip(space, Read(rest));
  }

  lemma FoundClosed(w: string, m: string)
    requires OpenAfter(w).quote.None? && Seam(Read(w), Read(m))
    ensures SaysNotNull(w + m) <==> Found(w, m)
  {
    EscapesAreInside(w, OUTSIDE);
    ReadConcat(w, m);
    if m != "" {
      assert m[..0] == "";
      BlankedAt(m, 0);
    }
    if Glued(w, m) {
      assert !Parted(Read(w), Read(m));
      SeamGlued(Read(w), Read(m));
    } else {
      assert Parted(Read(w), Read(m));
      SeamParted(Read(w), Read(m));
    }
  }

  lemma PartsEndWell(entry: string)
    requires ReadIdent(entry).Some?
    ensures var p := PartsOf(entry); EndsWell(p.typed, p.modifiers)
  {
    var p := PartsOf(entry);
    PartsJoin(entry);
    TokenEndsWell(p.typed + p.modifiers);
    assert (p.typed + p.modifiers)[..|p.typed|] == p.typed && (p.typed + p.modifiers)[|p.typed|..] == p.modifiers;
  }

  /** Exactly what the nullability of an accepted column entry depends on. */
  lemma ReadsNullability(entry: string)
    requires ParseColumn(entry).Ok?
    ensures ReadIdent(entry).Some?
    ensures var p := PartsOf(entry); ParseColumn(entry).value.nullable == !Found(Reread(p), p.modifiers)
  {
    ReadsModifiers(entry);
    var p := PartsOf(entry);
    PartsJoin(entry);
    PartsEndWell(entry);
    if OpenAfter(Reread(p)).quote.Some? {
      FoundOpen(Reread(p), p.modifiers);
    } else {
      SeamHolds(p);
      FoundClosed(Reread(p), p.modifiers);
    }
  }

  /** The words of the rest of some modifiers, read on after their start. */
  function ReadOn(start: string, rest: string): seq<string> {
    var inside := OpenAfter(start);
    Words(Upper(Blanked(rest, inside.quote, inside.escaped)))
  }

  /** The shift does no harm. When what is read again leaves no literal open, it
      adds no NOT NULL to modifiers without one and swallows none by being glued
      to them. When it leaves one open, that swallows all the modifiers, which
      then say NOT NULL exactly if the end of the type does; or it ends inside
      them, and what stands before that end says so, with what follows read on,
      exactly if the end of the type does with what follows read afresh. */
  predicate Harmless(w: string, m: string) {
    var inside := OpenAfter(w);
    match inside.quote
    case None =>
      && (SaysNotNull(w) ==> SaysNotNull(m))
      && (Glued(w, m) && SaysNotNull(m) ==> SaysNotNull(w) || NotNullIn(Modifiers(m)[1..]))
    case Some(active) =>
      var rest := AfterLiteral(m, active, inside.escaped);
      var start := m[..|m| - |rest|];
      if rest == "" then SaysNotNull(m) <==> SaysNotNull(w)
      else NotNullIn(Modifiers(start) + ReadOn(start, rest)) <==> NotNullIn(Modifiers(w) + Modifiers(rest))
  }

  lemma {:induction false} QuoteRestShape(s: string, active: char)
    ensures var rest := QuoteRest(s, active);
            rest != "" ==> |rest| < |s| && s[|s| - |rest|..] == rest && s[|s| - |rest| - 1] == active
    decreases |s|
  {
    if s != "" && s[0] == '\\' && active != '`' {
      if |s| > 2 {
        QuoteRestShape(s[2..], active);
      }
    } else if s != "" && s[0] != active {
      QuoteRestShape(s[1..], active);
    }
  }

  lemma LiteralEndShape(m: string, active: char, escaped: bool)
    requires AfterLiteral(m, active, escaped) != ""
    ensures var rest := AfterLiteral(m, active, escaped);
            |rest| < |m| && m[|m| - |rest|..] == rest && m[|m| - |rest| - 1] == active
  {
    QuoteRestShape(if escaped && m != "" then m[1..] else m, active);
  }

  /** Text up to a quote is set off from what follows. */
  lemma WordsAfterQuote(start: string, rest: string)
    requires start != "" && IsQuote(start[|start| - 1])
    ensures Modifiers(start + rest) == Modifiers(start) + ReadOn(start, rest)
  {
    var inside := OpenAfter(start);
    ReadConcat(start, rest);
    BlankedAt(start, |start| - 1);
    WordsParted(Read(start), Upper(Blanked(rest, inside.quote, inside.escaped)));
  }

  lemma WordsAtLiteralEnd(m: string, active: char, escaped: bool)
    requires IsQuote(active) && AfterLiteral(m, active, escaped) != ""
    ensures var rest := AfterLiteral(m, active, escaped);
            var start := m[..|m| - |rest|];
            Modifiers(m) == Modifiers(start) + ReadOn(start, rest)
  {
    var rest := AfterLiteral(m, active, escaped);
    LiteralEndShape(m, active, escaped);
    CutAt(m, |m| - |rest|);
    WordsAfterQuote(m[..|m| - |rest|], rest);
  }

  lemma RestOfModifiers(m: string)
    requires Modifiers(m) != [] && NotNullIn(Modifiers(m)[1..])
    ensures SaysNotNull(m)
  {
    var words := Modifiers(m);
    NotNullConcat(words[..1], words[1..]);
    assert words == words[..1] + words[1..];
  }

  /** Every accepted column entry gets the nullability its modifiers say if and
      only if the shift does no harm. */
  lemma NullabilityIsRight(entry: string)
    requires ParseColumn(entry).Ok?
    ensures ReadIdent(entry).Some?
    ensures var p := PartsOf(entry);
            ParseColumn(entry).value.nullable == !SaysNotNull(p.modifiers) <==> Harmless(Reread(p), p.modifiers)
  {
    ReadsNullability(entry);
    var p := PartsOf(entry);
    FoundRightly(Reread(p), p.modifiers);
  }

  lemma FoundRightly(w: string, m: string)
    ensures Found(w, m) == SaysNotNull(m) <==> Harmless(w, m)
  {
    var inside := OpenAfter(w);
    if inside.quote.Some? {
      OpenIsQuote(w, OUTSIDE);
      OpenRightly(w, m, inside.quote.value, inside.escaped);
    } else if Modifiers(m) != [] && NotNullIn(Modifiers(m)[1..]) {
      RestOfModifiers(m);
    }
  }

  lemma OpenRightly(w: string, m: string, active: char, escaped: bool)
    requires IsQuote(active) && OpenAfter(w) == Inside(Some(active), escaped)
    ensures Found(w, m) == SaysNotNull(m) <==> Harmless(w, m)
  {
    var rest := AfterLiteral(m, active, escaped);
    if rest == "" {
      NothingRead(rest);
      assert Modifiers(w) + Modifiers(rest) == Modifiers(w);
    } else {
      WordsAtLiteralEnd(m, active, escaped);
    }
  }

  // Modifiers read inside out

  /** The only quotes are of one kind, and nothing is escaped. */
  predicate OneKind(m: string, active: char) {
    forall i | 0 <= i < |m| :: m[i] != '\\' && (IsQuote(m[i]) ==> m[i] == active)
  }

  /** A character is read either by a reading from outside literals or by one
      from inside, and a quote by neither. */
  lemma {:induction false} InsideOut(m: string, active: char, i: nat)
    requires IsQuote(active) && OneKind(m, active) && i < |m|
    ensures var outside, inside := Blanked(m, None, false)[i], Blanked(m, Some(active), false)[i];
            if m[i] == active then outside == ' ' && inside == ' '
            else (outside == m[i] && inside == ' ') || (outside == ' ' && inside == m[i])
  {
    if i > 0 {
      InsideOut(m[1..], active, i - 1);
    }
  }

  /** When the end of the type leaves a literal open, the modifiers are read
      from inside a literal: what stands in their own literals is read, and
      what stands outside is not. */
  lemma OpenLiteralTurnsModifiers(entry: string, active: char)
    requires ParseColumn(entry).Ok? && ReadIdent(entry).Some?
    requires OpenAfter(Reread(PartsOf(entry))) == Inside(Some(active), false)
    ensures var p := PartsOf(entry);
            ParseColumn(entry).value.nullable ==
            !NotNullIn(Modifiers(Reread(p)) + Words(Upper(Blanked(p.modifiers, Some(active), false))))
  {
    var p := PartsOf(entry);
    var w, m := Reread(p), p.modifiers;
    ReadsModifiers(entry);
    ReadConcat(w, m);
    OpenEndsBlank(w);
    WordsParted(Read(w), Upper(Blanked(m, Some(active), false)));
  }

  lemma NothingAfter(m: string, active: char, escaped: bool)
    requires m == ""
    ensures AfterLiteral(m, active, escaped) == "" && Modifiers(m) == []
  {
    OneCharacter(m);
  }

  lemma OneIsHarmless(w: string, m: string)
    requires |w| <= 1 && !Glued(w, m) && (w != "" && m != "" ==> !IsQuote(w[0]))
    ensures Harmless(w, m)
  {
    OneCharacter(w);
    var inside := OpenAfter(w);
    if inside.quote.Some? {
      NothingAfter(m, inside.quote.value, inside.escaped);
    }
  }

  lemma OneReread(p: Parts)
    requires |p.gap| == 1 && p.typed != ""
    ensures Reread(p) == [p.typed[|p.typed| - 1]]
  {
  }

  lemma EndIsNoQuote(typed: string, m: string)
    requires EndsWell(typed, m) && typed != "" && m != ""
    ensures !IsQuote(typed[|typed| - 1])
  {
  }

  lemma ShortIsHarmless(p: Parts)
    requires p.typed != "" && EndsWell(p.typed, p.modifiers)
    requires p.gap == "" || (|p.gap| == 1 && !Glued(Reread(p), p.modifiers))
    ensures Harmless(Reread(p), p.modifiers)
  {
    if p.gap != "" {
      OneReread(p);
      if p.modifiers != "" {
        EndIsNoQuote(p.typed, p.modifiers);
      }
    }
    OneIsHarmless(Reread(p), p.modifiers);
  }

  /** With no blank before the type nothing is read again, and with one only a
      closing bracket or the end of a name is: then modifiers that are set off
      from the type are read right. */
  lemma ShortGapIsRight(entry: string)
    requires ParseColumn(entry).Ok? && ReadIdent(entry).Some?
    requires var p := PartsOf(entry); p.gap == "" || (|p.gap| == 1 && !Glued(Reread(p), p.modifiers))
    ensures ParseColumn(entry).value.nullable == !SaysNotNull(PartsOf(entry).modifiers)
  {
    ReadsModifiers(entry);
    PartsJoin(entry);
    PartsEndWell(entry);
    ShortIsHarmless(PartsOf(entry));
    NullabilityIsRight(entry);
  }

  lemma OneCharacter(w: string)
    requires |w| <= 1
    ensures Modifiers(w) == [] || |Modifiers(w)| == 1
    ensures OpenAfter(w).quote.Some? ==> w != "" && IsQuote(w[0]) && Modifiers(w) == []
    ensures Modifiers("") == []
  {
    if w != "" {
      assert w[1..] == "";
      BlankedAt(w, 0);
      assert w[..0] == "";
      var r := Read(w);
      assert r == [r[0]] && r[1..] == "";
      if IsSpace(r[0]) {
        assert Words(r) == Words(r[1..]);
      } else {
        WordsThen(r, "");
        assert r + "" == r;
      }
    }
  }

  // Types without blanks and quotes

  predicate Unbroken(t: string) {
    forall i | 0 <= i < |t| :: !IsSpace(t[i]) && !IsQuote(t[i])
  }

  lemma UnbrokenSaysNothing(space: string, t: string)
    requires AllSpaces(space) && Unbroken(t)
    ensures OpenAfter(space + t).quote.None? && !SaysNotNull(space + t)
  {
    var w := space + t;
    assert forall i | 0 <= i < |w| :: !IsQuote(w[i]);
    UnquotedStays(w);
    UnquotedOutside(w);
    UpperConcat(space, t);
    assert Upper(space) == space;
    WordsSkip(space, Upper(t));
    WordsThen(Upper(t), "");
    assert Upper(t) + "" == Upper(t);
  }

  lemma UnbrokenHarmless(w: string, m: string)
    requires OpenAfter(w).quote.None? && !SaysNotNull(w)
    ensures Harmless(w, m) <==> !(Glued(w, m) && SaysNotNull(m) && !NotNullIn(Modifiers(m)[1..]))
  {
  }

  lemma UnbrokenParts(p: Parts)
    requires AllSpaces(p.gap) && Unbroken(p.typed)
    ensures var w, m := Reread(p), p.modifiers;
            Harmless(w, m) <==> !(Glued(w, m) && SaysNotNull(m) && !NotNullIn(Modifiers(m)[1..]))
  {
    var space, k := RereadShape(p);
    UnbrokenSaysNothing(space, p.typed[k..]);
    UnbrokenHarmless(Reread(p), p.modifiers);
  }

  /** After a type without blanks and quotes the modifiers are read right at
      any distance, unless they are glued to it and it swallows the marker. */
  lemma UnbrokenTypeIsRight(entry: string)
    requires ParseColumn(entry).Ok? && ReadIdent(entry).Some? && Unbroken(PartsOf(entry).typed)
    ensures var p := PartsOf(entry);
            ParseColumn(entry).value.nullable == !SaysNotNull(p.modifiers) <==>
            !(Glued(Reread(p), p.modifiers) && SaysNotNull(p.modifiers) && !NotNullIn(Modifiers(p.modifiers)[1..]))
  {
    var p := PartsOf(entry);
    PartsJoin(entry);
    NullabilityIsRight(entry);
    UnbrokenParts(p);
  }
}
