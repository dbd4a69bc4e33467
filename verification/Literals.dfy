/** Where quoted literals begin and end, scanner by scanner. */
module Literals {
  import opened Wrappers
  import opened Scanners
  import opened TypeParser
  import opened Comments

  // Which characters are inside a literal

  /** The literal open after some text, and whether a backslash is pending in it. */
  datatype Inside = Inside(quote: Quote, escaped: bool)

  function Pass(c: char, before: Inside): Inside {
    match before.quote
    case None => before.(quote := if IsQuote(c) then Some(c) else None)
    case Some(active) =>
      if before.escaped then before.(escaped := false)
      else if c == '\\' && active != '`' then before.(escaped := true)
      else before.(quote := if c == active then None else before.quote)
  }

  function InsideAfter(s: string, before: Inside): Inside {
    if s == "" then before else InsideAfter(s[1..], Pass(s[0], before))
  }

  const OUTSIDE := Inside(None, false)

  function OpenAfter(s: string): Inside {
    InsideAfter(s, OUTSIDE)
  }

  lemma {:induction false} BlankedConcat(a: string, b: string, before: Inside)
    ensures var after := InsideAfter(a, before);
            Blanked(a + b, before.quote, before.escaped) ==
            Blanked(a, before.quote, before.escaped) + Blanked(b, after.quote, after.escaped)
  {
    if a == "" {
      assert a + b == b;
    } else {
      assert (a + b)[1..] == a[1..] + b;
      BlankedConcat(a[1..], b, Pass(a[0], before));
    }
  }

  lemma {:induction false} InsideConcat(a: string, b: string, before: Inside)
    ensures InsideAfter(a + b, before) == InsideAfter(b, InsideAfter(a, before))
  {
    if a == "" {
      assert a + b == b;
    } else {
      assert (a + b)[1..] == a[1..] + b;
      InsideConcat(a[1..], b, Pass(a[0], before));
    }
  }

  /** `strip_string_literals` blanks exactly the quotes and what they enclose:
      position `i` is blanked if and only if a literal is open before it or it
      opens one. */
  lemma BlankedAt(s: string, i: nat)
    requires i < |s|
    ensures Blanked(s, None, false)[i] == if OpenAfter(s[..i]).quote.Some? || IsQuote(s[i]) then ' ' else s[i]
  {
    var after := OpenAfter(s[..i]);
    assert s == s[..i] + s[i..];
    BlankedConcat(s[..i], s[i..], OUTSIDE);
    assert Blanked(s, None, false)[i] == Blanked(s[i..], after.quote, after.escaped)[0];
  }

  /** A backslash is pending only inside a literal. */
  lemma {:induction false} EscapesAreInside(s: string, before: Inside)
    requires before.quote.None? ==> !before.escaped
    ensures InsideAfter(s, before).quote.None? ==> !InsideAfter(s, before).escaped
  {
    if s != "" {
      EscapesAreInside(s[1..], Pass(s[0], before));
    }
  }

  /** Only a quote opens a literal. */
  lemma {:induction false} OpenIsQuote(s: string, before: Inside)
    requires before.quote.Some? ==> IsQuote(before.quote.value)
    ensures InsideAfter(s, before).quote.Some? ==> IsQuote(InsideAfter(s, before).quote.value)
  {
    if s != "" {
      OpenIsQuote(s[1..], Pass(s[0], before));
    }
  }

  /** What follows the open literal. */
  function AfterLiteral(s: string, active: char, escaped: bool): string {
    if escaped && s != "" then QuoteRest(s[1..], active) else QuoteRest(s, active)
  }

  /** The rest of an open literal is blanked, and the text after it is read as
      if it stood alone. */
  lemma {:induction false} BlankedInside(s: string, active: char, escaped: bool)
    ensures var rest := AfterLiteral(s, active, escaped);
            Blanked(s, Some(active), escaped) == seq(|s| - |rest|, _ => ' ') + Blanked(rest, None, false)
    decreases |s|
  {
    if s != "" {
      var rest := AfterLiteral(s, active, escaped);
      if escaped {
        BlankedInside(s[1..], active, false);
      } else if s[0] == '\\' && active != '`' {
        BlankedInside(s[1..], active, true);
      } else if s[0] != active {
        BlankedInside(s[1..], active, false);
      }
      assert Blanked(s, Some(active), escaped) == seq(|s| - |rest|, _ => ' ') + Blanked(rest, None, false);
    }
  }

  // Where a literal ends

  /** How `split_top_level` ends a literal: at the next quote of its kind. */
  function PlainRest(s: string, active: char): string {
    var k := IndexOf(s, active);
    if k < |s| then s[k + 1..] else ""
  }

  /** A backslash stands before the next quote, and is not itself escaped. */
  predicate NextQuoteEscaped(s: string, active: char) {
    InsideAfter(s[..IndexOf(s, active)], Inside(Some(active), false)).escaped
  }

  lemma {:induction false} QuoteRestShrinks(s: string, active: char)
    ensures s != "" ==> |QuoteRest(s, active)| < |s|
  {
    if s != "" && s[0] == '\\' && active != '`' {
      if |s| > 2 {
        QuoteRestShrinks(s[2..], active);
      }
    } else if s != "" && s[0] != active {
      QuoteRestShrinks(s[1..], active);
    }
  }

  lemma IndexStep(s: string, active: char)
    requires s != "" && s[0] != active
    ensures IndexOf(s, active) == 1 + IndexOf(s[1..], active)
    ensures s[..IndexOf(s, active)] == [s[0]] + s[1..][..IndexOf(s[1..], active)]
    ensures PlainRest(s, active) == PlainRest(s[1..], active)
  {
  }

  lemma PendingStep(s: string, active: char, before: Inside)
    requires s != "" && s[0] != active
    ensures InsideAfter(s[..IndexOf(s, active)], before) ==
            InsideAfter(s[1..][..IndexOf(s[1..], active)], Pass(s[0], before))
  {
    IndexStep(s, active);
    var head, tail := [s[0]], s[1..][..IndexOf(s[1..], active)];
    InsideConcat(head, tail, before);
    assert head[1..] == "";
  }

  /** `split_top_level` ends a literal where the other scanners do, unless the
      next quote is escaped and text follows it. */
  lemma {:induction false} ScannersAgree(s: string, active: char)
    requires IsQuote(active)
    ensures PlainRest(s, active) == QuoteRest(s, active) <==>
            !(NextQuoteEscaped(s, active) && IndexOf(s, active) + 1 < |s|)
    decreases |s|
  {
    var open := Inside(Some(active), false);
    if s == "" {
      assert s[..0] == "";
    } else if s[0] == active {
      assert s[..0] == "";
    } else {
      PendingStep(s, active, open);
      IndexStep(s, active);
      if s[0] == '\\' && active != '`' {
        EscapedPair(s, active);
      } else {
        ScannersAgree(s[1..], active);
      }
    }
  }

  lemma EscapedPair(s: string, active: char)
    requires IsQuote(active) && active != '`' && s != "" && s[0] == '\\'
    ensures PlainRest(s, active) == QuoteRest(s, active) <==>
            !(NextQuoteEscaped(s, active) && IndexOf(s, active) + 1 < |s|)
    decreases |s|, 0
  {
    var open := Inside(Some(active), false);
    PendingStep(s, active, open);
    IndexStep(s, active);
    if |s| >= 2 {
      var rest := s[1..];
      assert rest[1..] == s[2..];
      if rest[0] == active {
        assert rest[..0] == "";
        QuoteRestShrinks(s[2..], active);
      } else {
        PendingStep(rest, active, Pass(s[0], open));
        IndexStep(rest, active);
        ScannersAgree(s[2..], active);
      }
    }
  }

  /** `split_top_level` as it would be if it honoured escapes. */
  function HonouringPieces(s: string, depth: nat, inside: Inside, current: string): (pieces: seq<string>)
    decreases |s|
  {
    if s == "" then [current]
    else if inside.quote.Some? || IsQuote(s[0]) then
      HonouringPieces(s[1..], depth, Pass(s[0], inside), current + [s[0]])
    else if s[0] == ',' && depth == 0 then [current] + HonouringPieces(s[1..], 0, OUTSIDE, "")
    else HonouringPieces(s[1..], NextDepth(s[0], depth), inside, current + [s[0]])
  }

  /** No literal holds an escaped quote of its own kind with text after it. */
  predicate NoEscapedQuotes(s: string, inside: Inside) {
    |s| <= 1
    || (!(inside.escaped && inside.quote == Some(s[0])) && NoEscapedQuotes(s[1..], Pass(s[0], inside)))
  }

  /** The same position by position. */
  lemma {:induction false} NoEscapedQuotesAt(s: string, inside: Inside)
    ensures NoEscapedQuotes(s, inside) <==>
            forall i | 0 <= i < |s| - 1 ::
              !(InsideAfter(s[..i], inside).escaped && InsideAfter(s[..i], inside).quote == Some(s[i]))
  {
    if |s| > 1 {
      NoEscapedQuotesAt(s[1..], Pass(s[0], inside));
      assert s[..0] == "";
      forall i | 1 <= i < |s| - 1
        ensures InsideAfter(s[..i], inside) == InsideAfter(s[1..][..i - 1], Pass(s[0], inside))
      {
        assert s[..i][1..] == s[1..][..i - 1];
      }
      if NoEscapedQuotes(s, inside) {
        forall i | 0 <= i < |s| - 1
          ensures !(InsideAfter(s[..i], inside).escaped && InsideAfter(s[..i], inside).quote == Some(s[i]))
        {
          if i > 0 {
            assert s[1..][i - 1] == s[i];
          }
        }
      } else if !(inside.escaped && inside.quote == Some(s[0])) {
        var i :| 0 <= i < |s[1..]| - 1 && InsideAfter(s[1..][..i], Pass(s[0], inside)).escaped
                 && InsideAfter(s[1..][..i], Pass(s[0], inside)).quote == Some(s[1..][i]);
        assert InsideAfter(s[..i + 1], inside).escaped && InsideAfter(s[..i + 1], inside).quote == Some(s[i + 1]);
      }
    }
  }

  lemma {:induction false} SplitsAlike(s: string, depth: nat, inside: Inside, current: string)
    requires NoEscapedQuotes(s, inside)
    requires if inside.quote.Some? then IsQuote(inside.quote.value) else !inside.escaped
    ensures Pieces(s, depth, inside.quote, current) == HonouringPieces(s, depth, inside, current)
    decreases |s|
  {
    if |s| == 1 {
      assert s[1..] == "";
    } else if s != "" {
      if inside.quote.Some? || IsQuote(s[0]) {
        SplitsAlike(s[1..], depth, Pass(s[0], inside), current + [s[0]]);
      } else if s[0] == ',' && depth == 0 {
        assert Pass(s[0], inside) == OUTSIDE;
        SplitsAlike(s[1..], 0, OUTSIDE, "");
      } else {
        assert Pass(s[0], inside) == inside;
        SplitsAlike(s[1..], NextDepth(s[0], depth), inside, current + [s[0]]);
      }
    }
  }

  /** When no literal in the text holds an escaped quote with text after it,
      `split_top_level` cuts where a split that honours escapes would. */
  lemma SplitHonoursEscapes(text: string)
    requires forall i | 0 <= i < |text| - 1 ::
               !(OpenAfter(text[..i]).escaped && OpenAfter(text[..i]).quote == Some(text[i]))
    ensures TopLevelPieces(text) == HonouringPieces(text, 0, OUTSIDE, "")
  {
    NoEscapedQuotesAt(text, OUTSIDE);
    SplitsAlike(text, 0, OUTSIDE, "");
  }

  // Where the two splits differ

  /** Where a splitter stands: in or outside a literal, at a bracket depth. */
  datatype Place = Place(inside: Inside, depth: nat)

  const START := Place(OUTSIDE, 0)

  /** A splitter past one character, honouring escapes or not. */
  function NextPlace(c: char, at: Place, honours: bool): Place {
    var quote := at.inside.quote;
    var plain :=
      if quote.None? then (if IsQuote(c) then Some(c) else None) else if c == quote.value then None else quote;
    Place(if honours then Pass(c, at.inside) else Inside(plain, false),
          if quote.Some? || IsQuote(c) then at.depth else NextDepth(c, at.depth))
  }

  function PlaceAfter(s: string, at: Place, honours: bool): Place {
    if s == "" then at else PlaceAfter(s[1..], NextPlace(s[0], at, honours), honours)
  }

  /** A comma outside literals and brackets. */
  predicate Cuts(c: char, at: Place) {
    c == ',' && at.inside.quote.None? && at.depth == 0
  }

  /** The two splits cut at the same commas, one honouring escapes from `b` on. */
  predicate SameCuts(s: string, a: Place, b: Place) {
    s == "" || (Cuts(s[0], a) == Cuts(s[0], b)
                && SameCuts(s[1..], NextPlace(s[0], a, false), NextPlace(s[0], b, true)))
  }

  predicate SameCutAt(s: string, i: nat, a: Place, b: Place)
    requires i < |s|
  {
    Cuts(s[i], PlaceAfter(s[..i], a, false)) == Cuts(s[i], PlaceAfter(s[..i], b, true))
  }

  lemma CutLater(s: string, i: nat, a: Place, b: Place)
    requires 1 <= i < |s|
    ensures SameCutAt(s, i, a, b) == SameCutAt(s[1..], i - 1, NextPlace(s[0], a, false), NextPlace(s[0], b, true))
  {
    assert s[..i][1..] == s[1..][..i - 1] && s[..i][0] == s[0];
  }

  lemma {:induction false} SameCutsAt(s: string, a: Place, b: Place)
    ensures SameCuts(s, a, b) <==> forall i | 0 <= i < |s| :: SameCutAt(s, i, a, b)
  {
    if s != "" {
      var a', b' := NextPlace(s[0], a, false), NextPlace(s[0], b, true);
      SameCutsAt(s[1..], a', b');
      assert s[..0] == "";
      if SameCuts(s, a, b) {
        forall i | 0 <= i < |s| ensures SameCutAt(s, i, a, b) {
          if i > 0 {
            CutLater(s, i, a, b);
          }
        }
      } else if SameCutAt(s, 0, a, b) {
        var i :| 0 <= i < |s[1..]| && !SameCutAt(s[1..], i, a', b');
        CutLater(s, i + 1, a, b);
      }
    }
  }

  lemma {:induction false} FirstPieceLong(s: string, depth: nat, quote: Quote, current: string)
    ensures var pieces := Pieces(s, depth, quote, current); pieces != [] && |pieces[0]| >= |current|
    decreases |s|
  {
    if s == "" {
    } else if quote.Some? {
      FirstPieceLong(s[1..], depth, if s[0] == quote.value then None else quote, current + [s[0]]);
    } else if IsQuote(s[0]) {
      FirstPieceLong(s[1..], depth, Some(s[0]), current + [s[0]]);
    } else if !(s[0] == ',' && depth == 0) {
      FirstPieceLong(s[1..], NextDepth(s[0], depth), None, current + [s[0]]);
    }
  }

  lemma {:induction false} FirstHonouringLong(s: string, depth: nat, inside: Inside, current: string)
    ensures var pieces := HonouringPieces(s, depth, inside, current); pieces != [] && |pieces[0]| >= |current|
    decreases |s|
  {
    if s == "" {
    } else if inside.quote.Some? || IsQuote(s[0]) {
      FirstHonouringLong(s[1..], depth, Pass(s[0], inside), current + [s[0]]);
    } else if !(s[0] == ',' && depth == 0) {
      FirstHonouringLong(s[1..], NextDepth(s[0], depth), inside, current + [s[0]]);
    }
  }

  predicate NoStrayEscape(at: Place) {
    at.inside.quote.None? ==> !at.inside.escaped
  }

  lemma PlainStep(s: string, a: Place, current: string)
    requires s != ""
    ensures var a' := NextPlace(s[0], a, false);
            Pieces(s, a.depth, a.inside.quote, current) ==
            if Cuts(s[0], a) then [current] + Pieces(s[1..], a'.depth, a'.inside.quote, "")
            else Pieces(s[1..], a'.depth, a'.inside.quote, current + [s[0]])
  {
  }

  lemma HonouringStep(s: string, b: Place, current: string)
    requires s != "" && NoStrayEscape(b)
    ensures var b' := NextPlace(s[0], b, true);
            && NoStrayEscape(b')
            && HonouringPieces(s, b.depth, b.inside, current) ==
               if Cuts(s[0], b) then [current] + HonouringPieces(s[1..], b'.depth, b'.inside, "")
               else HonouringPieces(s[1..], b'.depth, b'.inside, current + [s[0]])
  {
  }

  lemma TailsDecide<T>(first: T, x: seq<T>, y: seq<T>)
    ensures [first] + x == [first] + y <==> x == y
  {
    assert ([first] + x)[1..] == x && ([first] + y)[1..] == y;
  }

  lemma {:induction false} PiecesDecide(s: string, a: Place, b: Place, current: string)
    requires NoStrayEscape(b)
    ensures Pieces(s, a.depth, a.inside.quote, current) == HonouringPieces(s, b.depth, b.inside, current) <==>
            SameCuts(s, a, b)
    decreases |s|
  {
    if s != "" {
      var a', b' := NextPlace(s[0], a, false), NextPlace(s[0], b, true);
      var next := if Cuts(s[0], a) then "" else current + [s[0]];
      PlainStep(s, a, current);
      HonouringStep(s, b, current);
      if Cuts(s[0], a) == Cuts(s[0], b) {
        PiecesDecide(s[1..], a', b', next);
        TailsDecide(current, Pieces(s[1..], a'.depth, a'.inside.quote, ""),
                    HonouringPieces(s[1..], b'.depth, b'.inside, ""));
      } else {
        FirstPieceLong(s[1..], a'.depth, a'.inside.quote, current + [s[0]]);
        FirstHonouringLong(s[1..], b'.depth, b'.inside, current + [s[0]]);
      }
    }
  }

  /** A text is split differently from a split that honours escapes if and only
      if one of the two, and not the other, stands outside literals and brackets
      before some comma. */
  lemma SplitsDifferExactly(text: string)
    ensures TopLevelPieces(text) != HonouringPieces(text, 0, OUTSIDE, "") <==>
            exists i | 0 <= i < |text| :: !SameCutAt(text, i, START, START)
  {
    PiecesDecide(text, START, START, "");
    SameCutsAt(text, START, START);
  }

  // An escaped quote

  /** No quote, backslash, bracket or comma. */
  predicate Inert(s: string) {
    forall i | 0 <= i < |s| ::
      && !IsQuote(s[i]) && s[i] != '\\' && s[i] != ',' && s[i] != '(' && s[i] != ')' && s[i] != '<' && s[i] != '>'
  }

  lemma {:induction false} InertPieces(u: string, rest: string, current: string)
    requires Inert(u)
    ensures Pieces(u + rest, 0, None, current) == Pieces(rest, 0, None, current + u)
  {
    if u == "" {
      assert u + rest == rest && current + u == current;
    } else {
      assert (u + rest)[1..] == u[1..] + rest;
      assert (current + [u[0]]) + u[1..] == current + u;
      InertPieces(u[1..], rest, current + [u[0]]);
    }
  }

  lemma {:induction false} ToQuote(u: string, rest: string, active: char, depth: nat, current: string)
    requires active !in u
    ensures Pieces(u + ([active] + rest), depth, Some(active), current) ==
            Pieces(rest, depth, None, current + u + [active])
  {
    var s := u + ([active] + rest);
    if u == "" {
      assert s == [active] + rest && s[1..] == rest && current + u == current;
    } else {
      assert s[1..] == u[1..] + ([active] + rest);
      assert (current + [u[0]]) + u[1..] == current + u;
      ToQuote(u[1..], rest, active, depth, current + [u[0]]);
    }
  }

  lemma {:induction false} InertText(u: string, rest: string, active: char)
    requires Inert(u) && IsQuote(active)
    ensures QuoteText(u + rest, active) == u + QuoteText(rest, active)
    ensures QuoteRest(u + rest, active) == QuoteRest(rest, active)
  {
    if u == "" {
      assert u + rest == rest;
      assert u + QuoteText(rest, active) == QuoteText(rest, active);
    } else {
      assert (u + rest)[1..] == u[1..] + rest;
      InertText(u[1..], rest, active);
      Append([u[0]], u[1..], QuoteText(rest, active));
      assert [u[0]] + u[1..] == u;
    }
  }

  /** What follows the opening quote of a literal with an escaped quote in it. */
  function EscapedBody(a: string, b: string, c: string, q: char): string {
    a + (['\\', q] + (b + ([','] + (c + [q]))))
  }

  lemma BodyIsLiteral(a: string, b: string, c: string, q: char)
    requires Inert(a) && Inert(b) && Inert(c) && IsQuote(q) && q != '`'
    ensures QuoteText(EscapedBody(a, b, c, q), q) == EscapedBody(a, b, c, q)
    ensures QuoteRest(EscapedBody(a, b, c, q), q) == ""
  {
    var end := [q];
    var tail := [','] + (c + end);
    var pair := ['\\', q] + (b + tail);
    assert QuoteText(end, q) == end && QuoteRest(end, q) == "";
    InertText(c, end, q);
    assert tail[1..] == c + end;
    InertText(b, tail, q);
    assert pair[2..] == b + tail && [pair[0], pair[1]] + pair[2..] == pair;
    InertText(a, pair, q);
  }

  lemma BodyIsCut(a: string, b: string, c: string, q: char, current: string)
    requires Inert(a) && Inert(b) && Inert(c) && IsQuote(q) && q != '`'
    ensures Pieces(EscapedBody(a, b, c, q), 0, Some(q), current) ==
            [current + (a + ['\\']) + [q] + b, c + [q]]
  {
    var tail := [','] + (c + [q]);
    var u := a + ['\\'];
    assert EscapedBody(a, b, c, q) == u + ([q] + (b + tail));
    ToQuote(u, b + tail, q, 0, current);
    var before := current + u + [q];
    InertPieces(b, tail, before);
    assert tail[1..] == c + [q];
    InertPieces(c, [q], "");
    assert "" + c == c && [q][1..] == "";
    assert Pieces([q], 0, None, c) == [c + [q]];
  }

  /** COMMENT 'a\'b, c': one literal to `strip_comments`, but `split_top_level`
      cuts it at the comma inside. */
  lemma EscapedQuoteIsCut(a: string, b: string, c: string, q: char)
    requires Inert(a) && Inert(b) && Inert(c) && IsQuote(q) && q != '`'
    ensures var literal := [q] + EscapedBody(a, b, c, q);
            && Lex(literal) == [Lexeme(Literal, literal)]
            && TopLevelPieces(literal) == [[q] + (a + ['\\']) + [q] + b, c + [q]]
  {
    var body := EscapedBody(a, b, c, q);
    var literal := [q] + body;
    assert literal[1..] == body;
    BodyIsLiteral(a, b, c, q);
    BodyIsCut(a, b, c, q, [q]);
    assert "" + [q] == [q];
  }
}
