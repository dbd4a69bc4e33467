/** The hand-written scanners of `schema.rs`. */
module Scanners {
  // Each is the loop the source runs and the function it computes. Text is
  // ASCII here, so a byte is a character.

  import opened Wrappers
  import opened Chars

  predicate IsQuote(c: char) {
    c == '`' || c == '\'' || c == '"'
  }

  type Quote = Option<char>

  lemma DropDrop(s: string, i: nat, j: nat)
    requires i + j <= |s|
    ensures s[i..][j..] == s[i + j..]
  {
  }

  // match_paren

  /** Where the `)` that closes `depth` open parentheses stands, when the text
      begins at position `at`. */
  function ClosingParen(s: string, at: nat, depth: nat, quote: Quote): (k: Option<nat>)
    ensures k.Some? ==> at <= k.value < at + |s|
    decreases |s|
  {
    if s == "" then None
    else if quote.Some? then
      if s[0] == '\\' && quote.value != '`' then
        if |s| < 2 then None else ClosingParen(s[2..], at + 2, depth, quote)
      else ClosingParen(s[1..], at + 1, depth, if s[0] == quote.value then None else quote)
    else if IsQuote(s[0]) then ClosingParen(s[1..], at + 1, depth, Some(s[0]))
    else if s[0] == '(' then ClosingParen(s[1..], at + 1, depth + 1, None)
    else if s[0] == ')' && depth <= 1 then Some(at)
    else if s[0] == ')' then ClosingParen(s[1..], at + 1, depth - 1, None)
    else ClosingParen(s[1..], at + 1, depth, None)
  }

  /** The index of the `)` matching the `(` at `open`, outside quotes. */
  function ParenMatch(input: string, open: nat): (close: Option<nat>)
    requires open < |input| && input[open] == '('
    ensures close.Some? ==> open < close.value < |input|
  {
    ClosingParen(input[open..], open, 0, None)
  }

  method MatchParen(input: string, open: nat) returns (close: Option<nat>)
    requires open < |input| && input[open] == '('
    ensures close == ParenMatch(input, open)
  {
    var depth: nat := 0;
    var index: nat := open;
    var quote: Quote := None;
    ghost var rest := input[open..];
    while index < |input|
      invariant open <= index
      invariant rest == if index <= |input| then input[index..] else ""
      invariant if index == open then quote == None else depth >= 1
      invariant ParenMatch(input, open) == ClosingParen(rest, index, depth, quote)
    {
      var byte := input[index];
      assert byte == rest[0];
      if quote.Some? {
        if byte == '\\' && quote.value != '`' {
          rest := if |rest| < 2 then "" else rest[2..];
          index := index + 2;
          continue;
        }
        if byte == quote.value {
          quote := None;
        }
      } else if IsQuote(byte) {
        quote := Some(byte);
      } else if byte == '(' {
        depth := depth + 1;
      } else if byte == ')' {
        depth := depth - 1;
        if depth == 0 {
          return Some(index);
        }
      }
      rest := rest[1..];
      index := index + 1;
    }
    close := None;
  }

  // split_top_level

  function NextDepth(c: char, depth: nat): nat {
    if c == '(' || c == '<' then depth + 1
    else if (c == ')' || c == '>') && depth > 0 then depth - 1
    else depth
  }

  /** The pieces of `s` cut at commas outside brackets and quotes, the first
      one continuing `current`. */
  function Pieces(s: string, depth: nat, quote: Quote, current: string): (pieces: seq<string>)
    decreases |s|
  {
    if s == "" then [current]
    else if quote.Some? then
      Pieces(s[1..], depth, if s[0] == quote.value then None else quote, current + [s[0]])
    else if IsQuote(s[0]) then Pieces(s[1..], depth, Some(s[0]), current + [s[0]])
    else if s[0] == ',' && depth == 0 then [current] + Pieces(s[1..], 0, None, "")
    else Pieces(s[1..], NextDepth(s[0], depth), None, current + [s[0]])
  }

  function TopLevelPieces(input: string): (pieces: seq<string>)
  {
    Pieces(input, 0, None, "")
  }

  /** No piece is longer than the text it was cut from. */
  lemma {:induction false} PiecesFit(s: string, depth: nat, quote: Quote, current: string, piece: string)
    requires piece in Pieces(s, depth, quote, current)
    ensures |piece| <= |current| + |s|
    decreases |s|
  {
    if s == "" {
    } else if quote.Some? {
      PiecesFit(s[1..], depth, if s[0] == quote.value then None else quote, current + [s[0]], piece);
    } else if IsQuote(s[0]) {
      PiecesFit(s[1..], depth, Some(s[0]), current + [s[0]], piece);
    } else if s[0] == ',' && depth == 0 {
      if piece != current {
        PiecesFit(s[1..], 0, None, "", piece);
      }
    } else {
      PiecesFit(s[1..], NextDepth(s[0], depth), None, current + [s[0]], piece);
    }
  }

  method SplitTopLevel(input: string) returns (parts: seq<string>)
    ensures parts == TopLevelPieces(input)
  {
    parts := [];
    var depth: nat := 0;
    var start: nat := 0;
    var quote: Quote := None;
    ghost var rest, current := input, "";
    for index := 0 to |input|
      invariant start <= index
      invariant rest == input[index..] && current == input[start..index]
      invariant TopLevelPieces(input) == parts + Pieces(rest, depth, quote, current)
    {
      var byte := input[index];
      assert byte == rest[0];
      Extend(input, start, index);
      rest := rest[1..];
      if quote.None? && byte == ',' && depth == 0 {
        AddPiece(parts, current, Pieces(rest, 0, None, ""));
        parts := parts + [input[start..index]];
        start := index + 1;
        current := "";
      } else {
        current := current + [byte];
        if quote.Some? {
          if byte == quote.value {
            quote := None;
          }
        } else if IsQuote(byte) {
          quote := Some(byte);
        } else {
          depth := NextDepth(byte, depth);
        }
      }
    }
    assert input[start..] == current;
    parts := parts + [input[start..]];
  }

  lemma Extend(s: string, i: nat, j: nat)
    requires i <= j < |s|
    ensures s[i..j] + [s[j]] == s[i..j + 1]
    ensures s[j..][1..] == s[j + 1..]
  {
  }

  lemma AddPiece(parts: seq<string>, piece: string, later: seq<string>)
    ensures (parts + [piece]) + later == parts + ([piece] + later)
  {
  }

  // read_type_token

  /** Characters up to and including the `>` that closes the first `<`. */
  function AngleEnd(s: string, depth: nat): (k: nat)
    ensures k <= |s|
  {
    if s == "" then 0
    else if s[0] == '<' then 1 + AngleEnd(s[1..], depth + 1)
    else if s[0] == '>' && depth <= 1 then 1
    else if s[0] == '>' then 1 + AngleEnd(s[1..], depth - 1)
    else 1 + AngleEnd(s[1..], depth)
  }

  /** A run of identifier bytes, then an optional bracketed part. */
  function NameEnd(s: string): (k: nat)
    ensures k <= |s|
  {
    if s != "" && s[0] == '<' then AngleEnd(s, 0)
    else if s != "" && IsIdent(s[0]) then 1 + NameEnd(s[1..])
    else 0
  }

  /** The parenthesis after the name, blanks skipped. */
  function ArgsOpen(input: string, index: nat): (open: Option<nat>)
    requires index <= |input|
    ensures open.Some? ==> open.value < |input| && input[open.value] == '('
  {
    var afterName := TrimStart(input[index..]);
    if afterName != "" && afterName[0] == '(' then
      TrimStartSuffix(input[index..]);
      Some(|input| - |afterName|)
    else None
  }

  /** A type such as `DECIMAL(20, 4)` at the start of the text, and where it ends. */
  function TypeToken(input: string): (token: (string, nat))
    ensures token.1 <= |input|
  {
    var index := NameEnd(input);
    var open := ArgsOpen(input, index);
    if open.Some? && ParenMatch(input, open.value).Some? then
      var close := ParenMatch(input, open.value).value;
      (TrimEnd(input[..close + 1]), close + 1)
    else (TrimEnd(input[..index]), index)
  }

  lemma {:induction false} TrimStartSuffix(s: string)
    ensures TrimStart(s) == s[|s| - |TrimStart(s)|..]
  {
    if s != "" && IsSpace(s[0]) {
      TrimStartSuffix(s[1..]);
    }
  }

  method ReadTypeToken(input: string) returns (token: string, end: nat)
    ensures (token, end) == TypeToken(input)
  {
    var index := ReadTypeName(input);
    var afterName := TrimStart(input[index..]);
    if afterName != "" && afterName[0] == '(' {
      var skipped := |input[index..]| - |afterName|;
      assert ArgsOpen(input, index) == Some(index + skipped);
      var close := MatchParen(input, index + skipped);
      if close.Some? {
        return TrimEnd(input[..close.value + 1]), close.value + 1;
      }
    }
    return TrimEnd(input[..index]), index;
  }

  /** The outer loop of `read_type_token`. */
  method ReadTypeName(input: string) returns (index: nat)
    ensures index == NameEnd(input)
  {
    index := 0;
    while index < |input| && (IsIdent(input[index]) || input[index] == '<')
      invariant index <= |input|
      invariant NameEnd(input) == index + NameEnd(input[index..])
    {
      ghost var rest := input[index..];
      assert rest[1..] == input[index + 1..];
      if input[index] == '<' {
        index := SkipAngles(input, index);
        return;
      }
      index := index + 1;
    }
  }

  /** The inner loop of `read_type_token`. */
  method SkipAngles(input: string, from: nat) returns (index: nat)
    requires from < |input| && input[from] == '<'
    ensures index == from + AngleEnd(input[from..], 0)
    ensures index <= |input|
  {
    var depth: nat := 0;
    index := from;
    while index < |input|
      invariant from <= index <= |input|
      invariant index == from ==> depth == 0
      invariant index > from ==> depth >= 1
      invariant from + AngleEnd(input[from..], 0) == index + AngleEnd(input[index..], depth)
    {
      ghost var rest := input[index..];
      assert rest[1..] == input[index + 1..];
      if input[index] == '<' {
        depth := depth + 1;
      } else if input[index] == '>' {
        depth := depth - 1;
        if depth == 0 {
          index := index + 1;
          return;
        }
      }
      index := index + 1;
    }
  }

  // strip_string_literals

  /** Quoted text replaced by spaces, everything else kept. */
  function Blanked(s: string, quote: Quote, escaped: bool): (out: string)
    ensures |out| == |s|
  {
    if s == "" then "" else
      match quote
      case Some(active) =>
        if escaped then [' '] + Blanked(s[1..], quote, false)
        else if s[0] == '\\' && active != '`' then [' '] + Blanked(s[1..], quote, true)
        else [' '] + Blanked(s[1..], if s[0] == active then None else quote, false)
      case None =>
        if IsQuote(s[0]) then [' '] + Blanked(s[1..], Some(s[0]), escaped)
        else [s[0]] + Blanked(s[1..], None, escaped)
  }

  method StripStringLiterals(input: string) returns (out: string)
    ensures out == Blanked(input, None, false)
  {
    out := "";
    var quote: Quote := None;
    var escaped := false;
    ghost var rest := input;
    for i := 0 to |input|
      invariant rest == input[i..]
      invariant Blanked(input, None, false) == out + Blanked(rest, quote, escaped)
    {
      var ch := input[i];
      assert ch == rest[0];
      rest := rest[1..];
      var next := ch;
      if quote.Some? {
        if escaped {
          escaped := false;
        } else if ch == '\\' && quote.value != '`' {
          escaped := true;
        } else if ch == quote.value {
          quote := None;
        }
        next := ' ';
      } else if IsQuote(ch) {
        quote := Some(ch);
        next := ' ';
      }
      Push(out, next, Blanked(rest, quote, escaped));
      out := out + [next];
    }
  }

  lemma Push(out: string, c: char, later: string)
    ensures (out + [c]) + later == out + ([c] + later)
  {
  }

  // cut_at_top_level_keyword

  predicate StartsWith(s: string, i: nat, word: string) {
    i + |word| <= |s| && s[i..i + |word|] == word
  }

  /** The keyword stands at `i` as a whole word. */
  predicate WordAt(s: string, i: nat, word: string)
    requires i <= |s|
  {
    && StartsWith(s, i, word)
    && (i == 0 || !IsIdent(s[i - 1]))
    && (i + |word| == |s| || !IsIdent(s[i + |word|]))
  }

  /** The first index from `i` on where the keyword stands outside brackets. */
  function KeywordIndex(s: string, i: nat, depth: nat, keyword: string): (k: Option<nat>)
    requires i <= |s|
    ensures k.Some? ==> i <= k.value < |s|
    decreases |s| - i
  {
    if i == |s| then None
    else if s[i] == '(' || s[i] == '<' || s[i] == ')' || s[i] == '>' then
      KeywordIndex(s, i + 1, NextDepth(s[i], depth), keyword)
    else if depth == 0 && WordAt(s, i, keyword) then Some(i)
    else KeywordIndex(s, i + 1, depth, keyword)
  }

  /** Everything before the keyword outside brackets and quotes. */
  function BeforeKeyword(text: string, keyword: string): (r: string)
    ensures |r| <= |text|
  {
    var blanked := Upper(Blanked(text, None, false));
    match KeywordIndex(blanked, 0, 0, keyword)
    case Some(k) => TrimEnd(text[..k])
    case None => text
  }

  method CutAtTopLevelKeyword(text: string, keyword: string) returns (r: string)
    ensures r == BeforeKeyword(text, keyword)
  {
    var stripped := StripStringLiterals(text);
    var blanked := Upper(stripped);
    var depth: nat := 0;
    for index := 0 to |blanked|
      invariant KeywordIndex(blanked, 0, 0, keyword) == KeywordIndex(blanked, index, depth, keyword)
    {
      var byte := blanked[index];
      if byte == '(' || byte == '<' {
        depth := depth + 1;
      } else if byte == ')' || byte == '>' {
        depth := if depth > 0 then depth - 1 else 0;
      } else if depth == 0 && WordAt(blanked, index, keyword) {
        return TrimEnd(text[..index]);
      }
    }
    r := text;
  }
}
