/** `strip_comments`: the loop it is, the lexemes it sees, and what the text it
    leaves means. */
module Comments {
  import opened Wrappers
  import opened Scanners

  // Lexemes

  /** What a quoted literal holds, with its closing quote, the opening one read. */
  function QuoteText(s: string, active: char): string {
    if s == "" then ""
    else if s[0] == '\\' && active != '`' then if |s| < 2 then s else [s[0], s[1]] + QuoteText(s[2..], active)
    else if s[0] == active then [s[0]]
    else [s[0]] + QuoteText(s[1..], active)
  }

  /** What follows the literal. */
  function QuoteRest(s: string, active: char): (rest: string)
    ensures |rest| <= |s|
  {
    if s == "" then ""
    else if s[0] == '\\' && active != '`' then if |s| < 2 then "" else QuoteRest(s[2..], active)
    else if s[0] == active then s[1..]
    else QuoteRest(s[1..], active)
  }

  /** What follows the next newline. */
  function LineRest(s: string): (rest: string)
    ensures |rest| <= |s|
  {
    if s == "" then "" else if s[0] == '\n' then s[1..] else LineRest(s[1..])
  }

  /** What follows the next star and slash. */
  function BlockRest(s: string, prev: char): (rest: string)
    ensures |rest| <= |s|
  {
    if s == "" then ""
    else if prev == '*' && s[0] == '/' then s[1..]
    else BlockRest(s[1..], s[0])
  }

  datatype Kind = Code | Literal | LineComment | BlockComment

  predicate Pair(s: string, a: char, b: char) {
    |s| >= 2 && s[0] == a && s[1] == b
  }

  /** What the text starts with. */
  function KindOf(s: string): Kind
    requires s != ""
  {
    if IsQuote(s[0]) then Literal
    else if s[0] == '#' || Pair(s, '-', '-') then LineComment
    else if Pair(s, '/', '*') then BlockComment
    else Code
  }

  /** What follows that. */
  function Rest(s: string): (rest: string)
    requires s != ""
    ensures |rest| < |s|
  {
    match KindOf(s)
    case Literal => QuoteRest(s[1..], s[0])
    case LineComment => LineRest(s[1..])
    case BlockComment => BlockRest(s[2..], '\0')
    case Code => s[1..]
  }

  /** A lexeme: quoted text, a comment, or one character of code. */
  datatype Lexeme = Lexeme(kind: Kind, text: string)

  function First(s: string): Lexeme
    requires s != ""
  {
    match KindOf(s)
    case Literal => Lexeme(Literal, [s[0]] + QuoteText(s[1..], s[0]))
    case Code => Lexeme(Code, [s[0]])
    case comment => Lexeme(comment, s[..|s| - |Rest(s)|])
  }

  function Lex(s: string): seq<Lexeme>
    decreases |s|
  {
    if s == "" then [] else [First(s)] + Lex(Rest(s))
  }

  /** What a lexeme leaves behind: a comment becomes one blank character. */
  function Kept(lexeme: Lexeme): Lexeme {
    match lexeme.kind
    case LineComment => Lexeme(Code, "\n")
    case BlockComment => Lexeme(Code, " ")
    case _ => lexeme
  }

  /** The text without its comments. */
  function Clean(s: string): string
    decreases |s|
  {
    if s == "" then "" else Kept(First(s)).text + Clean(Rest(s))
  }

  lemma CodeIsKept(s: string)
    requires s != "" && KindOf(s) == Code
    ensures Clean(s) == [s[0]] + Clean(s[1..])
  {
  }

  // The loop

  method SkipToNewline(input: string, from: nat) returns (next: nat)
    requires from <= |input|
    ensures from <= next <= |input| && input[next..] == LineRest(input[from..])
  {
    next := from;
    while next < |input|
      invariant from <= next <= |input|
      invariant LineRest(input[from..]) == LineRest(input[next..])
    {
      var ch := input[next];
      DropDrop(input, next, 1);
      next := next + 1;
      if ch == '\n' {
        return;
      }
    }
  }

  method SkipBlock(input: string, from: nat) returns (next: nat)
    requires from <= |input|
    ensures from <= next <= |input| && input[next..] == BlockRest(input[from..], '\0')
  {
    var prev := '\0';
    next := from;
    while next < |input|
      invariant from <= next <= |input|
      invariant BlockRest(input[from..], '\0') == BlockRest(input[next..], prev)
    {
      var inner := input[next];
      DropDrop(input, next, 1);
      next := next + 1;
      if prev == '*' && inner == '/' {
        return;
      }
      prev := inner;
    }
  }

  /** One turn of the loop: what it writes, what it leaves, the quote after. */
  datatype Turn = Turn(piece: string, rest: string, quote: Quote)

  function Next(s: string, quote: Quote): (turn: Turn)
    requires s != ""
    ensures |turn.rest| < |s|
  {
    if quote.Some? then
      if s[0] == '\\' && quote.value != '`' then
        if |s| < 2 then Turn(s, "", quote) else Turn([s[0], s[1]], s[2..], quote)
      else Turn([s[0]], s[1..], if s[0] == quote.value then None else quote)
    else
      match KindOf(s)
      case Literal => Turn([s[0]], s[1..], Some(s[0]))
      case LineComment => Turn("\n", Rest(s), None)
      case BlockComment => Turn(" ", Rest(s), None)
      case Code => Turn([s[0]], s[1..], None)
  }

  function Written(s: string, quote: Quote): string
    decreases |s|
  {
    if s == "" then "" else
      var turn := Next(s, quote);
      turn.piece + Written(turn.rest, turn.quote)
  }

  method StripComments(input: string) returns (out: string)
    ensures out == Clean(input)
  {
    out := "";
    var i: nat := 0;
    var quote: Quote := None;
    ghost var rest := input;
    while i < |input|
      invariant i <= |input| && rest == input[i..]
      invariant Written(input, None) == out + Written(rest, quote)
    {
      var ch := input[i];
      ghost var turn := Next(rest, quote);
      DropDrop(input, i, 1);
      var piece := [ch];
      i := i + 1;
      if quote.Some? {
        if ch == '\\' && quote.value != '`' {
          if i < |input| {
            piece := [ch, input[i]];
            DropDrop(input, i - 1, 2);
            i := i + 1;
          }
        } else if ch == quote.value {
          quote := None;
        }
      } else if IsQuote(ch) {
        quote := Some(ch);
      } else if ch == '#' || (ch == '-' && i < |input| && input[i] == '-') {
        i := SkipToNewline(input, i);
        piece := "\n";
      } else if ch == '/' && i < |input| && input[i] == '*' {
        DropDrop(input, i - 1, 2);
        i := SkipBlock(input, i + 1);
        piece := " ";
      }
      assert turn == Turn(piece, input[i..], quote);
      rest := input[i..];
      Append(out, piece, Written(rest, quote));
      out := out + piece;
    }
    WrittenIsClean(input);
  }

  lemma Append<T>(out: seq<T>, next: seq<T>, later: seq<T>)
    ensures (out + next) + later == out + (next + later)
  {
  }

  /** A quoted literal is written out as it stands. */
  lemma {:induction false} WrittenQuoted(s: string, active: char)
    ensures Written(s, Some(active)) == QuoteText(s, active) + Written(QuoteRest(s, active), None)
    decreases |s|
  {
    if s != "" {
      var turn := Next(s, Some(active));
      if turn.quote.Some? {
        WrittenQuoted(turn.rest, active);
        if turn.rest != "" || |s| == 1 {
          Append(turn.piece, QuoteText(turn.rest, active), Written(QuoteRest(turn.rest, active), None));
        }
      }
    }
  }

  lemma {:induction false} WrittenIsClean(s: string)
    ensures Written(s, None) == Clean(s)
    decreases |s|
  {
    if s != "" {
      WrittenIsClean(Rest(s));
      if KindOf(s) == Literal {
        WrittenQuoted(s[1..], s[0]);
      }
    }
  }

  // The lexemes are the text

  function Joined(lexemes: seq<Lexeme>): string {
    if lexemes == [] then "" else lexemes[0].text + Joined(lexemes[1..])
  }

  function KeptAll(lexemes: seq<Lexeme>): seq<Lexeme> {
    if lexemes == [] then [] else [Kept(lexemes[0])] + KeptAll(lexemes[1..])
  }

  predicate NoComments(lexemes: seq<Lexeme>) {
    forall l | l in lexemes :: l.kind == Code || l.kind == Literal
  }

  lemma {:induction false} QuoteSplits(s: string, active: char)
    ensures QuoteText(s, active) + QuoteRest(s, active) == s
    decreases |s|
  {
    if s != "" && s[0] == '\\' && active != '`' {
      if |s| >= 2 {
        QuoteSplits(s[2..], active);
        Append([s[0], s[1]], QuoteText(s[2..], active), QuoteRest(s[2..], active));
        assert [s[0], s[1]] + s[2..] == s;
      }
    } else if s != "" && s[0] == active {
      assert [s[0]] + s[1..] == s;
    } else if s != "" {
      QuoteSplits(s[1..], active);
      Append([s[0]], QuoteText(s[1..], active), QuoteRest(s[1..], active));
      assert [s[0]] + s[1..] == s;
    }
  }

  /** `t` is what is left of `s` after some prefix. */
  predicate EndOf(t: string, s: string) {
    |t| <= |s| && t == s[|s| - |t|..]
  }

  lemma EndOfRest(t: string, s: string, n: nat)
    requires n <= |s| && EndOf(t, s[n..])
    ensures EndOf(t, s) && s[..|s| - |t|] + t == s
  {
  }

  lemma {:induction false} LineSplits(s: string)
    ensures EndOf(LineRest(s), s)
  {
    if s != "" && s[0] != '\n' {
      LineSplits(s[1..]);
      EndOfRest(LineRest(s), s, 1);
    }
  }

  lemma {:induction false} BlockSplits(s: string, prev: char)
    ensures EndOf(BlockRest(s, prev), s)
  {
    if s != "" && !(prev == '*' && s[0] == '/') {
      BlockSplits(s[1..], s[0]);
      EndOfRest(BlockRest(s, prev), s, 1);
    }
  }

  lemma HeadTail(s: string)
    requires s != ""
    ensures [s[0]] + s[1..] == s
  {
  }

  lemma LiteralThenRest(s: string)
    requires s != "" && KindOf(s) == Literal
    ensures First(s).text + Rest(s) == s
  {
    var text, rest := QuoteText(s[1..], s[0]), QuoteRest(s[1..], s[0]);
    QuoteSplits(s[1..], s[0]);
    Append([s[0]], text, rest);
    HeadTail(s);
  }

  lemma CommentThenRest(s: string)
    requires s != "" && (KindOf(s) == LineComment || KindOf(s) == BlockComment)
    ensures First(s).text + Rest(s) == s
  {
    if KindOf(s) == LineComment {
      LineSplits(s[1..]);
      EndOfRest(Rest(s), s, 1);
    } else {
      BlockSplits(s[2..], '\0');
      EndOfRest(Rest(s), s, 2);
    }
  }

  lemma FirstThenRest(s: string)
    requires s != ""
    ensures First(s).text + Rest(s) == s
  {
    match KindOf(s)
    case Literal => LiteralThenRest(s);
    case Code => HeadTail(s);
    case _ => CommentThenRest(s);
  }

  /** No character is lost or added by cutting the text into lexemes. */
  lemma {:induction false} LexIsLossless(s: string)
    ensures Joined(Lex(s)) == s
    decreases |s|
  {
    if s != "" {
      FirstThenRest(s);
      LexIsLossless(Rest(s));
      assert Lex(s)[1..] == Lex(Rest(s));
    }
  }

  lemma {:induction false} CleanJoinsKept(s: string)
    ensures Clean(s) == Joined(KeptAll(Lex(s)))
    decreases |s|
  {
    if s != "" {
      CleanJoinsKept(Rest(s));
      assert Lex(s)[1..] == Lex(Rest(s));
      assert KeptAll(Lex(s))[1..] == KeptAll(Lex(Rest(s)));
    }
  }

  // The cleaned text, lexed again

  lemma CleanHead(s: string)
    requires s != ""
    ensures Clean(s) != ""
    ensures Clean(s)[0] == s[0] || Clean(s)[0] == '\n' || Clean(s)[0] == ' '
  {
  }

  lemma {:induction false} QuoteCopied(s: string, active: char, later: string)
    requires QuoteRest(s, active) == "" ==> later == ""
    ensures QuoteText(QuoteText(s, active) + later, active) == QuoteText(s, active)
    ensures QuoteRest(QuoteText(s, active) + later, active) == later
    decreases |s|
  {
    if s != "" {
      var whole := QuoteText(s, active) + later;
      if s[0] == '\\' && active != '`' {
        if |s| >= 2 {
          Append([s[0], s[1]], QuoteText(s[2..], active), later);
          assert whole[2..] == QuoteText(s[2..], active) + later;
          QuoteCopied(s[2..], active, later);
        }
      } else if s[0] == active {
        assert whole[1..] == later;
      } else {
        Append([s[0]], QuoteText(s[1..], active), later);
        assert whole[1..] == QuoteText(s[1..], active) + later;
        QuoteCopied(s[1..], active, later);
      }
    }
  }

  lemma KeptLexesBack(s: string)
    requires s != ""
    ensures First(Kept(First(s)).text + Clean(Rest(s))) == Kept(First(s))
    ensures Rest(Kept(First(s)).text + Clean(Rest(s))) == Clean(Rest(s))
  {
    var later := Clean(Rest(s));
    if KindOf(s) == Literal {
      LiteralCopied(s[1..], s[0], later);
    } else if Rest(s) != "" {
      CleanHead(Rest(s));
    }
  }

  lemma LiteralCopied(s: string, active: char, later: string)
    requires IsQuote(active) && (QuoteRest(s, active) == "" ==> later == "")
    ensures var text := [active] + QuoteText(s, active);
            First(text + later) == Lexeme(Literal, text) && Rest(text + later) == later
  {
    var text := QuoteText(s, active);
    assert ([active] + text + later)[1..] == text + later;
    QuoteCopied(s, active, later);
  }

  /** The cleaned text has exactly the lexemes of the original, with a blank in
      the place of each comment: quoted text is copied, nothing else changes. */
  lemma {:induction false} CleanLexes(s: string)
    ensures Lex(Clean(s)) == KeptAll(Lex(s))
    decreases |s|
  {
    if s != "" {
      KeptLexesBack(s);
      CleanLexes(Rest(s));
      assert Lex(s)[1..] == Lex(Rest(s));
    }
  }

  lemma {:induction false} KeptHasNoComments(lexemes: seq<Lexeme>)
    ensures NoComments(KeptAll(lexemes))
    ensures NoComments(lexemes) ==> KeptAll(lexemes) == lexemes
  {
    if lexemes != [] {
      KeptHasNoComments(lexemes[1..]);
    }
  }

  /** No comment is left, cleaning again changes nothing, and cleaning changes
      nothing exactly when there was no comment. */
  lemma CleanIsFinal(s: string)
    ensures NoComments(Lex(Clean(s)))
    ensures Clean(Clean(s)) == Clean(s)
    ensures Clean(s) == s <==> NoComments(Lex(s))
  {
    CleanLexes(s);
    KeptHasNoComments(Lex(s));
    KeptHasNoComments(Lex(Clean(s)));
    CleanJoinsKept(s);
    CleanJoinsKept(Clean(s));
    LexIsLossless(s);
    LexIsLossless(Clean(s));
  }
}
