/** Columns and tables written out as DDL, and how the scanners pass over them.

    A piece of text keeps a scanner when the scanner copies it, cuts nothing in
    it and comes out at the depth it went in, whatever follows. Quoted text,
    blanks, printed types and whatever may follow a type do, and so does their
    concatenation. */
module DdlText {
  import opened Wrappers
  import opened Chars
  import opened DorisTypes
  import opened Scanners
  import opened TypeWalks
  import opened PrintedTypes
  import opened TypeSoundness
  import opened Comments
  import opened Literals

  // The written form

  /** Text as it stands, or between quotes. */
  datatype Bit = Plain(text: string) | Enclosed(mark: char, text: string)

  function Enclose(mark: char, text: string): string {
    [mark] + (text + [mark])
  }

  function BitText(b: Bit): string {
    match b
    case Plain(text) => text
    case Enclosed(mark, text) => Enclose(mark, text)
  }

  function BitsText(bits: seq<Bit>): string {
    if bits == [] then "" else BitText(bits[0]) + BitsText(bits[1..])
  }

  /** Quoted text holds neither its quote nor, but for backticks, a backslash. */
  predicate Closes(mark: char, text: string) {
    IsQuote(mark) && Lacks(text, mark) && (mark != '`' ==> Lacks(text, '\\'))
  }

  /** No quote, no comment opener. */
  predicate Calm(s: string) {
    forall i | 0 <= i < |s| :: !IsQuote(s[i]) && s[i] != '#' && s[i] != '-' && s[i] != '/'
  }

  predicate IsBracket(c: char) {
    c == '(' || c == ')' || c == '<' || c == '>'
  }

  predicate Unbracketed(s: string) {
    forall i | 0 <= i < |s| :: !IsBracket(s[i])
  }

  /** Calm, and neither bracket nor comma. */
  predicate Flowing(s: string) {
    Calm(s) && Unbracketed(s) && Lacks(s, ',')
  }

  predicate BitOk(b: Bit) {
    match b
    case Plain(text) => Calm(text)
    case Enclosed(mark, text) => Closes(mark, text)
  }

  /** What may follow a type or the lead of a constraint. */
  datatype Part =
    | NullMark
    | NotNullMark
    | Bare(word: string)
    | Phrase(mark: char, text: string)
    | Group(bits: seq<Bit>)

  function PartText(p: Part): string {
    match p
    case NullMark => " NULL"
    case NotNullMark => " NOT NULL"
    case Bare(word) => " " + word
    case Phrase(mark, text) => " " + Enclose(mark, text)
    case Group(bits) => " (" + (BitsText(bits) + ")")
  }

  function PartsText(parts: seq<Part>): string {
    if parts == [] then "" else PartText(parts[0]) + PartsText(parts[1..])
  }

  /** Quoted text and text without brackets. */
  predicate GroupOk(bits: seq<Bit>) {
    forall b | b in bits :: BitOk(b) && (b.Plain? ==> Unbracketed(b.text))
  }

  predicate PartOk(p: Part) {
    match p
    case Bare(word) => word != "" && Flowing(word) && NoSpaces(word)
    case Phrase(mark, text) => Closes(mark, text)
    case Group(bits) => GroupOk(bits)
    case _ => true
  }

  predicate PartsOk(parts: seq<Part>) {
    forall p | p in parts :: PartOk(p)
  }

  /** A modifier: a marker, another word, quoted text, or one word in parentheses. */
  predicate IsModifier(p: Part) {
    && PartOk(p)
    && (p.Bare? ==> Upper(p.word) != "NOT" && Upper(p.word) != "NULL")
    && (p.Group? ==> |p.bits| == 1 && p.bits[0].Plain? && NoSpaces(p.bits[0].text))
  }

  /** A column with a backticked name, any blanks, a printed type, modifiers. */
  datatype WrittenColumn = WrittenColumn(name: string, gap: string, ty: DorisType, modifiers: seq<Part>)

  predicate ColumnOk(c: WrittenColumn) {
    && Lacks(c.name, '`') && AsciiSpaces(c.gap) && Printable(c.ty)
    && ModifiersOk(c.modifiers)
  }

  /** Parentheses right after the type would be its arguments. */
  predicate ModifiersOk(modifiers: seq<Part>) {
    (forall p | p in modifiers :: IsModifier(p)) && (modifiers != [] ==> !modifiers[0].Group?)
  }

  function ColumnText(c: WrittenColumn): string {
    Quoted(c.name, c.gap + (SqlName(c.ty) + PartsText(c.modifiers)))
  }

  function ColumnOf(c: WrittenColumn): Column {
    Column(c.name, c.ty, NotNullMark !in c.modifiers)
  }

  // Text each scanner leaves as it is

  /** Cleaning turns the text into the other, whatever follows. */
  ghost predicate CleansTo(u: string, v: string) {
    forall rest: string :: Clean(u + rest) == v + Clean(rest)
  }

  ghost predicate KeepsPieces(u: string) {
    forall rest: string, current: string ::
      Pieces(u + rest, 0, None, current) == Pieces(rest, 0, None, current + u)
  }

  ghost predicate KeepsParens(u: string) {
    forall rest: string, at: nat, depth: nat | depth >= 1 ::
      ClosingParen(u + rest, at, depth, None) == ClosingParen(rest, at + |u|, depth, None)
  }

  /** Every scanner leaves the text as it is. */
  ghost predicate Keeps(u: string) {
    CleansTo(u, u) && KeepsPieces(u) && KeepsParens(u)
  }

  lemma CleansConcat(a: string, a': string, b: string, b': string)
    requires CleansTo(a, a') && CleansTo(b, b')
    ensures CleansTo(a + b, a' + b')
  {
    forall rest: string ensures Clean((a + b) + rest) == (a' + b') + Clean(rest) {
      Append(a, b, rest);
      Append(a', b', Clean(rest));
    }
  }

  lemma KeepsPiecesConcat(a: string, b: string)
    requires KeepsPieces(a) && KeepsPieces(b)
    ensures KeepsPieces(a + b)
  {
    forall rest: string, current: string
      ensures Pieces((a + b) + rest, 0, None, current) == Pieces(rest, 0, None, current + (a + b))
    {
      Append(a, b, rest);
      Append(current, a, b);
    }
  }

  lemma KeepsParensConcat(a: string, b: string)
    requires KeepsParens(a) && KeepsParens(b)
    ensures KeepsParens(a + b)
  {
    forall rest: string, at: nat, depth: nat | depth >= 1
      ensures ClosingParen((a + b) + rest, at, depth, None) == ClosingParen(rest, at + |a + b|, depth, None)
    {
      Append(a, b, rest);
      assert ClosingParen(b + rest, at + |a|, depth, None) == ClosingParen(rest, at + |a| + |b|, depth, None);
    }
  }

  lemma KeepsConcat(a: string, b: string)
    requires Keeps(a) && Keeps(b)
    ensures Keeps(a + b)
  {
    CleansConcat(a, a, b, b);
    KeepsPiecesConcat(a, b);
    KeepsParensConcat(a, b);
  }

  lemma NothingKeeps()
    ensures Keeps("")
  {
    forall rest: string ensures "" + rest == rest {
    }
    forall rest: string, current: string
      ensures Pieces("" + rest, 0, None, current) == Pieces(rest, 0, None, current + "")
    {
      assert "" + rest == rest && current + "" == current;
    }
    forall rest: string, at: nat, depth: nat | depth >= 1
      ensures ClosingParen("" + rest, at, depth, None) == ClosingParen(rest, at + |""|, depth, None)
    {
      assert "" + rest == rest;
    }
    forall rest: string ensures Clean("" + rest) == "" + Clean(rest) {
      assert "" + rest == rest && "" + Clean(rest) == Clean(rest);
    }
  }

  // Plain text

  lemma {:induction false} CalmClean(u: string, rest: string)
    requires Calm(u)
    ensures Clean(u + rest) == u + Clean(rest)
  {
    if u == "" {
      assert u + rest == rest;
    } else {
      var s := u + rest;
      assert s[1..] == u[1..] + rest;
      assert KindOf(s) == Code;
      CodeIsKept(s);
      CalmClean(u[1..], rest);
      Append([u[0]], u[1..], Clean(rest));
      assert [u[0]] + u[1..] == u;
    }
  }

  lemma CalmKeeps(u: string)
    requires Calm(u)
    ensures CleansTo(u, u)
  {
    forall rest: string ensures Clean(u + rest) == u + Clean(rest) {
      CalmClean(u, rest);
    }
  }

  /** Text without brackets is passed over, and without commas at depth zero. */
  lemma {:induction false} CalmPieces(u: string, rest: string, depth: nat, current: string)
    requires Calm(u) && Unbracketed(u) && (depth == 0 ==> Lacks(u, ','))
    ensures Pieces(u + rest, depth, None, current) == Pieces(rest, depth, None, current + u)
  {
    if u == "" {
      assert u + rest == rest && current + u == current;
    } else {
      assert (u + rest)[1..] == u[1..] + rest;
      assert (current + [u[0]]) + u[1..] == current + u;
      CalmPieces(u[1..], rest, depth, current + [u[0]]);
    }
  }

  lemma {:induction false} CalmParens(u: string, rest: string, at: nat, depth: nat)
    requires Calm(u) && Unbracketed(u) && depth >= 1
    ensures ClosingParen(u + rest, at, depth, None) == ClosingParen(rest, at + |u|, depth, None)
  {
    if u == "" {
      assert u + rest == rest;
    } else {
      assert (u + rest)[1..] == u[1..] + rest;
      CalmParens(u[1..], rest, at + 1, depth);
    }
  }

  lemma FlowingKeeps(u: string)
    requires Flowing(u)
    ensures Keeps(u)
  {
    CalmKeeps(u);
    forall rest: string, current: string {
      CalmPieces(u, rest, 0, current);
    }
    forall rest: string, at: nat, depth: nat | depth >= 1 {
      CalmParens(u, rest, at, depth);
    }
  }

  lemma BlanksFlow(u: string)
    requires AllSpaces(u)
    ensures Flowing(u)
  {
  }

  // Printed types

  lemma LevelKeeps(u: string)
    requires Level(u, Flat) && Level(u, Round)
    ensures Keeps(u)
  {
    WalkBenign(u, 0, Flat);
    CalmKeeps(u);
    LevelPieces(u);
    LevelParens(u);
  }

  lemma LevelPieces(u: string)
    requires Level(u, Flat)
    ensures KeepsPieces(u)
  {
    forall rest: string, current: string
      ensures Pieces(u + rest, 0, None, current) == Pieces(rest, 0, None, current + u)
    {
      PiecesSkip(u, rest, 0, current);
    }
  }

  lemma LevelParens(u: string)
    requires Level(u, Round)
    ensures KeepsParens(u)
  {
    forall rest: string, at: nat, depth: nat | depth >= 1
      ensures ClosingParen(u + rest, at, depth, None) == ClosingParen(rest, at + |u|, depth, None)
    {
      WalkDeeper(u, depth - 1);
      ParenSkip(u, rest, at, depth - 1);
    }
  }

  lemma PrintedKeeps(ty: DorisType)
    requires Printable(ty)
    ensures Keeps(SqlName(ty))
  {
    PrintedLevel(ty, Flat);
    PrintedLevel(ty, Round);
    LevelKeeps(SqlName(ty));
  }

  lemma {:induction false} WalkDeeper(u: string, depth: nat)
    requires Level(u, Round)
    ensures Walk(u, depth, Round) == Some(depth)
  {
    if depth > 0 {
      WalkDeeper(u, depth - 1);
      WalkRaise(u, depth - 1, Round);
    }
  }

  // Quoted text

  lemma {:induction false} EnclosedText(mark: char, text: string, rest: string)
    requires Closes(mark, text)
    ensures QuoteText(text + ([mark] + rest), mark) == text + [mark]
    ensures QuoteRest(text + ([mark] + rest), mark) == rest
  {
    var s := text + ([mark] + rest);
    if text == "" {
      assert s == [mark] + rest && s[1..] == rest;
    } else {
      assert s[0] == text[0] && text[0] in text && s[1..] == text[1..] + ([mark] + rest);
      EnclosedText(mark, text[1..], rest);
    }
  }

  lemma {:induction false} EnclosedParens(mark: char, text: string, rest: string, at: nat, depth: nat)
    requires Closes(mark, text)
    ensures ClosingParen(text + ([mark] + rest), at, depth, Some(mark)) ==
            ClosingParen(rest, at + |text| + 1, depth, None)
  {
    var s := text + ([mark] + rest);
    if text == "" {
      assert s == [mark] + rest && s[1..] == rest;
    } else {
      assert s[0] == text[0] && text[0] in text && s[1..] == text[1..] + ([mark] + rest);
      EnclosedParens(mark, text[1..], rest, at + 1, depth);
    }
  }

  lemma EnclosedTail(mark: char, text: string, rest: string)
    ensures (Enclose(mark, text) + rest)[0] == mark && (Enclose(mark, text) + rest)[1..] == text + ([mark] + rest)
  {
  }

  lemma EnclosedClean(mark: char, text: string, rest: string)
    requires Closes(mark, text)
    ensures Clean(Enclose(mark, text) + rest) == Enclose(mark, text) + Clean(rest)
  {
    EnclosedTail(mark, text, rest);
    EnclosedText(mark, text, rest);
  }

  lemma EnclosedPieces(mark: char, text: string, rest: string, depth: nat, current: string)
    requires Closes(mark, text)
    ensures Pieces(Enclose(mark, text) + rest, depth, None, current) ==
            Pieces(rest, depth, None, current + Enclose(mark, text))
  {
    EnclosedTail(mark, text, rest);
    ToQuote(text, rest, mark, depth, current + [mark]);
    assert current + [mark] + text + [mark] == current + Enclose(mark, text);
  }

  lemma EnclosedKeeps(mark: char, text: string)
    requires Closes(mark, text)
    ensures Keeps(Enclose(mark, text))
  {
    EnclosedCleans(mark, text);
    EnclosedKeepsPieces(mark, text);
    EnclosedKeepsParens(mark, text);
  }

  lemma EnclosedCleans(mark: char, text: string)
    requires Closes(mark, text)
    ensures CleansTo(Enclose(mark, text), Enclose(mark, text))
  {
    forall rest: string {
      EnclosedClean(mark, text, rest);
    }
  }

  lemma EnclosedKeepsPieces(mark: char, text: string)
    requires Closes(mark, text)
    ensures KeepsPieces(Enclose(mark, text))
  {
    forall rest: string, current: string {
      EnclosedPieces(mark, text, rest, 0, current);
    }
  }

  lemma EnclosedKeepsParens(mark: char, text: string)
    requires Closes(mark, text)
    ensures KeepsParens(Enclose(mark, text))
  {
    forall rest: string, at: nat, depth: nat | depth >= 1 {
      EnclosedParensOn(mark, text, rest, at, depth);
    }
  }

  lemma EnclosedParensOn(mark: char, text: string, rest: string, at: nat, depth: nat)
    requires Closes(mark, text)
    ensures ClosingParen(Enclose(mark, text) + rest, at, depth, None) ==
            ClosingParen(rest, at + |Enclose(mark, text)|, depth, None)
  {
    EnclosedTail(mark, text, rest);
    EnclosedParens(mark, text, rest, at + 1, depth);
  }

  lemma QuotedIsEnclosed(name: string, rest: string)
    ensures Quoted(name, rest) == Enclose('`', name) + rest
  {
  }

  // Parenthesised groups

  lemma BitCleans(b: Bit)
    requires BitOk(b)
    ensures CleansTo(BitText(b), BitText(b))
  {
    match b
    case Plain(text) => CalmKeeps(text);
    case Enclosed(mark, text) => EnclosedKeeps(mark, text);
  }

  lemma {:induction false} BitsClean(bits: seq<Bit>)
    requires forall b | b in bits :: BitOk(b)
    ensures CleansTo(BitsText(bits), BitsText(bits))
  {
    if bits == [] {
      NothingKeeps();
    } else {
      BitCleans(bits[0]);
      BitsClean(bits[1..]);
      CleansConcat(BitText(bits[0]), BitText(bits[0]), BitsText(bits[1..]), BitsText(bits[1..]));
    }
  }

  lemma BitPieces(b: Bit, rest: string, current: string)
    requires GroupOk([b])
    ensures Pieces(BitText(b) + rest, 1, None, current) == Pieces(rest, 1, None, current + BitText(b))
  {
    assert b in [b];
    match b
    case Plain(text) => CalmPieces(text, rest, 1, current);
    case Enclosed(mark, text) => EnclosedPieces(mark, text, rest, 1, current);
  }

  lemma {:induction false} BitsPieces(bits: seq<Bit>, rest: string, current: string)
    requires GroupOk(bits)
    ensures Pieces(BitsText(bits) + rest, 1, None, current) == Pieces(rest, 1, None, current + BitsText(bits))
  {
    if bits == [] {
      assert "" + rest == rest && current + "" == current;
    } else {
      var first, later := BitText(bits[0]), BitsText(bits[1..]);
      Append(first, later, rest);
      BitPieces(bits[0], later + rest, current);
      BitsPieces(bits[1..], rest, current + first);
      Append(current, first, later);
    }
  }

  lemma BitParens(b: Bit)
    requires GroupOk([b])
    ensures KeepsParens(BitText(b))
  {
    assert b in [b];
    match b
    case Plain(text) =>
      forall rest: string, at: nat, depth: nat | depth >= 1 {
        CalmParens(text, rest, at, depth);
      }
    case Enclosed(mark, text) => EnclosedKeeps(mark, text);
  }

  lemma {:induction false} BitsParens(bits: seq<Bit>)
    requires GroupOk(bits)
    ensures KeepsParens(BitsText(bits))
  {
    if bits == [] {
      NothingKeeps();
    } else {
      BitParens(bits[0]);
      BitsParens(bits[1..]);
      KeepsParensConcat(BitText(bits[0]), BitsText(bits[1..]));
    }
  }

  lemma GroupTail(inner: string, rest: string)
    ensures var s := (" (" + (inner + ")")) + rest;
            s[0] == ' ' && s[1] == '(' && s[2..] == inner + (")" + rest) && s[1..][1..] == s[2..]
  {
  }

  lemma GroupPieces(bits: seq<Bit>, rest: string, current: string)
    requires GroupOk(bits)
    ensures var u := PartText(Group(bits));
            Pieces(u + rest, 0, None, current) == Pieces(rest, 0, None, current + u)
  {
    var inner := BitsText(bits);
    var open := current + [' '] + ['('];
    GroupTail(inner, rest);
    BitsPieces(bits, ")" + rest, open);
    assert (")" + rest)[1..] == rest;
    assert open + inner + [')'] == current + (" (" + (inner + ")"));
  }

  lemma GroupParens(bits: seq<Bit>, rest: string, at: nat, depth: nat)
    requires GroupOk(bits) && depth >= 1
    ensures var u := PartText(Group(bits));
            ClosingParen(u + rest, at, depth, None) == ClosingParen(rest, at + |u|, depth, None)
  {
    var inner := BitsText(bits);
    GroupTail(inner, rest);
    BitsParens(bits);
    assert ClosingParen(inner + (")" + rest), at + 2, depth + 1, None) ==
           ClosingParen(")" + rest, at + 2 + |inner|, depth + 1, None);
    assert (")" + rest)[1..] == rest;
  }

  lemma CalmAround(open: string, inner: string, close: string)
    requires Calm(open) && CleansTo(inner, inner) && Calm(close)
    ensures CleansTo(open + (inner + close), open + (inner + close))
  {
    CalmKeeps(open);
    CalmKeeps(close);
    CleansConcat(inner, inner, close, close);
    CleansConcat(open, open, inner + close, inner + close);
  }

  lemma CalmText(u: string)
    requires u == " (" || u == ")"
    ensures Calm(u)
  {
  }

  lemma GroupCleans(bits: seq<Bit>, u: string)
    requires GroupOk(bits) && u == PartText(Group(bits))
    ensures CleansTo(u, u)
  {
    var open, inner, close := " (", BitsText(bits), ")";
    BitsClean(bits);
    CalmText(open);
    CalmText(close);
    CalmAround(open, inner, close);
  }

  lemma GroupKeepsPieces(bits: seq<Bit>, u: string)
    requires GroupOk(bits) && u == PartText(Group(bits))
    ensures KeepsPieces(u)
  {
    forall rest: string, current: string
      ensures Pieces(u + rest, 0, None, current) == Pieces(rest, 0, None, current + u)
    {
      GroupPieces(bits, rest, current);
    }
  }

  lemma GroupKeepsParens(bits: seq<Bit>, u: string)
    requires GroupOk(bits) && u == PartText(Group(bits))
    ensures KeepsParens(u)
  {
    forall rest: string, at: nat, depth: nat | depth >= 1
      ensures ClosingParen(u + rest, at, depth, None) == ClosingParen(rest, at + |u|, depth, None)
    {
      GroupParens(bits, rest, at, depth);
    }
  }

  lemma GroupKeeps(bits: seq<Bit>, u: string)
    requires GroupOk(bits) && u == PartText(Group(bits))
    ensures Keeps(u)
  {
    GroupCleans(bits, u);
    GroupKeepsPieces(bits, u);
    GroupKeepsParens(bits, u);
  }

  // Whole columns

  lemma WordKeeps(word: string)
    requires Flowing(word)
    ensures Keeps(" " + word)
  {
    FlowingKeeps(" " + word);
  }

  lemma PartKeeps(p: Part)
    requires PartOk(p)
    ensures Keeps(PartText(p))
  {
    match p
    case NullMark => FlowingKeeps(PartText(p));
    case NotNullMark => FlowingKeeps(PartText(p));
    case Bare(word) => WordKeeps(word);
    case Phrase(mark, text) =>
      var blank := " ";
      FlowingKeeps(blank);
      EnclosedKeeps(mark, text);
      KeepsConcat(blank, Enclose(mark, text));
    case Group(bits) => GroupKeeps(bits, PartText(p));
  }

  lemma {:induction false} PartsKeep(parts: seq<Part>)
    requires PartsOk(parts)
    ensures Keeps(PartsText(parts))
  {
    if parts == [] {
      NothingKeeps();
    } else {
      PartKeeps(parts[0]);
      PartsKeep(parts[1..]);
      KeepsConcat(PartText(parts[0]), PartsText(parts[1..]));
    }
  }

  lemma ColumnKeeps(c: WrittenColumn)
    requires ColumnOk(c)
    ensures Keeps(ColumnText(c))
  {
    var name, printed, modifiers := Enclose('`', c.name), SqlName(c.ty), PartsText(c.modifiers);
    EnclosedKeeps('`', c.name);
    BlanksFlow(c.gap);
    FlowingKeeps(c.gap);
    PrintedKeeps(c.ty);
    PartsKeep(c.modifiers);
    KeepsConcat(printed, modifiers);
    KeepsConcat(c.gap, printed + modifiers);
    KeepsConcat(name, c.gap + (printed + modifiers));
    QuotedIsEnclosed(c.name, c.gap + (printed + modifiers));
  }
}
