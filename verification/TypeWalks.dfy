/** Bracket balance: text every scanner passes over as one unit. */
module TypeWalks {
  import opened Wrappers
  import opened Chars
  import opened Scanners

  /** Which brackets a scanner counts. `Flat` counts both and refuses a comma
      outside them. */
  datatype Kind = Round | Angle | Both | Flat

  predicate Up(c: char, k: Kind) {
    (c == '(' && k != Angle) || (c == '<' && k != Round)
  }

  predicate Down(c: char, k: Kind) {
    (c == ')' && k != Angle) || (c == '>' && k != Round)
  }

  /** The characters a printed type is made of. */
  predicate Benign(c: char) {
    IsIdent(c) || c == '<' || c == '>' || c == '(' || c == ')' || c == ',' || c == ':'
  }

  /** The depth after `s`, if it is benign and never closes more than it opened. */
  function Walk(s: string, depth: nat, k: Kind): Option<nat> {
    if s == "" then Some(depth)
    else if !Benign(s[0]) then None
    else if Up(s[0], k) then Walk(s[1..], depth + 1, k)
    else if Down(s[0], k) then if depth == 0 then None else Walk(s[1..], depth - 1, k)
    else if s[0] == ',' && k == Flat && depth == 0 then None
    else Walk(s[1..], depth, k)
  }

  predicate Level(s: string, k: Kind) {
    Walk(s, 0, k) == Some(0)
  }

  lemma {:induction false} WalkConcat(a: string, b: string, depth: nat, k: Kind)
    requires Walk(a, depth, k).Some?
    ensures Walk(a + b, depth, k) == Walk(b, Walk(a, depth, k).value, k)
  {
    if a == "" {
      assert a + b == b;
    } else {
      assert (a + b)[1..] == a[1..] + b;
      WalkConcat(a[1..], b, if Up(a[0], k) then depth + 1 else if Down(a[0], k) then depth - 1 else depth, k);
    }
  }

  /** Starting deeper ends deeper, and makes top-level commas harmless. */
  lemma {:induction false} WalkRaise(s: string, depth: nat, k: Kind)
    requires k != Flat && Walk(s, depth, k).Some?
    ensures Walk(s, depth + 1, k) == Some(Walk(s, depth, k).value + 1)
    ensures k == Both ==> Walk(s, depth + 1, Flat) == Some(Walk(s, depth, k).value + 1)
  {
    if s != "" {
      WalkRaise(s[1..], if Up(s[0], k) then depth + 1 else if Down(s[0], k) then depth - 1 else depth, k);
    }
  }

  lemma {:induction false} WalkIdent(s: string, depth: nat, k: Kind)
    requires AllIdent(s)
    ensures Walk(s, depth, k) == Some(depth)
  {
    if s != "" {
      WalkIdent(s[1..], depth, k);
    }
  }

  lemma {:induction false} WalkBenign(s: string, depth: nat, k: Kind)
    requires Walk(s, depth, k).Some?
    ensures forall i | 0 <= i < |s| :: Benign(s[i])
  {
    if s != "" {
      WalkBenign(s[1..], if Up(s[0], k) then depth + 1 else if Down(s[0], k) then depth - 1 else depth, k);
      assert forall i | 1 <= i < |s| :: s[i] == s[1..][i - 1];
    }
  }

  lemma {:induction false} WalkUpper(s: string, depth: nat, k: Kind)
    ensures Walk(Upper(s), depth, k) == Walk(s, depth, k)
  {
    if s != "" {
      assert Upper(s)[1..] == Upper(s[1..]);
      WalkUpper(s[1..], depth + 1, k);
      WalkUpper(s[1..], depth, k);
      if depth > 0 {
        WalkUpper(s[1..], depth - 1, k);
      }
    }
  }

  lemma LevelConcat(a: string, b: string, k: Kind)
    requires Level(a, k) && Level(b, k)
    ensures Level(a + b, k)
  {
    WalkConcat(a, b, 0, k);
  }

  lemma WalkOne(c: char, depth: nat, k: Kind)
    ensures Walk([c], depth, k) ==
            if !Benign(c) then None
            else if Up(c, k) then Some(depth + 1)
            else if Down(c, k) then if depth == 0 then None else Some(depth - 1)
            else if c == ',' && k == Flat && depth == 0 then None
            else Some(depth)
  {
    assert [c][1..] == "";
  }

  /** Brackets around level text, whatever commas it holds, are level. */
  lemma LevelBracketed(open: char, s: string, close: char, k: Kind)
    requires (open == '(' && close == ')') || (open == '<' && close == '>')
    requires Level(s, if k == Flat then Both else k)
    ensures Level([open] + s + [close], k)
  {
    var inside := if k == Flat then Both else k;
    WalkRaise(s, 0, inside);
    WalkOne(open, 0, k);
    WalkOne(close, if Up(open, k) then 1 else 0, k);
    WalkConcat([open], s, 0, k);
    WalkConcat([open] + s, [close], 0, k);
  }

  // Passing over level text

  lemma {:induction false} PiecesSkip(u: string, rest: string, depth: nat, current: string)
    requires Walk(u, depth, Flat).Some?
    ensures Pieces(u + rest, depth, None, current) == Pieces(rest, Walk(u, depth, Flat).value, None, current + u)
  {
    if u == "" {
      assert u + rest == rest && current + u == current;
    } else {
      assert (u + rest)[1..] == u[1..] + rest;
      assert (current + [u[0]]) + u[1..] == current + u;
      PiecesSkip(u[1..], rest, NextDepth(u[0], depth), current + [u[0]]);
    }
  }

  lemma {:induction false} AngleSkip(u: string, rest: string, depth: nat)
    requires Walk(u, depth, Angle).Some?
    ensures AngleEnd(u + rest, depth + 1) == |u| + AngleEnd(rest, Walk(u, depth, Angle).value + 1)
  {
    if u == "" {
      assert u + rest == rest;
    } else {
      assert (u + rest)[1..] == u[1..] + rest;
      AngleSkip(u[1..], rest, if u[0] == '<' then depth + 1 else if u[0] == '>' then depth - 1 else depth);
    }
  }

  lemma {:induction false} ParenSkip(u: string, rest: string, at: nat, depth: nat)
    requires Walk(u, depth, Round).Some?
    ensures ClosingParen(u + rest, at, depth + 1, None)
         == ClosingParen(rest, at + |u|, Walk(u, depth, Round).value + 1, None)
  {
    if u == "" {
      assert u + rest == rest;
    } else {
      assert (u + rest)[1..] == u[1..] + rest;
      ParenSkip(u[1..], rest, at + 1, if u[0] == '(' then depth + 1 else if u[0] == ')' then depth - 1 else depth);
    }
  }

  lemma {:induction false} KeywordSkip(s: string, i: nat, j: nat, depth: nat, keyword: string)
    requires i <= j <= |s| && Walk(s[i..j], depth, Both).Some?
    ensures KeywordIndex(s, i, depth + 1, keyword)
         == KeywordIndex(s, j, Walk(s[i..j], depth, Both).value + 1, keyword)
    decreases j - i
  {
    if i < j {
      var u := s[i..j];
      assert u[0] == s[i] && u[1..] == s[i + 1..j];
      var next := if Up(u[0], Both) then depth + 1 else if Down(u[0], Both) then depth - 1 else depth;
      KeywordSkip(s, i + 1, j, next, keyword);
    }
  }

  lemma {:induction false} BlankedBenign(s: string)
    requires forall i | 0 <= i < |s| :: Benign(s[i])
    ensures Blanked(s, None, false) == s
  {
    if s != "" {
      assert Benign(s[0]);
      BlankedBenign(s[1..]);
    }
  }

  /** Past the first character of an identifier no keyword starts inside it. */
  lemma {:induction false} KeywordSkipIdent(s: string, i: nat, j: nat, keyword: string)
    requires 1 <= i <= j <= |s| && AllIdent(s[..j])
    ensures KeywordIndex(s, i, 0, keyword) == KeywordIndex(s, j, 0, keyword)
    decreases j - i
  {
    if i < j {
      assert s[i - 1] == s[..j][i - 1] && s[i] == s[..j][i];
      KeywordSkipIdent(s, i + 1, j, keyword);
    }
  }
}
