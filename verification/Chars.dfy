/** Character classes and the string operations both the parser and the
    conversions rely on. */
module Chars {
  import opened Numerals

  /** `char::is_whitespace`: the Unicode White_Space property. */
  predicate IsSpace(c: char) {
    var n := c as int;
    || 0x09 <= n <= 0x0D || n == 0x20 || n == 0x85 || n == 0xA0 || n == 0x1680
    || 0x2000 <= n <= 0x200A || n == 0x2028 || n == 0x2029 || n == 0x202F
    || n == 0x205F || n == 0x3000
  }

  predicate IsAlpha(c: char) {
    'a' <= c <= 'z' || 'A' <= c <= 'Z'
  }

  /** `is_ident_byte`. */
  predicate IsIdent(c: char) {
    IsAlpha(c) || IsDigit(c) || c == '_' || c == '$'
  }

  predicate AllIdent(s: string) {
    forall i | 0 <= i < |s| :: IsIdent(s[i])
  }

  predicate NoSpaces(s: string) {
    forall i | 0 <= i < |s| :: !IsSpace(s[i])
  }

  predicate AllSpaces(s: string) {
    forall i | 0 <= i < |s| :: IsSpace(s[i])
  }

  function TrimStart(s: string): (r: string)
    ensures |r| <= |s|
  {
    if s != "" && IsSpace(s[0]) then TrimStart(s[1..]) else s
  }

  function TrimEnd(s: string): (r: string)
    ensures |r| <= |s|
  {
    if s != "" && IsSpace(s[|s| - 1]) then TrimEnd(s[..|s| - 1]) else s
  }

  function Trim(s: string): (r: string)
    ensures |r| <= |s|
  {
    TrimEnd(TrimStart(s))
  }

  function LowerChar(c: char): char {
    if 'A' <= c <= 'Z' then (c as int + 32) as char else c
  }

  function UpperChar(c: char): char {
    if 'a' <= c <= 'z' then (c as int - 32) as char else c
  }

  function Lower(s: string): (r: string)
    ensures |r| == |s| && forall i | 0 <= i < |s| :: r[i] == LowerChar(s[i])
  {
    seq(|s|, i requires 0 <= i < |s| => LowerChar(s[i]))
  }

  function Upper(s: string): (r: string)
    ensures |r| == |s| && forall i | 0 <= i < |s| :: r[i] == UpperChar(s[i])
  {
    seq(|s|, i requires 0 <= i < |s| => UpperChar(s[i]))
  }

  /** `str::len`: UTF-8 bytes, not characters. */
  function Utf8Len(s: string): nat {
    if s == "" then 0 else
      var n := s[0] as int;
      (if n < 0x80 then 1 else if n < 0x800 then 2 else if n < 0x1_0000 then 3 else 4) + Utf8Len(s[1..])
  }

  predicate IsAscii(s: string) {
    forall i | 0 <= i < |s| :: s[i] < 128 as char
  }

  /** Blanks of one byte each. */
  predicate AsciiSpaces(s: string) {
    AllSpaces(s) && IsAscii(s)
  }

  lemma {:induction false} AsciiLen(s: string)
    requires IsAscii(s)
    ensures Utf8Len(s) == |s|
  {
    if s != "" {
      AsciiLen(s[1..]);
    }
  }

  // Trimming text that starts and ends with something else

  lemma TrimClean(s: string)
    requires s == "" || (!IsSpace(s[0]) && !IsSpace(s[|s| - 1]))
    ensures TrimStart(s) == s && TrimEnd(s) == s && Trim(s) == s
  {
  }

  lemma {:induction false} TrimStartSkips(space: string, s: string)
    requires AllSpaces(space)
    ensures TrimStart(space + s) == TrimStart(s)
  {
    if space == "" {
      assert space + s == s;
    } else {
      assert (space + s)[1..] == space[1..] + s;
      TrimStartSkips(space[1..], s);
    }
  }
}
