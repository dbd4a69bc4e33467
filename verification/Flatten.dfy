/** Concatenating the rows of a variable-size column, and the offsets that
    find each row again. */
module Flatten {

  function Concat<T>(parts: seq<seq<T>>): seq<T> {
    if parts == [] then [] else Concat(parts[..|parts| - 1]) + parts[|parts| - 1]
  }

  /** Where row `i` starts. */
  function StartOf<T>(parts: seq<seq<T>>, i: nat): nat
    requires i <= |parts|
  {
    |Concat(parts[..i])|
  }

  function Offsets<T>(parts: seq<seq<T>>): (offsets: seq<int>)
    ensures |offsets| == |parts| + 1
  {
    seq(|parts| + 1, i requires 0 <= i <= |parts| => StartOf(parts, i))
  }

  lemma {:induction false} ConcatAppend<T>(a: seq<seq<T>>, b: seq<seq<T>>)
    ensures Concat(a + b) == Concat(a) + Concat(b)
  {
    if b == [] {
      assert a + b == a;
    } else {
      var b' := b[..|b| - 1];
      assert (a + b)[..|a + b| - 1] == a + b';
      ConcatAppend(a, b');
    }
  }

  lemma LastRow<T>(parts: seq<seq<T>>, i: nat)
    requires i < |parts|
    ensures Concat(parts[..i + 1]) == Concat(parts[..i]) + parts[i]
  {
    assert parts[..i + 1][..i] == parts[..i];
  }

  lemma UpTo<T>(parts: seq<seq<T>>, i: nat)
    requires i <= |parts|
    ensures Concat(parts) == Concat(parts[..i]) + Concat(parts[i..])
  {
    assert parts == parts[..i] + parts[i..];
    ConcatAppend(parts[..i], parts[i..]);
  }

  lemma Middle<T>(whole: seq<T>, a: seq<T>, b: seq<T>, c: seq<T>)
    requires whole == (a + b) + c
    ensures |a| + |b| <= |whole|
    ensures forall j | 0 <= j < |b| :: whole[|a| + j] == b[j]
  {
  }

  lemma RowSplits<T>(parts: seq<seq<T>>, i: nat, before: seq<T>, row: seq<T>, after: seq<T>)
    requires i < |parts| && before == Concat(parts[..i]) && row == parts[i] && after == Concat(parts[i + 1..])
    ensures Concat(parts) == (before + row) + after
  {
    UpTo(parts, i + 1);
    LastRow(parts, i);
  }

  /** Row `i` sits between its two offsets. */
  lemma RowSlice<T>(parts: seq<seq<T>>, i: nat)
    requires i < |parts|
    ensures StartOf(parts, i + 1) == StartOf(parts, i) + |parts[i]|
    ensures StartOf(parts, i + 1) <= |Concat(parts)|
    ensures forall j | 0 <= j < |parts[i]| :: Concat(parts)[StartOf(parts, i) + j] == parts[i][j]
  {
    var before, row, after := Concat(parts[..i]), parts[i], Concat(parts[i + 1..]);
    RowSplits(parts, i, before, row, after);
    Middle(Concat(parts), before, row, after);
    LastRow(parts, i);
  }

  lemma {:induction false} StartsOrdered<T>(parts: seq<seq<T>>, i: nat, j: nat)
    requires i <= j <= |parts|
    ensures StartOf(parts, i) <= StartOf(parts, j)
    decreases j - i
  {
    if i < j {
      RowSlice(parts, j - 1);
      StartsOrdered(parts, i, j - 1);
    }
  }

  /** Offsets start at 0, never decrease, and end at the flattened length. */
  lemma OffsetsShape<T>(parts: seq<seq<T>>)
    ensures var offsets := Offsets(parts);
            && offsets[0] == 0 && offsets[|parts|] == |Concat(parts)|
            && (forall i, j | 0 <= i <= j < |offsets| :: offsets[i] <= offsets[j])
  {
    var offsets := Offsets(parts);
    assert parts[..|parts|] == parts;
    forall i, j | 0 <= i <= j < |offsets|
      ensures offsets[i] <= offsets[j]
    {
      StartsOrdered(parts, i, j);
    }
  }

  lemma {:induction false} ConcatMember<T>(parts: seq<seq<T>>, x: T)
    ensures x in Concat(parts) <==> exists i :: 0 <= i < |parts| && x in parts[i]
  {
    if parts != [] {
      var init := parts[..|parts| - 1];
      ConcatMember(init, x);
      if x in Concat(init) {
        var i :| 0 <= i < |init| && x in init[i];
        assert x in parts[i];
      }
    }
  }

  /** Appending rows shifts the second half's offsets by the first half's end. */
  lemma OffsetsAppend<T>(a: seq<seq<T>>, b: seq<seq<T>>, i: nat)
    requires i <= |b|
    ensures StartOf(a + b, |a| + i) == |Concat(a)| + StartOf(b, i)
  {
    assert (a + b)[..|a| + i] == a + b[..i];
    ConcatAppend(a, b[..i]);
  }

  lemma RowMember<T>(parts: seq<seq<T>>, i: nat, j: nat)
    requires i < |parts| && j < |parts[i]|
    ensures parts[i][j] in Concat(parts)
  {
    ConcatMember(parts, parts[i][j]);
  }

  /** A property of every flattened element is one of every row's elements. */
  lemma ConcatAll<T>(parts: seq<seq<T>>, p: T -> bool)
    ensures (forall n | 0 <= n < |Concat(parts)| :: p(Concat(parts)[n])) <==>
            (forall i | 0 <= i < |parts| :: forall j | 0 <= j < |parts[i]| :: p(parts[i][j]))
  {
    if forall n | 0 <= n < |Concat(parts)| :: p(Concat(parts)[n]) {
      forall i, j | 0 <= i < |parts| && 0 <= j < |parts[i]|
        ensures p(parts[i][j])
      {
        RowMember(parts, i, j);
        assert exists n :: 0 <= n < |Concat(parts)| && Concat(parts)[n] == parts[i][j];
      }
    }
    if forall i | 0 <= i < |parts| :: forall j | 0 <= j < |parts[i]| :: p(parts[i][j]) {
      forall n | 0 <= n < |Concat(parts)|
        ensures p(Concat(parts)[n])
      {
        ConcatMember(parts, Concat(parts)[n]);
        var i :| 0 <= i < |parts| && Concat(parts)[n] in parts[i];
        var j :| 0 <= j < |parts[i]| && parts[i][j] == Concat(parts)[n];
        assert p(parts[i][j]);
      }
    }
  }
}
