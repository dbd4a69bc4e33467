/** The Parquet file writer as a machine that cuts row groups at a row limit,
    and how far a file that rolls can pass the size cap. */
module RowGroups {

  datatype Group = Group(rows: nat, bytes: nat)

  /** An open file: bytes handed over when it was started, the groups encoded so
      far, and the rows waiting for the next group. */
  datatype OpenFile = OpenFile(start: nat, groups: seq<Group>, tail: nat)

  function GroupBytes(groups: seq<Group>): nat {
    if groups == [] then 0 else GroupBytes(groups[..|groups| - 1]) + groups[|groups| - 1].bytes
  }

  function GroupRows(groups: seq<Group>): nat {
    if groups == [] then 0 else GroupRows(groups[..|groups| - 1]) + groups[|groups| - 1].rows
  }

  /** `bytes_written`. */
  function FileBytes(f: OpenFile): nat {
    f.start + GroupBytes(f.groups)
  }

  function FileRows(f: OpenFile): nat {
    GroupRows(f.groups) + f.tail
  }

  /** Every group is exactly full and the tail is not. */
  predicate Cut(f: OpenFile, limit: nat) {
    f.tail < limit && forall i | 0 <= i < |f.groups| :: f.groups[i].rows == limit
  }

  /** The file after a batch; `encode` gives the size of each group by number. */
  function AddRows(f: OpenFile, rows: nat, limit: nat, encode: nat -> nat): OpenFile
    requires limit >= 1
    decreases f.tail + rows
  {
    if f.tail + rows < limit then f.(tail := f.tail + rows)
    else
      var full := Group(limit, encode(|f.groups|));
      AddRows(OpenFile(f.start, f.groups + [full], 0), f.tail + rows - limit, limit, encode)
  }

  /** The groups of the file once closed: a tail becomes one last group. */
  function ClosedGroups(f: OpenFile, tailBytes: nat): seq<Group> {
    if f.tail == 0 then f.groups else f.groups + [Group(f.tail, tailBytes)]
  }

  /** The loop in the writer: fill the group in progress, cut it, go on. */
  method WriteRows(f: OpenFile, rows: nat, limit: nat, encode: nat -> nat) returns (g: OpenFile)
    requires limit >= 1
    ensures g == AddRows(f, rows, limit, encode)
  {
    g := f;
    var left: nat := rows;
    while g.tail + left >= limit
      invariant AddRows(g, left, limit, encode) == AddRows(f, rows, limit, encode)
      decreases g.tail + left
    {
      left := g.tail + left - limit;
      g := OpenFile(g.start, g.groups + [Group(limit, encode(|g.groups|))], 0);
    }
    g := g.(tail := g.tail + left);
  }

  lemma LastGroup(groups: seq<Group>, last: Group)
    ensures GroupRows(groups + [last]) == GroupRows(groups) + last.rows
    ensures GroupBytes(groups + [last]) == GroupBytes(groups) + last.bytes
  {
    assert (groups + [last])[..|groups|] == groups;
  }

  /** No row is lost, groups are cut at exactly the limit, and what was encoded
      before stays. */
  lemma {:induction false} AddRowsCuts(f: OpenFile, rows: nat, limit: nat, encode: nat -> nat)
    requires limit >= 1 && Cut(f, limit)
    ensures var g := AddRows(f, rows, limit, encode);
            Cut(g, limit) && FileRows(g) == FileRows(f) + rows && g.start == f.start && f.groups <= g.groups
    decreases f.tail + rows
  {
    if f.tail + rows >= limit {
      var full := Group(limit, encode(|f.groups|));
      LastGroup(f.groups, full);
      AddRowsCuts(OpenFile(f.start, f.groups + [full], 0), f.tail + rows - limit, limit, encode);
    }
  }

  /** A batch no longer than a group closes at most one group, and what is left
      over is then shorter than the batch. */
  lemma OneGroupAtMost(f: OpenFile, rows: nat, limit: nat, encode: nat -> nat)
    requires limit >= 1 && Cut(f, limit) && rows <= limit
    ensures var g := AddRows(f, rows, limit, encode);
            || (g.groups == f.groups && g.tail == f.tail + rows)
            || (g.groups == f.groups + [Group(limit, encode(|f.groups|))] && g.tail < rows)
  {
    if f.tail + rows >= limit {
      var full := Group(limit, encode(|f.groups|));
      var left := f.tail + rows - limit;
      var next := OpenFile(f.start, f.groups + [full], 0);
      assert AddRows(f, rows, limit, encode) == AddRows(next, left, limit, encode);
    }
  }

  /** A file below the cap that a batch takes to the cap is closed with at most
      the crossing group and a tail shorter than the batch beyond the cap, and
      only that tail is not a full group. */
  lemma RollBound(f: OpenFile, rows: nat, limit: nat, encode: nat -> nat, cap: nat, tailBytes: nat)
    requires limit >= 1 && Cut(f, limit) && rows <= limit && FileBytes(f) < cap
    requires FileBytes(AddRows(f, rows, limit, encode)) >= cap
    ensures var g := AddRows(f, rows, limit, encode);
            var closed := ClosedGroups(g, tailBytes);
            && |g.groups| == |f.groups| + 1 && g.tail < rows
            && g.start + GroupBytes(closed) < cap + encode(|f.groups|) + (if g.tail == 0 then 0 else tailBytes)
            && GroupRows(closed) == FileRows(f) + rows
            && forall i | 0 <= i < |closed| - 1 :: closed[i].rows == limit
  {
    var g := AddRows(f, rows, limit, encode);
    var full := Group(limit, encode(|f.groups|));
    OneGroupAtMost(f, rows, limit, encode);
    AddRowsCuts(f, rows, limit, encode);
    LastGroup(f.groups, full);
    assert g.groups == f.groups + [full];
    ClosedAdds(g, limit, tailBytes);
  }

  /** Closing adds the tail, if any, as one last group. */
  lemma ClosedAdds(g: OpenFile, limit: nat, tailBytes: nat)
    requires Cut(g, limit)
    ensures var closed := ClosedGroups(g, tailBytes);
            && GroupRows(closed) == FileRows(g)
            && GroupBytes(closed) == GroupBytes(g.groups) + (if g.tail == 0 then 0 else tailBytes)
            && forall i | 0 <= i < |closed| - 1 :: closed[i].rows == limit
  {
    LastGroup(g.groups, Group(g.tail, tailBytes));
  }
}
