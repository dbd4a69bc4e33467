/** Object keys (`next_path`): distinct over a whole run, and filling the batch
    folders in order, whichever writer opens the next file. */
module FileNames {
  import opened Numerals

  /** What all writers of a run share. */
  datatype Naming = Naming(prefix: string, runId: string, perFolder: nat)

  function RunFolder(n: Naming): string {
    n.prefix + if n.runId == "" then "" else n.runId + "/"
  }

  function FolderNumber(n: Naming, sequence: nat): nat
    requires n.perFolder > 0
  {
    sequence / n.perFolder + 1
  }

  /** `batch-NNNNN/`, when batch folders are on. */
  function BatchFolder(n: Naming, sequence: nat): string {
    if n.perFolder == 0 then "" else "batch-" + (Padded(FolderNumber(n, sequence), 5) + "/")
  }

  function FileName(writer: nat, index: nat): string {
    "part-w" + (Padded(writer, 2) + ("-" + (Padded(index, 6) + ".parquet")))
  }

  /** The key of the file with this number over all writers, and this number
      for its writer. */
  function Path(n: Naming, sequence: nat, writer: nat, index: nat): string {
    RunFolder(n) + (BatchFolder(n, sequence) + FileName(writer, index))
  }

  // Reading a key back

  predicate StartsNonDigit(s: string) {
    s != "" && !IsDigit(s[0])
  }

  lemma {:induction false} DigitsThenRest(a: string, x: string, b: string, y: string)
    requires AllDigits(a) && AllDigits(b) && StartsNonDigit(x) && StartsNonDigit(y)
    requires a + x == b + y
    ensures a == b && x == y
  {
    if a == "" || b == "" {
      assert a + x == x || b + y == y;
      assert (a + x)[0] == (b + y)[0];
    } else {
      assert a[0] == (a + x)[0] == (b + y)[0] == b[0];
      assert (a + x)[1..] == a[1..] + x && (b + y)[1..] == b[1..] + y;
      DigitsThenRest(a[1..], x, b[1..], y);
    }
  }

  lemma SamePrefix(p: string, x: string, y: string)
    requires p + x == p + y
    ensures x == y
  {
    assert (p + x)[|p|..] == x && (p + y)[|p|..] == y;
  }

  lemma PaddedInjective(m: nat, n: nat, width: nat)
    requires Padded(m, width) == Padded(n, width)
    ensures m == n
  {
    assert Val(Padded(m, width)) == m && Val(Padded(n, width)) == n;
  }

  /** Padded numbers are read back even past the padding, so equal names mean
      equal writer and index. */
  lemma FileNameInjective(w: nat, i: nat, v: nat, j: nat)
    requires FileName(w, i) == FileName(v, j)
    ensures w == v && i == j
  {
    var x, y := "-" + (Padded(i, 6) + ".parquet"), "-" + (Padded(j, 6) + ".parquet");
    SamePrefix("part-w", Padded(w, 2) + x, Padded(v, 2) + y);
    DigitsThenRest(Padded(w, 2), x, Padded(v, 2), y);
    SamePrefix("-", Padded(i, 6) + ".parquet", Padded(j, 6) + ".parquet");
    DigitsThenRest(Padded(i, 6), ".parquet", Padded(j, 6), ".parquet");
    PaddedInjective(w, v, 2);
    PaddedInjective(i, j, 6);
  }

  lemma Nested(a: string, b: string, c: string, rest: string)
    ensures (a + (b + c)) + rest == a + (b + (c + rest))
  {
    assert (a + (b + c)) + rest == a + ((b + c) + rest);
    assert (b + c) + rest == b + (c + rest);
  }

  lemma FolderThenName(n: Naming, s: nat, t: nat, x: string, y: string)
    requires BatchFolder(n, s) + x == BatchFolder(n, t) + y
    ensures x == y
  {
    if n.perFolder == 0 {
      assert "" + x == x && "" + y == y;
    } else {
      var a, b := Padded(FolderNumber(n, s), 5), Padded(FolderNumber(n, t), 5);
      Nested("batch-", a, "/", x);
      Nested("batch-", b, "/", y);
      SamePrefix("batch-", a + ("/" + x), b + ("/" + y));
      DigitsThenRest(a, "/" + x, b, "/" + y);
      SamePrefix("/", x, y);
    }
  }

  lemma PathInjective(n: Naming, s: nat, w: nat, i: nat, t: nat, v: nat, j: nat)
    requires Path(n, s, w, i) == Path(n, t, v, j)
    ensures w == v && i == j
  {
    SamePrefix(RunFolder(n), BatchFolder(n, s) + FileName(w, i), BatchFolder(n, t) + FileName(v, j));
    FolderThenName(n, s, t, FileName(w, i), FileName(v, j));
    FileNameInjective(w, i, v, j);
  }

  // A run's opens, in the order the shared counter saw them

  /** How many of these opens were the writer's. */
  function OpensBy(opens: seq<nat>, writer: nat): nat {
    if opens == [] then 0
    else OpensBy(opens[..|opens| - 1], writer) + if opens[|opens| - 1] == writer then 1 else 0
  }

  /** The key given to open number `k`. */
  function PathAt(n: Naming, opens: seq<nat>, k: nat): string
    requires k < |opens|
  {
    Path(n, k, opens[k], OpensBy(opens[..k], opens[k]) + 1)
  }

  lemma {:induction false} OpensGrow(opens: seq<nat>, j: nat, k: nat)
    requires j < k <= |opens|
    ensures OpensBy(opens[..j], opens[j]) < OpensBy(opens[..k], opens[j])
    decreases k
  {
    assert opens[..k][..k - 1] == opens[..k - 1] && opens[..k][k - 1] == opens[k - 1];
    if j < k - 1 {
      OpensGrow(opens, j, k - 1);
    }
  }

  /** No two files of a run have the same key, whatever the interleaving. */
  lemma PathsDistinct(n: Naming, opens: seq<nat>, j: nat, k: nat)
    requires j < k < |opens|
    ensures PathAt(n, opens, j) != PathAt(n, opens, k)
  {
    OpensGrow(opens, j, k);
    if PathAt(n, opens, j) == PathAt(n, opens, k) {
      PathInjective(n, j, opens[j], OpensBy(opens[..j], opens[j]) + 1, k, opens[k], OpensBy(opens[..k], opens[k]) + 1);
    }
  }

  // Batch folders

  /** How many of the first `opens` files went to the folder. */
  function InFolder(n: Naming, opens: nat, folder: nat): nat
    requires n.perFolder > 0
  {
    if opens == 0 then 0
    else InFolder(n, opens - 1, folder) + if FolderNumber(n, opens - 1) == folder then 1 else 0
  }

  lemma FolderRange(per: nat, sequence: nat, folder: nat)
    requires per > 0 && folder >= 1
    ensures sequence / per + 1 == folder <==> (folder - 1) * per <= sequence < (folder - 1) * per + per
  {
    var q, r := sequence / per, sequence % per;
    assert sequence == q * per + r;
    if q < folder - 1 {
      assert (q + 1) * per <= (folder - 1) * per by { ProductMonotone(q + 1, folder - 1, per); }
    } else if q > folder - 1 {
      assert folder * per <= q * per by { ProductMonotone(folder, q, per); }
      assert (folder - 1) * per + per == folder * per;
    }
  }

  /** Folders fill in order, each to exactly the configured number of assigned
      keys before the next one starts. */
  lemma {:induction false} FoldersFillInOrder(n: Naming, opens: nat, folder: nat)
    requires n.perFolder > 0 && folder >= 1
    ensures InFolder(n, opens, folder) == Clamp(opens - (folder - 1) * n.perFolder, 0, n.perFolder)
  {
    if opens > 0 {
      FoldersFillInOrder(n, opens - 1, folder);
      FolderRange(n.perFolder, opens - 1, folder);
      OneMoreFits(opens - 1, (folder - 1) * n.perFolder, n.perFolder);
    }
  }

  /** One more key fills a folder by one exactly inside its range. */
  lemma OneMoreFits(opens: nat, start: int, per: nat)
    ensures Clamp(opens + 1 - start, 0, per) ==
            Clamp(opens - start, 0, per) + if start <= opens < start + per then 1 else 0
  {
  }

  // What became of the files

  /** What became of the file given a key. */
  datatype Outcome = Unfinished | Completed | LostAtOpen | LostAtWrite | LostAtClose

  /** How many completed files the folder holds, `outcomes` being what became of
      the opens in the order of their keys. */
  function HeldIn(n: Naming, outcomes: seq<Outcome>, folder: nat): nat
    requires n.perFolder > 0
  {
    if outcomes == [] then 0
    else
      var last := |outcomes| - 1;
      HeldIn(n, outcomes[..last], folder)
      + if FolderNumber(n, last) == folder && outcomes[last].Completed? then 1 else 0
  }

  /** Every key assigned to the folder so far led to a completed file. */
  predicate NoneLost(n: Naming, outcomes: seq<Outcome>, folder: nat)
    requires n.perFolder > 0
  {
    forall k | 0 <= k < |outcomes| && FolderNumber(n, k) == folder :: outcomes[k].Completed?
  }

  lemma NoneLostStep(n: Naming, outcomes: seq<Outcome>, folder: nat)
    requires n.perFolder > 0 && outcomes != []
    ensures var last := |outcomes| - 1;
            NoneLost(n, outcomes, folder) <==>
            NoneLost(n, outcomes[..last], folder) && (FolderNumber(n, last) == folder ==> outcomes[last].Completed?)
  {
    var last := |outcomes| - 1;
    forall k | 0 <= k < last
      ensures outcomes[..last][k] == outcomes[k]
    {
    }
    if NoneLost(n, outcomes, folder) {
      forall k | 0 <= k < last && FolderNumber(n, k) == folder
        ensures outcomes[..last][k].Completed?
      {
        assert outcomes[k].Completed?;
      }
    }
  }

  /** A folder holds as many files as it was assigned keys when none was lost,
      and fewer when one was. */
  lemma {:induction false} HeldOfAssigned(n: Naming, outcomes: seq<Outcome>, folder: nat)
    requires n.perFolder > 0
    ensures HeldIn(n, outcomes, folder) <= InFolder(n, |outcomes|, folder)
    ensures HeldIn(n, outcomes, folder) == InFolder(n, |outcomes|, folder) <==> NoneLost(n, outcomes, folder)
  {
    if outcomes != [] {
      HeldOfAssigned(n, outcomes[..|outcomes| - 1], folder);
      NoneLostStep(n, outcomes, folder);
    }
  }

  /** A folder holds exactly the configured number of files if and only if all
      its keys were assigned and every one of them led to a completed file. */
  lemma FolderIsFull(n: Naming, outcomes: seq<Outcome>, folder: nat)
    requires n.perFolder > 0 && folder >= 1
    ensures var first := (folder - 1) * n.perFolder;
            HeldIn(n, outcomes, folder) == n.perFolder <==>
            && first + n.perFolder <= |outcomes|
            && forall k | first <= k < first + n.perFolder :: outcomes[k].Completed?
  {
    var first := (folder - 1) * n.perFolder;
    HeldOfAssigned(n, outcomes, folder);
    FoldersFillInOrder(n, |outcomes|, folder);
    forall k: nat
      ensures FolderNumber(n, k) == folder <==> first <= k < first + n.perFolder
    {
      FolderRange(n.perFolder, k, folder);
    }
    ProductMonotone(0, folder - 1, n.perFolder);
  }

  function CompletedOf(outcomes: seq<Outcome>): nat {
    if outcomes == [] then 0
    else CompletedOf(outcomes[..|outcomes| - 1]) + if outcomes[|outcomes| - 1].Completed? then 1 else 0
  }

  /** Across all folders: as many files were completed as keys were assigned if
      and only if every file was. */
  lemma {:induction false} AllCompleted(outcomes: seq<Outcome>)
    ensures CompletedOf(outcomes) <= |outcomes|
    ensures CompletedOf(outcomes) == |outcomes| <==> forall k | 0 <= k < |outcomes| :: outcomes[k].Completed?
  {
    if outcomes != [] {
      var last := |outcomes| - 1;
      AllCompleted(outcomes[..last]);
      if forall k | 0 <= k < last :: outcomes[..last][k].Completed? {
        assert forall k | 0 <= k < last :: outcomes[k] == outcomes[..last][k];
      }
    }
  }

  lemma {:induction false} HeldAtMost(n: Naming, outcomes: seq<Outcome>, folder: nat)
    requires n.perFolder > 0
    ensures HeldIn(n, outcomes, folder) <= CompletedOf(outcomes)
  {
    if outcomes != [] {
      HeldAtMost(n, outcomes[..|outcomes| - 1], folder);
    }
  }
}
