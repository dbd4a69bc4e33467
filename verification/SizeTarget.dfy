/** `reached_size_target`: stopping on projected bytes. */
module SizeTarget {
  import opened Numerals
  import opened Pipeline

  predicate ReachedSizeTarget(stats: Stats, target: nat)
    requires stats.bytesWritten >= 0 && stats.activeBytes >= 0 && stats.rowsFlushed >= 0 && stats.rowsGenerated >= 0
  {
    var produced := stats.bytesWritten + stats.activeBytes;
    if produced >= target then true
    else if stats.rowsFlushed == 0 || produced == 0 then false
    else produced * stats.rowsGenerated / stats.rowsFlushed >= target
  }

  lemma FloorAtLeast(x: nat, d: nat, t: nat)
    requires d > 0
    ensures x / d >= t <==> x >= t * d
  {
    var q, r := x / d, x % d;
    assert x == q * d + r;
    if q >= t {
      assert q * d >= t * d by { ProductMonotone(t, q, d); }
    } else {
      assert (q + 1) * d <= t * d by { ProductMonotone(q + 1, t, d); }
    }
  }

  /** Rounding the projection down never changes the decision: it is that of
      the exact bytes per row, and it is taken on no rows before any row's
      bytes are known. */
  lemma ProjectionIsExact(stats: Stats, target: nat)
    requires stats.bytesWritten >= 0 && stats.activeBytes >= 0 && stats.rowsFlushed >= 0 && stats.rowsGenerated >= 0
    ensures var produced := stats.bytesWritten + stats.activeBytes;
            ReachedSizeTarget(stats, target) <==>
            (produced >= target
             || (stats.rowsFlushed > 0 && produced > 0
                 && produced * stats.rowsGenerated >= target * stats.rowsFlushed))
  {
    var produced := stats.bytesWritten + stats.activeBytes;
    if stats.rowsFlushed > 0 {
      ProductMonotone(0, produced, stats.rowsGenerated);
      FloorAtLeast(produced * stats.rowsGenerated, stats.rowsFlushed, target);
    }
  }
}
