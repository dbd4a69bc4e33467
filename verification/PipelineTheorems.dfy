/** What the accounting says about whole runs. */
module PipelineTheorems {
  import opened Wrappers
  import opened Sums
  import opened Pipeline
  import opened PipelineAccounting

  // Conservation

  function TransitGiven(w: Worker): nat {
    Transit(w) + w.given
  }

  function FileRows(w: Worker): nat {
    w.rowsInActive + w.completed
  }

  lemma CarriedSplits(ws: seq<Worker>)
    ensures SumBy(ws, Carried) == SumBy(ws, Held) + SumBy(ws, InFiles)
    ensures SumBy(ws, InFiles) ==
            SumBy(ws, OpenRows) + SumBy(ws, Completed) + SumBy(ws, Transit) + SumBy(ws, Given)
  {
    SumByAdd(ws, Carried, Held, InFiles);
    SumByAdd(ws, InFiles, FileRows, TransitGiven);
    SumByAdd(ws, FileRows, OpenRows, Completed);
    SumByAdd(ws, TransitGiven, Transit, Given);
  }

  /** In a `--rows N` run every one of the N rows is, at every moment, in exactly
      one place: the budget, a generator's hands, the queue, a batch a worker
      holds, an open file, a completed file, a credit on its way back, or a
      batch that was given up. */
  lemma RowsConserved(cfg: Config, states: seq<State>, actions: seq<Action>, k: nat)
    requires ConfigOk(cfg) && Run(cfg, states, actions) && k < |states| && cfg.quota.Some?
    ensures var s := states[k];
            && s.shared.remaining.Some?
            && cfg.quota.value == s.shared.remaining.value + SumBy(s.gens, Hands) + SumBy(s.queue, Rows)
                 + SumBy(s.workers, Held) + SumBy(s.workers, OpenRows) + SumBy(s.workers, Completed)
                 + SumBy(s.workers, Transit) + s.unsent + s.shared.dropped
  {
    RunKeeps(cfg, states, actions, k);
    CarriedSplits(states[k].workers);
  }

  // Shared gauges and row counters

  lemma AllIdle(ws: seq<Worker>)
    requires forall i | 0 <= i < |ws| :: Idle(ws[i])
    ensures SumBy(ws, RepBuffered) == 0 && SumBy(ws, RepActive) == 0
    ensures SumBy(ws, RepFlushed) == SumBy(ws, Completed)
  {
    SumByZero(ws, RepBuffered);
    SumByZero(ws, RepActive);
    SumBySame(ws, RepFlushed, Completed);
  }

  /** At the queue without a file, or ended with its last file closed. */
  predicate FileSettled(w: Worker) {
    (w.pc.Recv? && !w.hasFile) || w.pc == Finished(true)
  }

  /** At every moment of every run each gauge is the sum of the writers' shares,
      so no subtraction takes one below zero; and when every writer's last call
      left no file, both byte gauges are zero and `rows_flushed` is the rows in
      completed files. */
  lemma GaugesAreShares(cfg: Config, states: seq<State>, actions: seq<Action>, k: nat)
    requires ConfigOk(cfg) && Run(cfg, states, actions) && k < |states|
    ensures var s, stats := states[k], states[k].shared.stats;
            && stats.bufferedBytes == SumBy(s.workers, RepBuffered) >= 0
            && stats.activeBytes == SumBy(s.workers, RepActive) >= 0
            && stats.rowsFlushed == SumBy(s.workers, RepFlushed) >= 0
            && ((forall i | 0 <= i < |s.workers| :: FileSettled(s.workers[i])) ==>
                  stats.bufferedBytes == 0 && stats.activeBytes == 0
                  && stats.rowsFlushed == SumBy(s.workers, Completed))
  {
    RunKeeps(cfg, states, actions, k);
    var s := states[k];
    if forall i | 0 <= i < |s.workers| :: FileSettled(s.workers[i]) {
      forall i | 0 <= i < |s.workers|
        ensures Idle(s.workers[i])
      {
        assert WorkerOk(cfg, s.workers[i]);
      }
      AllIdle(s.workers);
    }
  }

  /** At every moment of every run, neither `saturating_sub` of a sink about to
      run saturates. */
  lemma NothingSaturates(cfg: Config, states: seq<State>, actions: seq<Action>, k: nat, i: nat)
    requires ConfigOk(cfg) && Run(cfg, states, actions) && k < |states| && i < |states[k].workers|
    ensures var w := states[k].workers[i];
            && (w.pc.SyncFlushed? ==> w.meter.pending <= w.rowsSeen)
            && (w.pc.AbandonActive? ==> w.rowsInActive <= w.rowsSeen)
  {
    RunKeeps(cfg, states, actions, k);
    assert WorkerOk(cfg, states[k].workers[i]);
  }

  /** A worker that is not inside a call of its sink. */
  predicate BetweenCalls(w: Worker) {
    w.pc.Recv? || w.pc.Finished? || w.pc.Failed?
  }

  lemma BetweenCallsSums(ws: seq<Worker>)
    requires forall i | 0 <= i < |ws| :: BetweenCalls(ws[i])
    ensures SumBy(ws, Uncounted) == 0 && SumBy(ws, Transit) == 0 && SumBy(ws, Held) == 0
    ensures SumBy(ws, LostRows) == SumBy(ws, Given)
  {
    SumByZero(ws, Uncounted);
    SumByZero(ws, Transit);
    SumByZero(ws, Held);
    SumBySame(ws, LostRows, Given);
  }

  /** Between sink calls, `rows` is the rows in completed files, in files not
      completed, and lost; and each writer's `rows_seen` is its own part of the
      first two. */
  lemma RowsAccounted(cfg: Config, states: seq<State>, actions: seq<Action>, k: nat)
    requires ConfigOk(cfg) && Run(cfg, states, actions) && k < |states|
    requires forall i | 0 <= i < |states[k].workers| :: BetweenCalls(states[k].workers[i])
    ensures var s := states[k];
            s.shared.stats.rows == SumBy(s.workers, Completed) + SumBy(s.workers, OpenRows) + s.shared.stats.rowsLost
    ensures forall i | 0 <= i < |states[k].workers| ::
              states[k].workers[i].rowsSeen == states[k].workers[i].completed + states[k].workers[i].rowsInActive
  {
    RunKeeps(cfg, states, actions, k);
    CarriedSplits(states[k].workers);
    BetweenCallsSums(states[k].workers);
    assert forall i | 0 <= i < |states[k].workers| :: WorkerOk(cfg, states[k].workers[i]);
  }

  // The end of a run

  predicate Ended(s: State) {
    GensDone(s) && WorkersDone(s)
  }

  /** Every worker ended without an error, as it must for the run to succeed. */
  predicate AllFinished(s: State) {
    forall i | 0 <= i < |s.workers| :: s.workers[i].pc.Finished?
  }

  // What unclosed last files leave in the gauges

  /** Rows a writer reported flushed that are in no completed file. */
  function AheadRows(w: Worker): nat {
    if w.repFlushed >= w.completed then w.repFlushed - w.completed else 0
  }

  /** The writer's share of every gauge is settled. */
  predicate SharesSettled(w: Worker) {
    w.repBuffered == 0 && w.repActive == 0 && AheadRows(w) == 0
  }

  lemma ClosedWorkersSettle(cfg: Config, s: State)
    requires WorkersOk(cfg, s) && AllFinished(s)
    ensures forall i | 0 <= i < |s.workers| && s.workers[i].pc != Finished(false) :: SharesSettled(s.workers[i])
    ensures SumBy(s.workers, RepFlushed) == SumBy(s.workers, Completed) + SumBy(s.workers, AheadRows)
  {
    forall i | 0 <= i < |s.workers|
      ensures s.workers[i].pc != Finished(false) ==> SharesSettled(s.workers[i])
      ensures RepFlushed(s.workers[i]) == Completed(s.workers[i]) + AheadRows(s.workers[i])
    {
      assert WorkerOk(cfg, s.workers[i]) && s.workers[i].pc.Finished?;
    }
    SumByAdd(s.workers, RepFlushed, Completed, AheadRows);
  }

  /** Every writer whose last file could not be closed has a share of nothing. */
  predicate UnclosedHave(s: State, share: Worker -> nat) {
    forall i | 0 <= i < |s.workers| && s.workers[i].pc == Finished(false) :: share(s.workers[i]) == 0
  }

  lemma UnclosedShow(s: State, share: Worker -> nat)
    requires forall i | 0 <= i < |s.workers| && s.workers[i].pc != Finished(false) :: share(s.workers[i]) == 0
    ensures SumBy(s.workers, share) == 0 <==> UnclosedHave(s, share)
  {
    SumByZeroExactly(s.workers, share);
  }

  /** At the end of a successful run each byte gauge is zero, and `rows_flushed`
      the rows in completed files, if and only if every writer whose last file
      could not be closed had reported nothing of it: a failed close leaves the
      shares of its file behind. */
  lemma LeftoverGauges(cfg: Config, states: seq<State>, actions: seq<Action>)
    requires ConfigOk(cfg) && Run(cfg, states, actions)
    requires var s := states[|states| - 1]; Ended(s) && AllFinished(s)
    ensures var s := states[|states| - 1];
            && (s.shared.stats.bufferedBytes == 0 <==> UnclosedHave(s, RepBuffered))
            && (s.shared.stats.activeBytes == 0 <==> UnclosedHave(s, RepActive))
            && (s.shared.stats.rowsFlushed == SumBy(s.workers, Completed) <==> UnclosedHave(s, AheadRows))
  {
    var s := states[|states| - 1];
    RunKeeps(cfg, states, actions, |states| - 1);
    ClosedWorkersSettle(cfg, s);
    UnclosedShow(s, RepBuffered);
    UnclosedShow(s, RepActive);
    UnclosedShow(s, AheadRows);
  }

  /** At the end of a successful run the rows written fall short of the rows
      generated by exactly the batches dropped in tolerated failures: the final
      debug assertion holds if and only if none was. */
  lemma FinalAssertion(cfg: Config, states: seq<State>, actions: seq<Action>)
    requires ConfigOk(cfg) && Run(cfg, states, actions)
    requires var s := states[|states| - 1]; Ended(s) && AllFinished(s) && s.workers != []
    ensures var s := states[|states| - 1];
            && s.queue == []
            && s.shared.stats.rowsGenerated == s.shared.stats.rows + s.shared.dropped
            && (s.shared.stats.rows == s.shared.stats.rowsGenerated <==> s.shared.dropped == 0)
  {
    var s := states[|states| - 1];
    RunKeeps(cfg, states, actions, |states| - 1);
    assert Leaving(s.workers[0].pc);
    BetweenCallsSums(s.workers);
    CarriedSplits(s.workers);
    SumByZero(s.gens, SentUncounted);
  }

  /** At the end of a successful `--rows N` run the rows short of N are those
      still in the budget, in a last file that could not be closed, and in
      batches given up; nothing else is missing. */
  lemma FinalShortfall(cfg: Config, states: seq<State>, actions: seq<Action>)
    requires ConfigOk(cfg) && Run(cfg, states, actions) && cfg.quota.Some?
    requires var s := states[|states| - 1]; Ended(s) && AllFinished(s) && s.workers != []
    ensures var s := states[|states| - 1];
            && s.shared.remaining.Some?
            && cfg.quota.value == SumBy(s.workers, Completed) + s.shared.remaining.value
                 + SumBy(s.workers, OpenRows) + s.unsent + s.shared.dropped
  {
    var s := states[|states| - 1];
    FinalAssertion(cfg, states, actions);
    RowsConserved(cfg, states, actions, |states| - 1);
    BetweenCallsSums(s.workers);
    SumByZero(s.gens, Hands);
  }

  /** No worker ever failed, and every generator ended for want of rows. */
  predicate Smooth(s: State) {
    && (forall i | 0 <= i < |s.workers| :: s.workers[i].failures == 0)
    && forall i | 0 <= i < |s.gens| :: s.gens[i].Exhausted?
  }

  lemma SmoothWorkers(cfg: Config, s: State)
    requires WorkersOk(cfg, s) && WorkersDone(s) && Smooth(s)
    ensures forall i | 0 <= i < |s.workers| :: s.workers[i].pc == Finished(true) && Idle(s.workers[i])
    ensures SumBy(s.workers, Given) == 0 && SumBy(s.workers, Troubles) == 0 && SumBy(s.workers, OpenRows) == 0
  {
    forall i | 0 <= i < |s.workers|
      ensures s.workers[i].pc == Finished(true) && Idle(s.workers[i]) && s.workers[i].given == 0
    {
      assert WorkerOk(cfg, s.workers[i]) && !WorkerLive(s.workers[i]);
    }
    SumByZero(s.workers, Given);
    SumByZero(s.workers, Troubles);
    SumByZero(s.workers, OpenRows);
  }

  /** A `--rows N` run without failures ends with exactly N rows in completed
      files, and every counter agrees. */
  lemma SmoothRunIsExact(cfg: Config, states: seq<State>, actions: seq<Action>)
    requires ConfigOk(cfg) && Run(cfg, states, actions) && cfg.quota.Some?
    requires var s := states[|states| - 1]; Ended(s) && Smooth(s) && s.workers != [] && s.gens != []
    ensures var s := states[|states| - 1];
            && s.shared.remaining == Some(0)
            && SumBy(s.workers, Completed) == cfg.quota.value
            && s.shared.stats.rows == cfg.quota.value
            && s.shared.stats.rowsGenerated == cfg.quota.value
            && s.shared.stats.rowsFlushed == cfg.quota.value
            && s.shared.stats.rowsLost == 0
  {
    var s := states[|states| - 1];
    var last := |states| - 1;
    RunKeeps(cfg, states, actions, last);
    SmoothWorkers(cfg, s);
    assert s.gens[0].Exhausted?;
    SumByZero(s.gens, BrokenOnes);
    SumByZero(s.gens, Hands);
    FinalAssertion(cfg, states, actions);
    RowsConserved(cfg, states, actions, last);
    RowsAccounted(cfg, states, actions, last);
    BetweenCallsSums(s.workers);
    AllIdle(s.workers);
  }
}
