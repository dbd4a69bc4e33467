/** Which states of a run are stuck, and how long a `--rows` run can be. */
module PipelineProgress {
  import opened Wrappers
  import opened Numerals
  import opened Sums
  import opened Pipeline
  import opened PipelineAccounting
  import opened PipelineTheorems

  // Progress

  predicate CanMove(cfg: Config, s: State, a: Action) {
    Apply(cfg, s, a).Some?
  }

  ghost predicate Enabled(cfg: Config, s: State) {
    exists a :: CanMove(cfg, s, a)
  }

  /** Every worker has ended, the status display still holds the queue open, the
      queue is full, and every generator left is waiting to send. */
  predicate Jammed(cfg: Config, s: State) {
    && cfg.status && WorkersDone(s) && |s.queue| >= cfg.depth && !GensDone(s)
    && forall i | 0 <= i < |s.gens| && GenLive(s.gens[i]) :: s.gens[i].Sending?
  }

  const ALL_WELL := Choice(true, Meter(0, 0, 0), 0)

  lemma LiveWorkerMoves(cfg: Config, s: State, i: nat)
    requires i < |s.workers| && WorkerLive(s.workers[i])
    requires s.workers[i].pc.Recv? ==> s.queue != [] || GensDone(s)
    ensures Enabled(cfg, s)
  {
    assert CanMove(cfg, s, WorkerTurn(i, ALL_WELL));
  }

  lemma LiveGenMoves(cfg: Config, s: State, i: nat)
    requires i < |s.gens| && GenLive(s.gens[i])
    requires s.gens[i].Sending? ==> !Receivers(cfg, s) || |s.queue| < cfg.depth
    ensures Enabled(cfg, s)
  {
    assert CanMove(cfg, s, GenTurn(i, true));
  }

  lemma JammedIsStuck(cfg: Config, s: State)
    requires Jammed(cfg, s)
    ensures !Enabled(cfg, s)
  {
    forall a ensures !CanMove(cfg, s, a) {
      if a.GenTurn? && a.i < |s.gens| {
        assert GenLive(s.gens[a.i]) ==> s.gens[a.i].Sending?;
      }
    }
  }

  lemma UnjammedMoves(cfg: Config, s: State)
    requires ConfigOk(cfg) && !Ended(s) && !Jammed(cfg, s)
    ensures Enabled(cfg, s)
  {
    if GensDone(s) {
      var i :| 0 <= i < |s.workers| && WorkerLive(s.workers[i]);
      LiveWorkerMoves(cfg, s, i);
    } else if exists i :: 0 <= i < |s.gens| && GenLive(s.gens[i]) && !s.gens[i].Sending? {
      var i :| 0 <= i < |s.gens| && GenLive(s.gens[i]) && !s.gens[i].Sending?;
      LiveGenMoves(cfg, s, i);
    } else if !Receivers(cfg, s) || |s.queue| < cfg.depth {
      var i :| 0 <= i < |s.gens| && GenLive(s.gens[i]);
      LiveGenMoves(cfg, s, i);
    } else {
      var i :| 0 <= i < |s.workers| && WorkerLive(s.workers[i]);
      LiveWorkerMoves(cfg, s, i);
    }
  }

  /** A state with unfinished tasks is stuck if and only if it is jammed. With
      the status display off, or with a worker alive, no state is. */
  lemma StuckExactlyWhenJammed(cfg: Config, s: State)
    requires ConfigOk(cfg)
    ensures !Ended(s) && !Enabled(cfg, s) <==> Jammed(cfg, s)
    ensures !cfg.status || !WorkersDone(s) ==> Ended(s) || Enabled(cfg, s)
  {
    if Jammed(cfg, s) {
      JammedIsStuck(cfg, s);
    } else if !Ended(s) {
      UnjammedMoves(cfg, s);
    }
  }

  // Termination

  const ROW_WORK := 24

  function GenWork(g: Gen): nat {
    match g
    case Top => 1
    case Holding(_) => 24
    case Sending(_) => 23
    case Counting(_) => 2
    case Exhausted => 0
    case Stopped => 0
    case Broken => 0
  }

  /** Steps a worker may still take before it is back at the queue, plus those
      to end from there. */
  function PcWork(pc: Pc): nat {
    match pc
    case Recv => 10
    case Open(_) => 22
    case Write(_) => 21
    case CountRows(_) => 20
    case SyncBuffered => 19
    case SyncActive => 18
    case SyncFlushed => 17
    case Close(last) => if last then 6 else 16
    case CloseBytes(last, _) => if last then 5 else 15
    case CloseFiles(last) => if last then 4 else 14
    case CloseBuffered(last) => if last then 3 else 13
    case CloseActive(last) => if last then 2 else 12
    case CloseFlushed(last) => if last then 1 else 11
    case Fail => 0
    case AbandonFiles => 16
    case AbandonLost => 15
    case AbandonBuffered => 14
    case AbandonActive => 13
    case AbandonFlushed(_) => 12
    case Credit(_) => 11
    case Finished(_) => 0
    case Failed => 0
  }

  /** Rows this worker is about to put back into the budget. */
  function Returning(w: Worker): nat {
    if w.pc.AbandonFlushed? || w.pc.Credit? then w.pc.lost
    else if Abandoning(w.pc) then w.rowsInActive
    else 0
  }

  function WorkerWork(w: Worker): nat {
    PcWork(w.pc) + ROW_WORK * Returning(w)
  }

  function FailuresLeft(cfg: Config): Worker -> nat {
    (w: Worker) => if w.failures <= cfg.retries + 1 then cfg.retries + 1 - w.failures else 0
  }

  function Chances(cfg: Config, s: State): nat {
    SumBy(s.workers, FailuresLeft(cfg))
  }

  function Work(s: State): nat
    requires s.shared.remaining.Some?
  {
    ROW_WORK * s.shared.remaining.value + SumBy(s.gens, GenWork) + 20 * |s.queue| + SumBy(s.workers, WorkerWork)
  }

  /** More than any state's work. */
  function WorkLimit(cfg: Config, gens: nat, workers: nat): nat
    requires cfg.quota.Some?
  {
    ROW_WORK * cfg.quota.value + 24 * gens + 20 * cfg.depth + 22 * workers + 1
  }

  lemma WriteWork(cfg: Config, w: Worker, sh: Shared, c: Choice)
    requires WorkerOk(cfg, w) && (Writing(w.pc) || Closing(w.pc)) && sh.remaining.Some?
    ensures var moved := WorkerMove(cfg, w, sh, c);
            && moved.shared.remaining == sh.remaining
            && (moved.worker.failures > w.failures
                || (moved.worker.failures == w.failures && WorkerWork(moved.worker) < WorkerWork(w)))
  {
  }

  lemma AbandonWork(cfg: Config, w: Worker, sh: Shared, c: Choice)
    requires WorkerOk(cfg, w) && Abandoning(w.pc) && sh.remaining.Some?
    ensures var moved := WorkerMove(cfg, w, sh, c);
            && moved.shared.remaining.Some? && moved.worker.failures == w.failures
            && ROW_WORK * moved.shared.remaining.value + WorkerWork(moved.worker)
               < ROW_WORK * sh.remaining.value + WorkerWork(w)
  {
  }

  /** Either a tolerated failure is used up, or none is and there is less work. */
  predicate Closer(cfg: Config, s: State, t: State)
    requires s.shared.remaining.Some? && t.shared.remaining.Some?
  {
    Chances(cfg, t) < Chances(cfg, s) || (Chances(cfg, t) == Chances(cfg, s) && Work(t) < Work(s))
  }

  lemma WorkerCloser(cfg: Config, s: State, i: nat, c: Choice, t: State)
    requires Inv(cfg, s) && s.shared.remaining.Some? && i < |s.workers|
    requires WorkerLive(s.workers[i]) && !s.workers[i].pc.Recv?
    requires var moved := WorkerMove(cfg, s.workers[i], s.shared, c);
             t == s.(workers := s.workers[i := moved.worker], shared := moved.shared)
    ensures t.shared.remaining.Some? && Closer(cfg, s, t)
  {
    var w := s.workers[i];
    var v := t.workers[i];
    assert WorkerOk(cfg, w);
    SumByUpdate(s.workers, i, v, FailuresLeft(cfg));
    SumByUpdate(s.workers, i, v, WorkerWork);
    if Writing(w.pc) || Closing(w.pc) {
      WriteWork(cfg, w, s.shared, c);
    } else if Abandoning(w.pc) {
      AbandonWork(cfg, w, s.shared, c);
    }
  }

  lemma RecvCloser(cfg: Config, s: State, i: nat, t: State)
    requires s.shared.remaining.Some? && i < |s.workers| && s.workers[i].pc.Recv? && RecvMove(s, i) == Some(t)
    ensures t.shared.remaining.Some? && Closer(cfg, s, t)
  {
    SumByUpdate(s.workers, i, t.workers[i], FailuresLeft(cfg));
    SumByUpdate(s.workers, i, t.workers[i], WorkerWork);
  }

  lemma GenCloser(cfg: Config, s: State, a: Action, t: State)
    requires ConfigOk(cfg) && s.shared.remaining.Some? && Apply(cfg, s, a) == Some(t) && !a.WorkerTurn?
    ensures t.shared.remaining.Some? && Closer(cfg, s, t)
  {
    SumByUpdate(s.gens, a.i, t.gens[a.i], GenWork);
  }

  lemma StepCloser(cfg: Config, s: State, a: Action, t: State)
    requires ConfigOk(cfg) && Inv(cfg, s) && s.shared.remaining.Some? && Apply(cfg, s, a) == Some(t)
    ensures t.shared.remaining.Some? && Closer(cfg, s, t)
    ensures |t.gens| == |s.gens| && |t.workers| == |s.workers|
  {
    if !a.WorkerTurn? {
      GenCloser(cfg, s, a, t);
    } else if s.workers[a.i].pc.Recv? {
      RecvCloser(cfg, s, a.i, t);
    } else {
      WorkerCloser(cfg, s, a.i, a.c, t);
    }
  }

  function ReturningRows(w: Worker): nat {
    ROW_WORK * Returning(w)
  }

  function PcPart(w: Worker): nat {
    PcWork(w.pc)
  }

  lemma {:induction false} ReturningFits(ws: seq<Worker>)
    ensures SumBy(ws, ReturningRows) <= ROW_WORK * (SumBy(ws, OpenRows) + SumBy(ws, Transit))
  {
    if ws != [] {
      ReturningFits(ws[1..]);
      assert Returning(ws[0]) <= OpenRows(ws[0]) + Transit(ws[0]);
    }
  }

  /** Rows cannot be in the budget and in a file at once, so work is bounded. */
  lemma WorkIsLimited(cfg: Config, s: State)
    requires Inv(cfg, s) && cfg.quota.Some?
    ensures s.shared.remaining.Some?
    ensures Work(s) < WorkLimit(cfg, |s.gens|, |s.workers|)
  {
    RowsAreLimited(cfg, s);
    WorkersAreLimited(s.workers);
    SumByBound(s.gens, GenWork, 24);
  }

  lemma RowsAreLimited(cfg: Config, s: State)
    requires Inv(cfg, s) && cfg.quota.Some?
    ensures s.shared.remaining.Some? && |s.queue| <= cfg.depth
    ensures s.shared.remaining.value + SumBy(s.workers, OpenRows) + SumBy(s.workers, Transit) <= cfg.quota.value
  {
    CarriedSplits(s.workers);
  }

  lemma WorkersAreLimited(ws: seq<Worker>)
    ensures SumBy(ws, WorkerWork) <= 22 * |ws| + ROW_WORK * (SumBy(ws, OpenRows) + SumBy(ws, Transit))
  {
    SumByAdd(ws, WorkerWork, PcPart, ReturningRows);
    SumByBound(ws, PcPart, 22);
    ReturningFits(ws);
  }

  /** The number of steps a run can have. */
  function StepLimit(cfg: Config, gens: nat, workers: nat): nat
    requires cfg.quota.Some?
  {
    workers * (cfg.retries + 1) * WorkLimit(cfg, gens, workers) + WorkLimit(cfg, gens, workers)
  }

  /** The failures left, then the work left, as one number. */
  function Rank(cfg: Config, s: State, limit: nat): nat
    requires s.shared.remaining.Some?
  {
    Chances(cfg, s) * limit + Work(s)
  }

  lemma RankDrops(c: nat, w: nat, d: nat, v: nat, limit: nat)
    requires v < limit && (d < c || (d == c && v < w))
    ensures d * limit + v < c * limit + w
  {
    if d < c {
      assert (d + 1) * limit <= c * limit by {
        assert c * limit == (d + 1) * limit + (c - d - 1) * limit;
      }
    }
  }

  /** One step leaves less of the rank. */
  predicate Drops(cfg: Config, s: State, t: State)
    requires cfg.quota.Some?
  {
    var limit := WorkLimit(cfg, |s.gens|, |s.workers|);
    && |t.gens| == |s.gens| && |t.workers| == |s.workers|
    && s.shared.remaining.Some? && t.shared.remaining.Some? && Rank(cfg, t, limit) < Rank(cfg, s, limit)
  }

  lemma StepDrops(cfg: Config, s: State, a: Action, t: State)
    requires ConfigOk(cfg) && cfg.quota.Some? && Inv(cfg, s) && Inv(cfg, t) && Apply(cfg, s, a) == Some(t)
    ensures Drops(cfg, s, t)
  {
    var limit := WorkLimit(cfg, |s.gens|, |s.workers|);
    WorkIsLimited(cfg, s);
    StepCloser(cfg, s, a, t);
    WorkIsLimited(cfg, t);
    RankDrops(Chances(cfg, s), Work(s), Chances(cfg, t), Work(t), limit);
  }

  lemma RunDrops(cfg: Config, states: seq<State>, actions: seq<Action>, k: nat)
    requires ConfigOk(cfg) && Run(cfg, states, actions) && k < |actions| && cfg.quota.Some?
    ensures Drops(cfg, states[k], states[k + 1])
  {
    RunKeeps(cfg, states, actions, k);
    RunKeeps(cfg, states, actions, k + 1);
    StepDrops(cfg, states[k], actions[k], states[k + 1]);
  }

  /** Each state's rank makes up for the steps taken to it. */
  lemma {:induction false} DropsAddUp(cfg: Config, states: seq<State>, k: nat)
    requires k < |states| && cfg.quota.Some? && states[0].shared.remaining.Some?
    requires forall i | 0 <= i < |states| - 1 :: Drops(cfg, states[i], states[i + 1])
    ensures |states[k].gens| == |states[0].gens| && |states[k].workers| == |states[0].workers|
    ensures states[k].shared.remaining.Some?
    ensures var limit := WorkLimit(cfg, |states[0].gens|, |states[0].workers|);
            Rank(cfg, states[k], limit) + k <= Rank(cfg, states[0], limit)
  {
    if k > 0 {
      DropsAddUp(cfg, states, k - 1);
      assert Drops(cfg, states[k - 1], states[k - 1 + 1]);
    }
  }

  lemma RankIsLimited(cfg: Config, s: State)
    requires Inv(cfg, s) && cfg.quota.Some?
    ensures s.shared.remaining.Some?
    ensures Rank(cfg, s, WorkLimit(cfg, |s.gens|, |s.workers|)) <= StepLimit(cfg, |s.gens|, |s.workers|)
  {
    WorkIsLimited(cfg, s);
    SumByBound(s.workers, FailuresLeft(cfg), cfg.retries + 1);
    RankAtMost(Chances(cfg, s), |s.workers| * (cfg.retries + 1), Work(s), WorkLimit(cfg, |s.gens|, |s.workers|));
  }

  lemma RankAtMost(chances: nat, most: nat, work: nat, limit: nat)
    requires chances <= most && work < limit
    ensures chances * limit + work <= most * limit + limit
  {
    ProductMonotone(chances, most, limit);
  }

  /** Every schedule of a `--rows` run is finite, whatever fails and although
      abandoned rows go back into the budget: its length has a bound that
      depends on the configuration alone. */
  lemma RunIsBounded(cfg: Config, states: seq<State>, actions: seq<Action>)
    requires ConfigOk(cfg) && Run(cfg, states, actions) && cfg.quota.Some?
    ensures |actions| <= StepLimit(cfg, |states[0].gens|, |states[0].workers|)
  {
    forall k | 0 <= k < |states| - 1
      ensures Drops(cfg, states[k], states[k + 1])
    {
      RunDrops(cfg, states, actions, k);
    }
    RunKeeps(cfg, states, actions, 0);
    RankIsLimited(cfg, states[0]);
    DropsAddUp(cfg, states, |actions|);
  }

  // Runs that cannot go on

  lemma Extended(cfg: Config, states: seq<State>, actions: seq<Action>, a: Action, t: State)
    requires Run(cfg, states, actions) && Apply(cfg, states[|states| - 1], a) == Some(t)
    ensures Run(cfg, states + [t], actions + [a])
  {
  }

  /** Every `--rows` run, taken on as far as it goes, comes to an end within its
      bound: all tasks have ended, or it is jammed; with the status display off
      all tasks have ended. */
  lemma RunsEnd(cfg: Config, states: seq<State>, actions: seq<Action>)
    returns (after: seq<State>, taken: seq<Action>)
    requires ConfigOk(cfg) && Run(cfg, states, actions) && cfg.quota.Some?
    ensures Run(cfg, after, taken) && states <= after && actions <= taken
    ensures |taken| <= StepLimit(cfg, |after[0].gens|, |after[0].workers|)
    ensures var last := after[|after| - 1];
            && !Enabled(cfg, last)
            && (Ended(last) || Jammed(cfg, last))
            && (!cfg.status ==> Ended(last))
    decreases StepLimit(cfg, |states[0].gens|, |states[0].workers|) - |actions|
  {
    RunIsBounded(cfg, states, actions);
    var s := states[|states| - 1];
    StuckExactlyWhenJammed(cfg, s);
    if Enabled(cfg, s) {
      var a :| CanMove(cfg, s, a);
      var t := Apply(cfg, s, a).value;
      Extended(cfg, states, actions, a, t);
      after, taken := RunsEnd(cfg, states + [t], actions + [a]);
    } else {
      after, taken := states, actions;
    }
  }

  /** A run that cannot go on has ended or is jammed. */
  lemma MaximalRunEnds(cfg: Config, states: seq<State>, actions: seq<Action>)
    requires ConfigOk(cfg) && Run(cfg, states, actions) && !Enabled(cfg, states[|states| - 1])
    ensures var last := states[|states| - 1];
            && (Ended(last) || Jammed(cfg, last))
            && (!cfg.status ==> Ended(last))
    ensures cfg.quota.Some? ==> |actions| <= StepLimit(cfg, |states[0].gens|, |states[0].workers|)
  {
    StuckExactlyWhenJammed(cfg, states[|states| - 1]);
    if cfg.quota.Some? {
      RunIsBounded(cfg, states, actions);
    }
  }
}
