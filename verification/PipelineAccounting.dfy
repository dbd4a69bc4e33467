/** What every step of the run keeps: every reserved row is in exactly one
    place, and every shared counter is the sum of what the workers put in. */
module PipelineAccounting {
  import opened Wrappers
  import opened Sums
  import opened Pipeline

  // Where a worker's rows are

  /** Rows of a batch taken from the queue and not yet in a file. */
  function Held(w: Worker): nat {
    if w.pc.Open? || w.pc.Write? then w.pc.batch else 0
  }

  function OpenRows(w: Worker): nat {
    w.rowsInActive
  }

  function Completed(w: Worker): nat {
    w.completed
  }

  /** Rows of an abandoned file on their way back to the budget. */
  function Transit(w: Worker): nat {
    if w.pc.AbandonFlushed? || w.pc.Credit? then w.pc.lost else 0
  }

  function Given(w: Worker): nat {
    w.given
  }

  /** Every row this worker ever put into a file. */
  function InFiles(w: Worker): nat {
    w.rowsInActive + w.completed + Transit(w) + w.given
  }

  /** Every row this worker ever took from the queue and did not drop. */
  function Carried(w: Worker): nat {
    Held(w) + InFiles(w)
  }

  /** Rows in the file that `stats.rows` does not show yet. */
  function Uncounted(w: Worker): nat {
    if w.pc.CountRows? then w.pc.batch else 0
  }

  /** This worker's part of `stats.rows_lost`. */
  function LostRows(w: Worker): nat {
    w.given + Transit(w) + if w.pc.AbandonBuffered? || w.pc.AbandonActive? then w.rowsInActive else 0
  }

  function RepBuffered(w: Worker): nat {
    w.repBuffered
  }

  function RepActive(w: Worker): nat {
    w.repActive
  }

  function RepFlushed(w: Worker): nat {
    w.repFlushed
  }

  // Where a generator's rows are

  function Hands(g: Gen): nat {
    if g.Holding? || g.Sending? then g.rows else 0
  }

  function SentUncounted(g: Gen): nat {
    if g.Counting? then g.rows else 0
  }

  function Rows(batch: nat): nat {
    batch
  }

  // Failures so far

  function Troubles(w: Worker): nat {
    w.failures + if w.pc.Fail? then 1 else 0
  }

  function BrokenOnes(g: Gen): nat {
    if g.Broken? then 1 else 0
  }

  // One worker's own bookkeeping

  /** No file, and nothing of one left in the gauges. */
  predicate Idle(w: Worker) {
    && !w.hasFile && w.rowsInActive == 0
    && w.repBuffered == 0 && w.repActive == 0 && w.repFlushed == w.completed
  }

  predicate PcOk(w: Worker) {
    match w.pc
    case Recv => w.hasFile || Idle(w)
    case Open(_) => Idle(w)
    case Write(_) => w.hasFile
    case CountRows(batch) => w.hasFile && w.meter.pending <= w.rowsInActive && batch <= w.rowsInActive
    case SyncBuffered => w.hasFile && w.meter.pending <= w.rowsInActive
    case SyncActive => w.hasFile && w.meter.pending <= w.rowsInActive
    case SyncFlushed => w.hasFile && w.meter.pending <= w.rowsInActive
    case Close(_) => w.hasFile || Idle(w)
    case CloseBuffered(_) => !w.hasFile && w.rowsInActive == 0
    case CloseActive(_) => !w.hasFile && w.rowsInActive == 0 && w.repBuffered == 0
    case CloseFlushed(_) => !w.hasFile && w.rowsInActive == 0 && w.repBuffered == 0 && w.repActive == 0
    case AbandonActive => !w.hasFile && w.repBuffered == 0
    case AbandonFlushed(_) => !w.hasFile && w.rowsInActive == 0 && w.repBuffered == 0 && w.repActive == 0
    case Credit(_) => Idle(w)
    case Finished(clean) => clean ==> Idle(w)
    case Fail => true
    case Failed => true
    case _ => !w.hasFile
  }

  predicate Abandoning(pc: Pc) {
    || pc.AbandonFiles? || pc.AbandonLost? || pc.AbandonBuffered? || pc.AbandonActive?
    || pc.AbandonFlushed? || pc.Credit?
  }

  /** The reported rows lie between those in completed files and those seen,
      but while a close or an abandon has yet to report. */
  predicate FlushedOk(w: Worker) {
    if w.pc.CloseBuffered? || w.pc.CloseActive? || w.pc.CloseFlushed? then w.repFlushed <= w.completed
    else if w.pc.AbandonFlushed? then w.completed <= w.repFlushed
    else w.completed <= w.repFlushed <= w.rowsSeen
  }

  predicate WorkerOk(cfg: Config, w: Worker) {
    && w.rowsSeen == w.completed + w.rowsInActive
    && PcOk(w) && FlushedOk(w)
    && w.failures <= cfg.retries + 1
    && (WorkerLive(w) ==> w.failures <= cfg.retries)
    && (w.failures == 0 ==> w.given == 0 && !Abandoning(w.pc) && !w.pc.Failed? && w.pc != Finished(false))
  }

  // A worker's step, seen from outside

  /** What the step moved in the shared counters is what it moved in the
      worker's own figures. */
  predicate Balanced(w: Worker, sh: Shared, moved: Moved) {
    var v, th := moved.worker, moved.shared;
    && Carried(v) + th.dropped == Carried(w) + sh.dropped
    && th.stats.rows + Uncounted(v) - InFiles(v) == sh.stats.rows + Uncounted(w) - InFiles(w)
    && th.stats.rowsLost - LostRows(v) == sh.stats.rowsLost - LostRows(w)
    && th.stats.bufferedBytes - v.repBuffered == sh.stats.bufferedBytes - w.repBuffered
    && th.stats.activeBytes - v.repActive == sh.stats.activeBytes - w.repActive
    && th.stats.rowsFlushed - v.repFlushed == sh.stats.rowsFlushed - w.repFlushed
    && th.stats.rowsGenerated == sh.stats.rowsGenerated
    && th.remaining.Some? == sh.remaining.Some?
    && (sh.remaining.Some? ==> th.remaining.value - v.given == sh.remaining.value - w.given)
    && (th.dropped > sh.dropped ==> Troubles(v) > 0) && th.dropped >= sh.dropped
    && v.given >= w.given && Troubles(v) >= Troubles(w)
  }

  predicate Writing(pc: Pc) {
    pc.Open? || pc.Write? || pc.CountRows? || pc.SyncBuffered? || pc.SyncActive? || pc.SyncFlushed?
  }

  predicate Closing(pc: Pc) {
    || pc.Close? || pc.CloseBytes? || pc.CloseFiles? || pc.CloseBuffered? || pc.CloseActive? || pc.CloseFlushed?
  }

  lemma WritingMove(cfg: Config, w: Worker, sh: Shared, c: Choice)
    requires WorkerOk(cfg, w) && Writing(w.pc) && ChoiceOk(w, c)
    ensures WorkerOk(cfg, WorkerMove(cfg, w, sh, c).worker) && Balanced(w, sh, WorkerMove(cfg, w, sh, c))
  {
  }

  lemma ClosingMove(cfg: Config, w: Worker, sh: Shared, c: Choice)
    requires WorkerOk(cfg, w) && Closing(w.pc)
    ensures WorkerOk(cfg, WorkerMove(cfg, w, sh, c).worker) && Balanced(w, sh, WorkerMove(cfg, w, sh, c))
  {
  }

  lemma GiveUpMove(cfg: Config, w: Worker, sh: Shared, c: Choice)
    requires WorkerOk(cfg, w) && (w.pc.Fail? || w.pc.AbandonFiles? || w.pc.AbandonLost? || w.pc.AbandonBuffered?)
    ensures WorkerOk(cfg, WorkerMove(cfg, w, sh, c).worker) && Balanced(w, sh, WorkerMove(cfg, w, sh, c))
  {
  }

  lemma RollBackMove(cfg: Config, w: Worker, sh: Shared, c: Choice)
    requires WorkerOk(cfg, w) && (w.pc.AbandonActive? || w.pc.AbandonFlushed? || w.pc.Credit?)
    ensures WorkerOk(cfg, WorkerMove(cfg, w, sh, c).worker) && Balanced(w, sh, WorkerMove(cfg, w, sh, c))
  {
  }

  lemma WorkerMoveKeeps(cfg: Config, w: Worker, sh: Shared, c: Choice)
    requires WorkerOk(cfg, w) && WorkerLive(w) && !w.pc.Recv? && ChoiceOk(w, c)
    ensures WorkerOk(cfg, WorkerMove(cfg, w, sh, c).worker) && Balanced(w, sh, WorkerMove(cfg, w, sh, c))
  {
    if Writing(w.pc) {
      WritingMove(cfg, w, sh, c);
    } else if Closing(w.pc) {
      ClosingMove(cfg, w, sh, c);
    } else if w.pc.AbandonActive? || w.pc.AbandonFlushed? || w.pc.Credit? {
      RollBackMove(cfg, w, sh, c);
    } else {
      GiveUpMove(cfg, w, sh, c);
    }
  }

  // The invariant of the run

  /** Every row reserved is in a generator's hands, given up there, or sent. */
  predicate GensBalance(s: State) {
    s.reserved == SumBy(s.gens, Hands) + s.unsent + s.shared.stats.rowsGenerated + SumBy(s.gens, SentUncounted)
  }

  /** Every row sent is in the queue, with a worker, or dropped by one. */
  predicate QueueBalance(s: State) {
    s.shared.stats.rowsGenerated + SumBy(s.gens, SentUncounted)
    == SumBy(s.queue, Rows) + SumBy(s.workers, Carried) + s.shared.dropped
  }

  /** The budget shrinks by what is reserved and grows by what is credited. */
  predicate BudgetBalance(cfg: Config, s: State) {
    && s.shared.remaining.Some? == cfg.quota.Some?
    && (cfg.quota.Some? ==> s.shared.remaining.value + s.reserved == cfg.quota.value + SumBy(s.workers, Given))
  }

  /** Each shared gauge is the sum of the workers' shares; the row counters are
      the sum of the workers' rows. */
  predicate CountersBalance(s: State) {
    var stats := s.shared.stats;
    && stats.bufferedBytes == SumBy(s.workers, RepBuffered)
    && stats.activeBytes == SumBy(s.workers, RepActive)
    && stats.rowsFlushed == SumBy(s.workers, RepFlushed)
    && stats.rows + SumBy(s.workers, Uncounted) == SumBy(s.workers, InFiles)
    && stats.rowsLost == SumBy(s.workers, LostRows)
  }

  predicate WorkersOk(cfg: Config, s: State) {
    forall i | 0 <= i < |s.workers| :: WorkerOk(cfg, s.workers[i])
  }

  predicate BatchesOk(cfg: Config, s: State) {
    && |s.queue| <= cfg.depth
    && (forall i | 0 <= i < |s.queue| :: 1 <= s.queue[i] <= cfg.batchRows)
    && forall i | 0 <= i < |s.gens| ::
         s.gens[i].Holding? || s.gens[i].Sending? || s.gens[i].Counting? ==> 1 <= s.gens[i].rows <= cfg.batchRows
  }

  /** The worker has seen the queue empty and every sender gone. */
  predicate Leaving(pc: Pc) {
    || (pc.Close? && pc.last) || (pc.CloseBytes? && pc.last) || (pc.CloseFiles? && pc.last)
    || (pc.CloseBuffered? && pc.last) || (pc.CloseActive? && pc.last) || (pc.CloseFlushed? && pc.last)
    || pc.Finished?
  }

  predicate LeavingLast(s: State) {
    forall i | 0 <= i < |s.workers| && Leaving(s.workers[i].pc) :: s.queue == [] && GensDone(s)
  }

  /** A generator ends for want of rows only when none were left; they can come
      back only by a credit. */
  predicate ExhaustedEmpty(s: State) {
    forall i | 0 <= i < |s.gens| && s.gens[i].Exhausted? ::
      SumBy(s.workers, Given) == 0 ==> s.shared.remaining == Some(0)
  }

  /** Rows given up before sending show as a broken generator, rows dropped
      with a batch as a worker that has failed. */
  predicate FailuresShow(s: State) {
    && (s.unsent > 0 ==> SumBy(s.gens, BrokenOnes) > 0)
    && (s.shared.dropped > 0 ==> SumBy(s.workers, Troubles) > 0)
  }

  predicate Inv(cfg: Config, s: State) {
    && GensBalance(s) && QueueBalance(s) && BudgetBalance(cfg, s) && CountersBalance(s)
    && WorkersOk(cfg, s) && BatchesOk(cfg, s) && LeavingLast(s) && ExhaustedEmpty(s) && FailuresShow(s)
  }

  lemma NewWorkerOk(cfg: Config)
    ensures WorkerOk(cfg, NEW_WORKER)
  {
  }

  lemma NewGens(gens: seq<Gen>)
    requires forall i | 0 <= i < |gens| :: gens[i] == Top
    ensures SumBy(gens, Hands) == 0 && SumBy(gens, SentUncounted) == 0
  {
    SumByZero(gens, Hands);
    SumByZero(gens, SentUncounted);
  }

  predicate NoWorkerRows(ws: seq<Worker>) {
    && SumBy(ws, Carried) == 0 && SumBy(ws, Given) == 0 && SumBy(ws, Uncounted) == 0 && SumBy(ws, InFiles) == 0
    && SumBy(ws, RepBuffered) == 0 && SumBy(ws, RepActive) == 0 && SumBy(ws, RepFlushed) == 0
    && SumBy(ws, LostRows) == 0
  }

  lemma NewShares(ws: seq<Worker>, f: Worker -> nat)
    requires f(NEW_WORKER) == 0 && forall i | 0 <= i < |ws| :: ws[i] == NEW_WORKER
    ensures SumBy(ws, f) == 0
  {
    SumByZero(ws, f);
  }

  lemma NothingCarried(w: Worker)
    requires w.pc == Recv && w.rowsInActive == 0 && w.completed == 0 && w.given == 0
    ensures Carried(w) == 0
  {
  }

  lemma NewCarried(ws: seq<Worker>)
    requires forall i | 0 <= i < |ws| :: ws[i] == NEW_WORKER
    ensures SumBy(ws, Carried) == 0
  {
    forall i | 0 <= i < |ws| ensures Carried(ws[i]) == 0 {
      NothingCarried(ws[i]);
    }
    SumByZero(ws, Carried);
  }

  lemma NewInFiles(ws: seq<Worker>)
    requires forall i | 0 <= i < |ws| :: ws[i] == NEW_WORKER
    ensures SumBy(ws, InFiles) == 0
  {
    SumByZero(ws, InFiles);
  }

  lemma NewLosses(ws: seq<Worker>)
    requires forall i | 0 <= i < |ws| :: ws[i] == NEW_WORKER
    ensures SumBy(ws, Given) == 0 && SumBy(ws, LostRows) == 0 && SumBy(ws, Uncounted) == 0
  {
    NewShares(ws, Given);
    NewShares(ws, LostRows);
    NewShares(ws, Uncounted);
  }

  lemma NewGauges(ws: seq<Worker>)
    requires forall i | 0 <= i < |ws| :: ws[i] == NEW_WORKER
    ensures SumBy(ws, RepBuffered) == 0 && SumBy(ws, RepActive) == 0 && SumBy(ws, RepFlushed) == 0
  {
    NewShares(ws, RepBuffered);
    NewShares(ws, RepActive);
    NewShares(ws, RepFlushed);
  }

  lemma NewWorkers(ws: seq<Worker>)
    requires forall i | 0 <= i < |ws| :: ws[i] == NEW_WORKER
    ensures NoWorkerRows(ws)
  {
    NewCarried(ws);
    NewInFiles(ws);
    NewLosses(ws);
    NewGauges(ws);
  }

  lemma NoRowsYet(cfg: Config, s: State)
    requires s.queue == [] && s.reserved == 0 && s.unsent == 0 && s.shared == Shared(NO_STATS, cfg.quota, 0, 0)
    requires SumBy(s.gens, Hands) == 0 && SumBy(s.gens, SentUncounted) == 0 && NoWorkerRows(s.workers)
    ensures GensBalance(s) && QueueBalance(s) && BudgetBalance(cfg, s) && CountersBalance(s)
  {
  }

  lemma InitElements(cfg: Config, s: State)
    requires ConfigOk(cfg) && Init(cfg, s)
    ensures WorkersOk(cfg, s) && BatchesOk(cfg, s) && LeavingLast(s) && ExhaustedEmpty(s) && FailuresShow(s)
  {
    NewWorkerOk(cfg);
  }

  lemma InitInv(cfg: Config, s: State)
    requires ConfigOk(cfg) && Init(cfg, s)
    ensures Inv(cfg, s)
  {
    NewGens(s.gens);
    NewWorkers(s.workers);
    NoRowsYet(cfg, s);
    InitElements(cfg, s);
  }

  // A worker's turn

  lemma WorkerSumsMove(ws: seq<Worker>, i: nat, v: Worker)
    requires i < |ws|
    ensures SumBy(ws[i := v], Carried) + Carried(ws[i]) == SumBy(ws, Carried) + Carried(v)
    ensures SumBy(ws[i := v], Given) + Given(ws[i]) == SumBy(ws, Given) + Given(v)
    ensures SumBy(ws[i := v], RepBuffered) + RepBuffered(ws[i]) == SumBy(ws, RepBuffered) + RepBuffered(v)
    ensures SumBy(ws[i := v], RepActive) + RepActive(ws[i]) == SumBy(ws, RepActive) + RepActive(v)
    ensures SumBy(ws[i := v], RepFlushed) + RepFlushed(ws[i]) == SumBy(ws, RepFlushed) + RepFlushed(v)
    ensures SumBy(ws[i := v], Uncounted) + Uncounted(ws[i]) == SumBy(ws, Uncounted) + Uncounted(v)
    ensures SumBy(ws[i := v], InFiles) + InFiles(ws[i]) == SumBy(ws, InFiles) + InFiles(v)
    ensures SumBy(ws[i := v], LostRows) + LostRows(ws[i]) == SumBy(ws, LostRows) + LostRows(v)
    ensures SumBy(ws[i := v], Troubles) + Troubles(ws[i]) == SumBy(ws, Troubles) + Troubles(v)
  {
    SumByUpdate(ws, i, v, Carried);
    SumByUpdate(ws, i, v, Given);
    SumByUpdate(ws, i, v, RepBuffered);
    SumByUpdate(ws, i, v, RepActive);
    SumByUpdate(ws, i, v, RepFlushed);
    SumByUpdate(ws, i, v, Uncounted);
    SumByUpdate(ws, i, v, InFiles);
    SumByUpdate(ws, i, v, LostRows);
    SumByUpdate(ws, i, v, Troubles);
  }

  lemma WorkerStepBalances(cfg: Config, s: State, i: nat, moved: Moved, t: State)
    requires Inv(cfg, s) && i < |s.workers| && Balanced(s.workers[i], s.shared, moved)
    requires t == s.(workers := s.workers[i := moved.worker], shared := moved.shared)
    ensures GensBalance(t) && QueueBalance(t) && BudgetBalance(cfg, t) && CountersBalance(t) && FailuresShow(t)
  {
    WorkerSumsMove(s.workers, i, moved.worker);
    SumByMember(t.workers, i, Troubles);
  }

  lemma WorkerStepKeeps(cfg: Config, s: State, i: nat, c: Choice, t: State)
    requires Inv(cfg, s) && i < |s.workers| && WorkerLive(s.workers[i]) && !s.workers[i].pc.Recv?
    requires ChoiceOk(s.workers[i], c)
    requires var moved := WorkerMove(cfg, s.workers[i], s.shared, c);
             t == s.(workers := s.workers[i := moved.worker], shared := moved.shared)
    ensures Inv(cfg, t)
  {
    var w, moved := s.workers[i], WorkerMove(cfg, s.workers[i], s.shared, c);
    WorkerMoveKeeps(cfg, w, s.shared, c);
    WorkerStepBalances(cfg, s, i, moved, t);
    SumByUpdate(s.workers, i, moved.worker, Given);
    LeavingStays(cfg, w, s.shared, c);
    assert GensDone(t) == GensDone(s);
  }

  lemma LeavingStays(cfg: Config, w: Worker, sh: Shared, c: Choice)
    requires WorkerLive(w) && !w.pc.Recv?
    ensures Leaving(WorkerMove(cfg, w, sh, c).worker.pc) ==> Leaving(w.pc)
  {
  }

  // A worker at the queue

  lemma TakeBalances(cfg: Config, s: State, i: nat, pc: Pc, t: State)
    requires Inv(cfg, s) && i < |s.workers| && s.workers[i].pc.Recv? && s.queue != []
    requires pc == if s.workers[i].hasFile then Write(s.queue[0]) else Open(s.queue[0])
    requires t == s.(queue := s.queue[1..], workers := s.workers[i := s.workers[i].(pc := pc)])
    ensures GensBalance(t) && QueueBalance(t) && BudgetBalance(cfg, t) && CountersBalance(t) && FailuresShow(t)
    ensures SumBy(t.workers, Given) == SumBy(s.workers, Given)
  {
    WorkerSumsMove(s.workers, i, s.workers[i].(pc := pc));
  }

  lemma TakeBatch(cfg: Config, s: State, i: nat, pc: Pc, t: State)
    requires Inv(cfg, s) && i < |s.workers| && s.workers[i].pc.Recv? && s.queue != []
    requires pc == if s.workers[i].hasFile then Write(s.queue[0]) else Open(s.queue[0])
    requires t == s.(queue := s.queue[1..], workers := s.workers[i := s.workers[i].(pc := pc)])
    ensures Inv(cfg, t)
  {
    TakeBalances(cfg, s, i, pc, t);
    TakeStandsWell(cfg, s, i, pc, t);
  }

  lemma TakeStandsWell(cfg: Config, s: State, i: nat, pc: Pc, t: State)
    requires WorkersOk(cfg, s) && BatchesOk(cfg, s) && LeavingLast(s)
    requires i < |s.workers| && s.workers[i].pc.Recv? && s.queue != []
    requires pc == if s.workers[i].hasFile then Write(s.queue[0]) else Open(s.queue[0])
    requires t == s.(queue := s.queue[1..], workers := s.workers[i := s.workers[i].(pc := pc)])
    ensures WorkersOk(cfg, t) && BatchesOk(cfg, t) && LeavingLast(t)
  {
    assert GensDone(t) == GensDone(s);
  }

  lemma LeaveBalances(cfg: Config, s: State, i: nat, t: State)
    requires Inv(cfg, s) && i < |s.workers| && s.workers[i].pc.Recv?
    requires t == s.(workers := s.workers[i := s.workers[i].(pc := Close(true))])
    ensures GensBalance(t) && QueueBalance(t) && BudgetBalance(cfg, t) && CountersBalance(t) && FailuresShow(t)
    ensures SumBy(t.workers, Given) == SumBy(s.workers, Given)
  {
    WorkerSumsMove(s.workers, i, s.workers[i].(pc := Close(true)));
  }

  lemma LeaveQueue(cfg: Config, s: State, i: nat, t: State)
    requires Inv(cfg, s) && i < |s.workers| && s.workers[i].pc.Recv? && s.queue == [] && GensDone(s)
    requires t == s.(workers := s.workers[i := s.workers[i].(pc := Close(true))])
    ensures Inv(cfg, t)
  {
    LeaveBalances(cfg, s, i, t);
    assert GensDone(t);
  }

  // A generator's turn

  /** A live generator means no worker has left the queue. */
  lemma NobodyLeft(cfg: Config, s: State, i: nat)
    requires Inv(cfg, s) && i < |s.gens| && GenLive(s.gens[i])
    ensures forall j | 0 <= j < |s.workers| :: !Leaving(s.workers[j].pc)
  {
    assert !GensDone(s);
  }

  lemma GenSumsMove(gens: seq<Gen>, i: nat, g: Gen)
    requires i < |gens|
    ensures SumBy(gens[i := g], Hands) + Hands(gens[i]) == SumBy(gens, Hands) + Hands(g)
    ensures SumBy(gens[i := g], SentUncounted) + SentUncounted(gens[i]) == SumBy(gens, SentUncounted) + SentUncounted(g)
    ensures SumBy(gens[i := g], BrokenOnes) + BrokenOnes(gens[i]) == SumBy(gens, BrokenOnes) + BrokenOnes(g)
  {
    SumByUpdate(gens, i, g, Hands);
    SumByUpdate(gens, i, g, SentUncounted);
    SumByUpdate(gens, i, g, BrokenOnes);
  }

  lemma ReserveKeeps(cfg: Config, s: State, i: nat)
    requires ConfigOk(cfg) && Inv(cfg, s) && i < |s.gens| && s.gens[i] == Top
    ensures Inv(cfg, Reserve(cfg, s, i))
  {
    if Take(cfg, s.shared.remaining) == 0 {
      ExhaustKeeps(cfg, s, i, Reserve(cfg, s, i));
    } else {
      TakeKeeps(cfg, s, i, Reserve(cfg, s, i));
    }
  }

  lemma ExhaustKeeps(cfg: Config, s: State, i: nat, t: State)
    requires ConfigOk(cfg) && Inv(cfg, s) && i < |s.gens| && s.gens[i] == Top
    requires Take(cfg, s.shared.remaining) == 0 && t == s.(gens := s.gens[i := Exhausted])
    ensures Inv(cfg, t)
  {
    NobodyLeft(cfg, s, i);
    GenSumsMove(s.gens, i, Exhausted);
  }

  lemma TakeKeeps(cfg: Config, s: State, i: nat, t: State)
    requires ConfigOk(cfg) && Inv(cfg, s) && i < |s.gens| && s.gens[i] == Top
    requires Take(cfg, s.shared.remaining) > 0 && t == Reserve(cfg, s, i)
    ensures Inv(cfg, t)
  {
    NobodyLeft(cfg, s, i);
    GenSumsMove(s.gens, i, t.gens[i]);
  }

  lemma SendKeeps(cfg: Config, s: State, i: nat, rows: nat, t: State)
    requires Inv(cfg, s) && i < |s.gens| && s.gens[i] == Sending(rows) && |s.queue| < cfg.depth
    requires t == s.(gens := s.gens[i := Counting(rows)], queue := s.queue + [rows])
    ensures Inv(cfg, t)
  {
    NobodyLeft(cfg, s, i);
    GenSumsMove(s.gens, i, Counting(rows));
    SumByConcat(s.queue, [rows], Rows);
    assert SumBy([rows], Rows) == rows by {
      assert [rows][1..] == [];
    }
  }

  lemma BreakKeeps(cfg: Config, s: State, i: nat, rows: nat, t: State)
    requires Inv(cfg, s) && i < |s.gens| && (s.gens[i] == Sending(rows) || s.gens[i] == Holding(rows))
    requires t == s.(gens := s.gens[i := Broken], unsent := s.unsent + rows)
    ensures Inv(cfg, t)
  {
    NobodyLeft(cfg, s, i);
    GenSumsMove(s.gens, i, Broken);
  }

  lemma FilledKeeps(cfg: Config, s: State, i: nat, rows: nat, t: State)
    requires Inv(cfg, s) && i < |s.gens| && s.gens[i] == Holding(rows)
    requires t == s.(gens := s.gens[i := Sending(rows)])
    ensures Inv(cfg, t)
  {
    NobodyLeft(cfg, s, i);
    GenSumsMove(s.gens, i, Sending(rows));
  }

  lemma CountKeeps(cfg: Config, s: State, i: nat, rows: nat, t: State)
    requires Inv(cfg, s) && i < |s.gens| && s.gens[i] == Counting(rows) && GenMove(cfg, s, i, true) == Some(t)
    ensures Inv(cfg, t)
  {
    NobodyLeft(cfg, s, i);
    GenSumsMove(s.gens, i, Top);
  }

  lemma GenMoveKeeps(cfg: Config, s: State, i: nat, ok: bool)
    requires ConfigOk(cfg) && Inv(cfg, s) && i < |s.gens| && GenMove(cfg, s, i, ok).Some?
    ensures Inv(cfg, GenMove(cfg, s, i, ok).value)
  {
    var t := GenMove(cfg, s, i, ok).value;
    match s.gens[i]
    case Top => ReserveKeeps(cfg, s, i);
    case Holding(rows) =>
      if ok {
        FilledKeeps(cfg, s, i, rows, t);
      } else {
        BreakKeeps(cfg, s, i, rows, t);
      }
    case Sending(rows) =>
      if t.gens[i] == Broken {
        BreakKeeps(cfg, s, i, rows, t);
      } else {
        SendKeeps(cfg, s, i, rows, t);
      }
    case Counting(rows) => CountKeeps(cfg, s, i, rows, t);
  }

  lemma StopKeeps(cfg: Config, s: State, i: nat)
    requires Inv(cfg, s) && i < |s.gens| && s.gens[i] == Top
    ensures Inv(cfg, s.(gens := s.gens[i := Stopped]))
  {
    NobodyLeft(cfg, s, i);
    GenSumsMove(s.gens, i, Stopped);
  }

  // Every step, every run

  lemma StepKeeps(cfg: Config, s: State, a: Action, t: State)
    requires ConfigOk(cfg) && Inv(cfg, s) && Apply(cfg, s, a) == Some(t)
    ensures Inv(cfg, t)
  {
    match a
    case GenTurn(i, ok) => GenMoveKeeps(cfg, s, i, ok);
    case GenStop(i) => StopKeeps(cfg, s, i);
    case WorkerTurn(i, c) =>
      if !s.workers[i].pc.Recv? {
        WorkerStepKeeps(cfg, s, i, c, t);
      } else if s.queue != [] {
        TakeBatch(cfg, s, i, t.workers[i].pc, t);
      } else {
        LeaveQueue(cfg, s, i, t);
      }
  }

  /** The invariant holds in every state of every run: every interleaving,
      every failure, every size the file writer reports. */
  lemma {:induction false} RunKeeps(cfg: Config, states: seq<State>, actions: seq<Action>, k: nat)
    requires ConfigOk(cfg) && Run(cfg, states, actions) && k < |states|
    ensures Inv(cfg, states[k])
  {
    if k == 0 {
      InitInv(cfg, states[0]);
    } else {
      RunKeeps(cfg, states, actions, k - 1);
      StepKeeps(cfg, states[k - 1], actions[k - 1], states[k]);
    }
  }
}
