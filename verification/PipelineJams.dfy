/** Which configurations can jam at all: a run gets stuck only if its budget
    makes enough batches to use up every worker, to fill the queue, and to
    leave one more for a generator to wait with. */
module PipelineJams {
  import opened Wrappers
  import opened Sums
  import opened Pipeline
  import opened PipelineAccounting
  import opened PipelineProgress
  import opened SinkCalls
  import opened PipelineWitnesses

  // Batches

  /** How many batches so many rows are cut into. */
  function Batches(rows: nat, size: nat): nat {
    if rows == 0 || size == 0 then 0 else if rows <= size then 1 else 1 + Batches(rows - size, size)
  }

  lemma {:induction false} OneMoreBatch(a: nat, b: nat, size: nat)
    requires 1 <= size && a <= size
    ensures Batches(a + b, size) <= 1 + Batches(b, size)
  {
    if b > size {
      OneMoreBatch(a, b - size, size);
      assert a + b - size == a + (b - size);
    }
  }

  /** Rows put together are cut into no more batches than apart. */
  lemma {:induction false} BatchesJoin(a: nat, b: nat, size: nat)
    requires 1 <= size
    ensures Batches(a + b, size) <= Batches(a, size) + Batches(b, size)
  {
    if 0 < a <= size {
      OneMoreBatch(a, b, size);
    } else if a > size {
      BatchesJoin(a - size, b, size);
      assert a + b - size == (a - size) + b;
    }
  }

  function AtLeastOne(n: nat): nat {
    if n == 0 then 1 else n
  }

  // What a jam takes

  /** The batches a worker uses up before it gives up. With a size cap a file
      may fail to close and give its rows back; the last time it gives nothing
      back. */
  function FailureCost(cfg: Config): nat {
    if cfg.cap.None? then cfg.retries + 1 else 1
  }

  /** The batches a worker holds or has used up for good. */
  function UsedBy(cfg: Config, w: Worker): nat {
    var failed := if cfg.cap.None? then w.failures else 0;
    var open := Batches(w.rowsInActive, cfg.batchRows);
    if w.pc.Failed? then FailureCost(cfg)
    else if w.pc.Finished? then 0
    else if w.pc.Open? || w.pc.Write? then failed + open + AtLeastOne(Batches(w.pc.batch, cfg.batchRows))
    else if Writing(w.pc) || w.pc.Close? then failed + AtLeastOne(open)
    else if w.pc.Fail? then (if cfg.cap.None? then failed + 1 + open else AtLeastOne(open))
    else if w.pc.AbandonFlushed? || w.pc.Credit? then failed + Batches(w.pc.lost, cfg.batchRows)
    else failed + open
  }

  function Used(cfg: Config): Worker -> nat {
    w => UsedBy(cfg, w)
  }

  function InHand(g: Gen): nat {
    if g.Holding? || g.Sending? then 1 else 0
  }

  /** The batches the budget still makes, and those already made. */
  function Outstanding(cfg: Config, s: State): nat
    requires s.shared.remaining.Some?
  {
    Batches(s.shared.remaining.value, cfg.batchRows) + SumBy(s.gens, InHand) + |s.queue| + SumBy(s.workers, Used(cfg))
  }

  /** Files are closed at the size cap only. */
  predicate RollsAtCap(cfg: Config, s: State) {
    cfg.cap.None? ==> forall i | 0 <= i < |s.workers| && s.workers[i].pc.Close? :: s.workers[i].pc.last
  }

  /** No batch comes from nowhere, while a generator is alive. */
  predicate Budgeted(cfg: Config, s: State)
    requires cfg.quota.Some?
  {
    && s.shared.remaining.Some? && RollsAtCap(cfg, s)
    && (!GensDone(s) ==> Outstanding(cfg, s) <= Batches(cfg.quota.value, cfg.batchRows))
  }

  lemma WritingUses(cfg: Config, w: Worker, sh: Shared, c: Choice)
    requires ConfigOk(cfg) && WorkerOk(cfg, w) && Writing(w.pc)
    ensures UsedBy(cfg, WorkerMove(cfg, w, sh, c).worker) <= UsedBy(cfg, w)
    ensures WorkerMove(cfg, w, sh, c).shared.remaining == sh.remaining
  {
    if w.pc.Write? {
      BatchesJoin(w.rowsInActive, w.pc.batch, cfg.batchRows);
    }
  }

  lemma ClosingUses(cfg: Config, w: Worker, sh: Shared, c: Choice)
    requires ConfigOk(cfg) && WorkerOk(cfg, w) && Closing(w.pc) && !w.pc.last && (w.pc.Close? ==> cfg.cap.Some?)
    ensures UsedBy(cfg, WorkerMove(cfg, w, sh, c).worker) <= UsedBy(cfg, w)
    ensures WorkerMove(cfg, w, sh, c).shared.remaining == sh.remaining
  {
  }

  lemma GivingUpUses(cfg: Config, w: Worker, sh: Shared, c: Choice)
    requires ConfigOk(cfg) && WorkerOk(cfg, w) && WorkerLive(w) && (w.pc.Fail? || Abandoning(w.pc)) && !w.pc.Credit?
    ensures UsedBy(cfg, WorkerMove(cfg, w, sh, c).worker) <= UsedBy(cfg, w)
    ensures WorkerMove(cfg, w, sh, c).shared.remaining == sh.remaining
  {
  }

  /** A worker's step makes no batch: a credit gives back what it had. */
  lemma WorkerUses(cfg: Config, w: Worker, sh: Shared, c: Choice)
    requires ConfigOk(cfg) && WorkerOk(cfg, w) && WorkerLive(w) && !w.pc.Recv? && !Leaving(w.pc)
    requires sh.remaining.Some? && (cfg.cap.None? ==> !w.pc.Close?)
    ensures var moved := WorkerMove(cfg, w, sh, c);
            && moved.shared.remaining.Some?
            && UsedBy(cfg, moved.worker) + Batches(moved.shared.remaining.value, cfg.batchRows) <=
               UsedBy(cfg, w) + Batches(sh.remaining.value, cfg.batchRows)
  {
    if w.pc.Credit? {
      BatchesJoin(sh.remaining.value, w.pc.lost, cfg.batchRows);
    } else if Writing(w.pc) {
      WritingUses(cfg, w, sh, c);
    } else if Closing(w.pc) {
      ClosingUses(cfg, w, sh, c);
    } else {
      GivingUpUses(cfg, w, sh, c);
    }
  }

  lemma WorkerStepBudgets(cfg: Config, s: State, i: nat, c: Choice, t: State)
    requires ConfigOk(cfg) && cfg.quota.Some? && Inv(cfg, s) && Budgeted(cfg, s) && !GensDone(s)
    requires i < |s.workers| && WorkerLive(s.workers[i]) && !s.workers[i].pc.Recv?
    requires var moved := WorkerMove(cfg, s.workers[i], s.shared, c);
             t == s.(workers := s.workers[i := moved.worker], shared := moved.shared)
    ensures t.shared.remaining.Some? && Outstanding(cfg, t) <= Outstanding(cfg, s)
  {
    assert WorkerOk(cfg, s.workers[i]) && !Leaving(s.workers[i].pc);
    WorkerUses(cfg, s.workers[i], s.shared, c);
    SumByUpdate(s.workers, i, t.workers[i], Used(cfg));
  }

  lemma RecvBudgets(cfg: Config, s: State, i: nat, t: State)
    requires ConfigOk(cfg) && cfg.quota.Some? && Inv(cfg, s) && Budgeted(cfg, s) && !GensDone(s)
    requires i < |s.workers| && s.workers[i].pc.Recv? && RecvMove(s, i) == Some(t)
    ensures t.shared.remaining.Some? && Outstanding(cfg, t) <= Outstanding(cfg, s)
  {
    assert 1 <= s.queue[0] <= cfg.batchRows;
    SumByUpdate(s.workers, i, t.workers[i], Used(cfg));
  }

  lemma GenBudgets(cfg: Config, s: State, a: Action, t: State)
    requires ConfigOk(cfg) && s.shared.remaining.Some? && Apply(cfg, s, a) == Some(t) && !a.WorkerTurn?
    ensures t.shared.remaining.Some? && Outstanding(cfg, t) <= Outstanding(cfg, s)
  {
    SumByUpdate(s.gens, a.i, t.gens[a.i], InHand);
  }

  lemma RollsStay(cfg: Config, s: State, a: Action, t: State)
    requires RollsAtCap(cfg, s) && Apply(cfg, s, a) == Some(t)
    ensures RollsAtCap(cfg, t)
  {
  }

  /** Ended generators stay ended. */
  lemma DoneStays(cfg: Config, s: State, a: Action, t: State)
    requires Apply(cfg, s, a) == Some(t) && GensDone(s)
    ensures GensDone(t)
  {
  }

  lemma StepBudgets(cfg: Config, s: State, a: Action, t: State)
    requires ConfigOk(cfg) && cfg.quota.Some? && Inv(cfg, s) && Budgeted(cfg, s) && Apply(cfg, s, a) == Some(t)
    requires t.shared.remaining.Some?
    ensures Budgeted(cfg, t)
  {
    RollsStay(cfg, s, a, t);
    if GensDone(s) {
      DoneStays(cfg, s, a, t);
    } else if !a.WorkerTurn? {
      GenBudgets(cfg, s, a, t);
    } else if s.workers[a.i].pc.Recv? {
      RecvBudgets(cfg, s, a.i, t);
    } else {
      WorkerStepBudgets(cfg, s, a.i, a.c, t);
    }
  }

  lemma StartBudgets(cfg: Config, s: State)
    requires cfg.quota.Some? && Init(cfg, s)
    ensures Budgeted(cfg, s)
  {
    SumByZero(s.gens, InHand);
    SumByZero(s.workers, Used(cfg));
  }

  lemma StepSizes(cfg: Config, s: State, a: Action, t: State)
    requires Apply(cfg, s, a) == Some(t)
    ensures |t.gens| == |s.gens| && |t.workers| == |s.workers|
  {
  }

  lemma {:induction false} RunSizes(cfg: Config, states: seq<State>, actions: seq<Action>, k: nat)
    requires Run(cfg, states, actions) && k < |states|
    ensures |states[k].gens| == |states[0].gens| && |states[k].workers| == |states[0].workers|
  {
    if k > 0 {
      RunSizes(cfg, states, actions, k - 1);
      StepSizes(cfg, states[k - 1], actions[k - 1], states[k - 1 + 1]);
    }
  }

  predicate KeepsBudget(cfg: Config, s: State, t: State)
    requires cfg.quota.Some?
  {
    Budgeted(cfg, s) ==> Budgeted(cfg, t)
  }

  lemma RunKeepsBudget(cfg: Config, states: seq<State>, actions: seq<Action>, k: nat)
    requires ConfigOk(cfg) && Run(cfg, states, actions) && k < |actions| && cfg.quota.Some?
    ensures KeepsBudget(cfg, states[k], states[k + 1])
  {
    RunKeeps(cfg, states, actions, k);
    RunKeeps(cfg, states, actions, k + 1);
    if Budgeted(cfg, states[k]) {
      StepBudgets(cfg, states[k], actions[k], states[k + 1]);
    }
  }

  lemma {:induction false} BudgetsFollow(cfg: Config, states: seq<State>, k: nat)
    requires k < |states| && cfg.quota.Some? && Budgeted(cfg, states[0])
    requires forall i | 0 <= i < |states| - 1 :: KeepsBudget(cfg, states[i], states[i + 1])
    ensures Budgeted(cfg, states[k])
  {
    if k > 0 {
      BudgetsFollow(cfg, states, k - 1);
      assert KeepsBudget(cfg, states[k - 1], states[k - 1 + 1]);
    }
  }

  lemma RunBudgets(cfg: Config, states: seq<State>, actions: seq<Action>, k: nat)
    requires ConfigOk(cfg) && Run(cfg, states, actions) && k < |states| && cfg.quota.Some?
    ensures Budgeted(cfg, states[k])
  {
    StartBudgets(cfg, states[0]);
    forall i | 0 <= i < |states| - 1
      ensures KeepsBudget(cfg, states[i], states[i + 1])
    {
      RunKeepsBudget(cfg, states, actions, i);
    }
    BudgetsFollow(cfg, states, k);
  }

  /** The batches a jam takes. */
  function JamCost(cfg: Config, workers: nat): nat {
    workers * FailureCost(cfg) + cfg.depth + 1
  }

  lemma JammedHolds(cfg: Config, s: State)
    requires cfg.quota.Some? && Inv(cfg, s) && Budgeted(cfg, s) && Jammed(cfg, s)
    ensures JamCost(cfg, |s.workers|) <= Outstanding(cfg, s)
  {
    var i :| 0 <= i < |s.gens| && GenLive(s.gens[i]);
    SumByMember(s.gens, i, InHand);
    forall j | 0 <= j < |s.workers|
      ensures UsedBy(cfg, s.workers[j]) == FailureCost(cfg)
    {
      assert !WorkerLive(s.workers[j]) && !Leaving(s.workers[j].pc);
    }
    SumByEach(s.workers, Used(cfg), FailureCost(cfg));
  }

  // A jam is reached

  /** The budget makes at least so many more batches. */
  predicate Affords(cfg: Config, s: State, n: nat) {
    s.shared.remaining.Some? ==> Batches(s.shared.remaining.value, cfg.batchRows) >= n
  }

  lemma SetTwice<T>(xs: seq<T>, i: nat, x: T, y: T)
    requires i < |xs|
    ensures xs[i := x][i := y] == xs[i := y] && (xs[i] == y ==> xs[i := y] == xs)
  {
  }

  /** A generator makes a batch and comes to wait at the queue. */
  lemma Wait(cfg: Config, p: Path, s: State, g: nat, n: nat) returns (q: Path, t: State, b: nat)
    requires ConfigOk(cfg) && Reaches(cfg, p, s) && g < |s.gens| && s.gens[g] == Top && Affords(cfg, s, n + 1)
    ensures Reaches(cfg, q, t) && t.gens == s.gens[g := Sending(b)] && t.queue == s.queue && t.workers == s.workers
    ensures b == Take(cfg, s.shared.remaining) >= 1 && Affords(cfg, t, n)
    ensures t.shared.remaining ==
            if s.shared.remaining.Some? then Some(s.shared.remaining.value - b) else None
  {
    b := Take(cfg, s.shared.remaining);
    var a := Reserve(cfg, s, g);
    q := Go(cfg, p, s, GenTurn(g, true), a);
    t := a.(gens := a.gens[g := Sending(b)]);
    SetTwice(s.gens, g, Holding(b), Sending(b));
    q := Go(cfg, q, a, GenTurn(g, true), t);
  }

  /** The first generator makes a batch and sends it. */
  lemma Produce(cfg: Config, p: Path, s: State, n: nat) returns (q: Path, t: State, b: nat)
    requires ConfigOk(cfg) && cfg.status && Reaches(cfg, p, s) && s.gens != [] && s.gens[0] == Top
    requires |s.queue| < cfg.depth && Affords(cfg, s, n + 1)
    ensures Reaches(cfg, q, t) && t.gens == s.gens && t.queue == s.queue + [b] && t.workers == s.workers
    ensures b == Take(cfg, s.shared.remaining) >= 1 && Affords(cfg, t, n)
    ensures t.shared.remaining ==
            if s.shared.remaining.Some? then Some(s.shared.remaining.value - b) else None
  {
    var a: State;
    q, a, b := Wait(cfg, p, s, 0, n);
    var c := a.(gens := a.gens[0 := Counting(b)], queue := a.queue + [b]);
    q := Go(cfg, q, a, GenTurn(0, true), c);
    t := GenMove(cfg, c, 0, true).value;
    q := Go(cfg, q, c, GenTurn(0, true), t);
    SetTwice(s.gens, 0, Sending(b), Counting(b));
    SetTwice(s.gens, 0, Counting(b), Top);
  }

  /** What makes a call fail: no file opens, or with a size cap no full file closes. */
  function Failing(cfg: Config): Pc -> Choice {
    if cfg.cap.None? then (pc: Pc) => BAD
    else (pc: Pc) => Choice(!pc.Close?, Meter(0, cfg.cap.value, 0), 0)
  }

  /** The call of a worker that has just taken a batch fails. */
  lemma FailedCall(cfg: Config, w: Worker, sh: Shared) returns (v: Worker)
    requires w.pc.Open? && Idle(w) && w.rowsSeen == w.completed
    ensures var moved := Call(cfg, w, sh, Failing(cfg));
            && v == moved.worker && moved.shared.remaining == sh.remaining
    ensures v.pc == Fail && !v.hasFile && v.failures == w.failures && v.completed == w.completed
    ensures v.rowsInActive == (if cfg.cap.None? then 0 else w.pc.batch) && v.rowsSeen == v.completed + v.rowsInActive
  {
    var choose := Failing(cfg);
    if cfg.cap.None? {
      FailedStep(cfg, w, sh, choose);
    } else {
      var ready := WorkerMove(cfg, w, sh, choose(w.pc));
      var full := Written(cfg, ready.worker, ready.shared, choose(ready.worker.pc).meter);
      WriteCall(cfg, ready.worker, ready.shared, choose);
      FailedStep(cfg, full.worker, full.shared, choose);
      assert Call(cfg, w, sh, choose) == Call(cfg, ready.worker, ready.shared, choose);
    }
    v := Call(cfg, w, sh, choose).worker;
  }

  /** A worker at the queue that is about to fail for the last time, or not. */
  predicate Waiting(cfg: Config, w: Worker) {
    w.pc.Recv? && Idle(w) && w.rowsSeen == w.completed && w.failures <= cfg.retries
  }

  /** The batches a worker has still to use up. */
  function CostLeft(cfg: Config, w: Worker): nat
    requires w.failures <= cfg.retries
  {
    if cfg.cap.None? then cfg.retries + 1 - w.failures else 1
  }

  /** A batch is made for the worker, which fails with it. */
  lemma ComeToFail(cfg: Config, p: Path, s: State, i: nat, n: nat) returns (q: Path, t: State, b: nat)
    requires ConfigOk(cfg) && cfg.status && Reaches(cfg, p, s) && s.gens != [] && s.gens[0] == Top && s.queue == []
    requires i < |s.workers| && Waiting(cfg, s.workers[i]) && Affords(cfg, s, n + 1)
    ensures Reaches(cfg, q, t) && t.gens == s.gens && t.queue == [] && Affords(cfg, t, n)
    ensures i < |t.workers| && t.workers == s.workers[i := t.workers[i]]
    ensures var v := t.workers[i];
            && v.pc == Fail && !v.hasFile && v.failures == s.workers[i].failures
            && v.rowsSeen == v.completed + v.rowsInActive && v.rowsInActive == if cfg.cap.None? then 0 else b
    ensures t.shared.remaining == if s.shared.remaining.Some? then Some(s.shared.remaining.value - b) else None
    ensures s.shared.remaining.Some? ==> b <= s.shared.remaining.value
  {
    var a: State;
    q, a, b := Produce(cfg, p, s, n);
    assert a.queue == [b] && [b][1..] == [];
    var taken := a.workers[i].(pc := Open(b));
    var c := a.(queue := [], workers := a.workers[i := taken]);
    q := Go(cfg, q, a, WorkerTurn(i, BAD), c);
    var v := FailedCall(cfg, taken, c.shared);
    q, t := CallRuns(cfg, q, c, i, Failing(cfg));
    SetTwice(s.workers, i, taken, v);
  }

  /** A failure that is tolerated: the file is given up and its rows go back. */
  lemma Tolerate(cfg: Config, p: Path, s: State, i: nat) returns (q: Path, t: State)
    requires Reaches(cfg, p, s) && i < |s.workers| && s.workers[i].pc == Fail && s.workers[i].failures < cfg.retries
    requires s.workers[i].rowsSeen == s.workers[i].completed + s.workers[i].rowsInActive
    ensures Reaches(cfg, q, t) && t.gens == s.gens && t.queue == s.queue
    ensures i < |t.workers| && t.workers == s.workers[i := t.workers[i]]
    ensures Waiting(cfg, t.workers[i]) && t.workers[i].failures == s.workers[i].failures + 1
    ensures t.shared.remaining ==
            if s.shared.remaining.Some? then Some(s.shared.remaining.value + s.workers[i].rowsInActive) else None
  {
    var w := s.workers[i];
    var giving := w.(pc := AbandonFiles, failures := w.failures + 1, hasFile := false);
    var a := s.(workers := s.workers[i := giving]);
    q := Go(cfg, p, s, WorkerTurn(i, ALL_WELL), a);
    var choose := (pc: Pc) => ALL_WELL;
    AbandonCall(cfg, giving, a.shared, choose);
    var b: State;
    q, b := CallRuns(cfg, q, a, i, choose);
    q, t := GiveBack(cfg, q, b, i, w.rowsInActive);
    SetTwice(s.workers, i, giving, b.workers[i]);
    SetTwice(s.workers, i, b.workers[i], t.workers[i]);
  }

  lemma GiveBack(cfg: Config, p: Path, s: State, i: nat, lost: nat) returns (q: Path, t: State)
    requires Reaches(cfg, p, s) && i < |s.workers| && s.workers[i].pc == Credit(lost)
    ensures Reaches(cfg, q, t) && t.gens == s.gens && t.queue == s.queue
    ensures t.workers == s.workers[i := s.workers[i].(pc := Recv, given := s.workers[i].given + lost)]
    ensures t.shared.remaining == if s.shared.remaining.Some? then Some(s.shared.remaining.value + lost) else None
  {
    var moved := WorkerMove(cfg, s.workers[i], s.shared, ALL_WELL);
    t := s.(workers := s.workers[i := moved.worker], shared := moved.shared);
    q := Go(cfg, p, s, WorkerTurn(i, ALL_WELL), t);
  }

  /** A worker fails as often as it may, and once more. */
  lemma {:induction false} UseUp(cfg: Config, p: Path, s: State, i: nat, n: nat) returns (q: Path, t: State)
    requires ConfigOk(cfg) && cfg.status && Reaches(cfg, p, s) && s.gens != [] && s.gens[0] == Top && s.queue == []
    requires i < |s.workers| && Waiting(cfg, s.workers[i])
    requires Affords(cfg, s, n + CostLeft(cfg, s.workers[i]))
    ensures Reaches(cfg, q, t) && t.gens == s.gens && t.queue == [] && Affords(cfg, t, n)
    ensures i < |t.workers| && t.workers == s.workers[i := t.workers[i]] && t.workers[i].pc == Failed
    decreases if i < |s.workers| then cfg.retries - s.workers[i].failures else 0
  {
    var more := n + CostLeft(cfg, s.workers[i]) - 1;
    var a: State, b: nat;
    q, a, b := ComeToFail(cfg, p, s, i, more);
    var w := a.workers[i];
    if w.failures == cfg.retries {
      var failed := w.(pc := Failed, failures := w.failures + 1);
      t := a.(workers := a.workers[i := failed]);
      q := Go(cfg, q, a, WorkerTurn(i, ALL_WELL), t);
      SetTwice(s.workers, i, w, failed);
    } else {
      var c: State;
      q, c := Tolerate(cfg, q, a, i);
      q, t := UseUp(cfg, q, c, i, n);
      SetTwice(s.workers, i, w, c.workers[i]);
      SetTwice(s.workers, i, c.workers[i], t.workers[i]);
    }
  }

  predicate FailedUpTo(workers: seq<Worker>, i: nat)
    requires i <= |workers|
  {
    && (forall j | 0 <= j < i :: workers[j].pc == Failed)
    && forall j | i <= j < |workers| :: workers[j] == NEW_WORKER
  }

  lemma {:induction false} UseUpAll(cfg: Config, p: Path, s: State, i: nat, n: nat) returns (q: Path, t: State)
    requires ConfigOk(cfg) && cfg.status && Reaches(cfg, p, s) && s.gens != [] && s.gens[0] == Top && s.queue == []
    requires i <= |s.workers| && FailedUpTo(s.workers, i)
    requires Affords(cfg, s, n + (|s.workers| - i) * FailureCost(cfg))
    ensures Reaches(cfg, q, t) && t.gens == s.gens && t.queue == [] && Affords(cfg, t, n)
    ensures |t.workers| == |s.workers| && FailedUpTo(t.workers, |t.workers|)
    decreases |s.workers| - i
  {
    if i == |s.workers| {
      q, t := p, s;
    } else {
      var left := n + (|s.workers| - (i + 1)) * FailureCost(cfg);
      OneLess(|s.workers| - i, FailureCost(cfg));
      var a: State;
      q, a := UseUp(cfg, p, s, i, left);
      q, t := UseUpAll(cfg, q, a, i + 1, n);
    }
  }

  lemma OneLess(k: nat, cost: nat)
    requires k >= 1
    ensures k * cost == (k - 1) * cost + cost
  {
  }

  lemma {:induction false} FillQueue(cfg: Config, p: Path, s: State, n: nat) returns (q: Path, t: State)
    requires ConfigOk(cfg) && cfg.status && Reaches(cfg, p, s) && s.gens != [] && s.gens[0] == Top
    requires |s.queue| <= cfg.depth && Affords(cfg, s, n + (cfg.depth - |s.queue|))
    ensures Reaches(cfg, q, t) && t.gens == s.gens && t.workers == s.workers && |t.queue| == cfg.depth
    ensures Affords(cfg, t, n)
    decreases cfg.depth - |s.queue|
  {
    if |s.queue| == cfg.depth {
      q, t := p, s;
    } else {
      var a: State, b: nat;
      q, a, b := Produce(cfg, p, s, n + (cfg.depth - |s.queue|) - 1);
      q, t := FillQueue(cfg, q, a, n);
    }
  }

  /** A generator that has ended or waits at the queue. */
  predicate AtRest(g: Gen) {
    GenLive(g) ==> g.Sending?
  }

  predicate RestUpTo(gens: seq<Gen>, g: nat)
    requires g <= |gens|
  {
    (forall j | 0 <= j < g :: AtRest(gens[j])) && forall j | g <= j < |gens| :: gens[j] == Top
  }

  lemma {:induction false} RestAll(cfg: Config, p: Path, s: State, g: nat) returns (q: Path, t: State)
    requires ConfigOk(cfg) && Reaches(cfg, p, s) && 1 <= g <= |s.gens| && RestUpTo(s.gens, g)
    ensures Reaches(cfg, q, t) && t.queue == s.queue && t.workers == s.workers
    ensures |t.gens| == |s.gens| && RestUpTo(t.gens, |t.gens|) && t.gens[0] == s.gens[0]
    decreases |s.gens| - g
  {
    if g == |s.gens| {
      q, t := p, s;
    } else {
      var a: State;
      if Take(cfg, s.shared.remaining) == 0 {
        a := Reserve(cfg, s, g);
        q := Go(cfg, p, s, GenTurn(g, true), a);
      } else {
        var b: nat;
        q, a, b := Wait(cfg, p, s, g, 0);
      }
      q, t := RestAll(cfg, q, a, g + 1);
    }
  }

  /** A run of so many generators and workers that ends jammed. */
  ghost predicate JamRun(cfg: Config, gens: nat, workers: nat, p: Path, s: State) {
    && Reaches(cfg, p, s) && Jammed(cfg, s)
    && |p.states[0].gens| == gens && |p.states[0].workers| == workers
  }

  /** The status display is on, there is a generator, and the budget makes the
      batches a jam takes. */
  predicate CanJam(cfg: Config, gens: nat, workers: nat) {
    && cfg.status && gens >= 1
    && (cfg.quota.Some? ==> JamCost(cfg, workers) <= Batches(cfg.quota.value, cfg.batchRows))
  }

  lemma JamTakes(cfg: Config, gens: nat, workers: nat, p: Path, s: State)
    requires ConfigOk(cfg) && JamRun(cfg, gens, workers, p, s)
    ensures CanJam(cfg, gens, workers)
  {
    var last := |p.states| - 1;
    RunSizes(cfg, p.states, p.actions, last);
    if cfg.quota.Some? {
      RunKeeps(cfg, p.states, p.actions, last);
      RunBudgets(cfg, p.states, p.actions, last);
      JammedHolds(cfg, s);
    }
  }

  lemma StateSizes(cfg: Config, p: Path, s: State)
    requires Reaches(cfg, p, s)
    ensures |p.states[0].gens| == |s.gens| && |p.states[0].workers| == |s.workers|
  {
    RunSizes(cfg, p.states, p.actions, |p.states| - 1);
  }

  lemma RunToJam(cfg: Config, gens: nat, workers: nat) returns (p: Path, s: State)
    requires ConfigOk(cfg) && CanJam(cfg, gens, workers)
    ensures JamRun(cfg, gens, workers, p, s)
  {
    s := State(seq(gens, _ => Top), [], seq(workers, _ => NEW_WORKER), Shared(NO_STATS, cfg.quota, 0, 0), 0, 0);
    p := Start(cfg, s);
    p, s := UseUpAll(cfg, p, s, 0, cfg.depth + 1);
    p, s := FillQueue(cfg, p, s, 1);
    var b: nat;
    var t: State;
    p, t, b := Wait(cfg, p, s, 0, 0);
    p, s := RestAll(cfg, p, t, 1);
    assert GenLive(s.gens[0]);
    StateSizes(cfg, p, s);
  }

  /** A run of so many generators and workers can jam if and only if the status
      display is on, there is a generator, and the budget, if there is one,
      makes enough batches. */
  lemma JamIsReachableExactly(cfg: Config, gens: nat, workers: nat)
    requires ConfigOk(cfg)
    ensures (exists p, s :: JamRun(cfg, gens, workers, p, s)) <==> CanJam(cfg, gens, workers)
  {
    if CanJam(cfg, gens, workers) {
      var p, s := RunToJam(cfg, gens, workers);
    }
    if exists p, s :: JamRun(cfg, gens, workers, p, s) {
      var p, s :| JamRun(cfg, gens, workers, p, s);
      JamTakes(cfg, gens, workers, p, s);
    }
  }
}
