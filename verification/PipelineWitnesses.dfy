/** Concrete runs: one that jams, and two that succeed with something amiss. */
module PipelineWitnesses {
  import opened Wrappers
  import opened Pipeline
  import opened PipelineTheorems
  import opened PipelineProgress
  import opened SinkCalls

  const BAD := Choice(false, Meter(0, 0, 0), 0)
  const GEN := GenTurn(0, true)
  const WORK := WorkerTurn(0, ALL_WELL)
  const FAIL := WorkerTurn(0, BAD)

  /** A run under way, and the state it has reached. */
  datatype Path = Path(states: seq<State>, actions: seq<Action>)

  predicate Reaches(cfg: Config, p: Path, s: State) {
    Run(cfg, p.states, p.actions) && p.states[|p.states| - 1] == s
  }

  lemma Start(cfg: Config, s: State) returns (p: Path)
    requires Init(cfg, s)
    ensures Reaches(cfg, p, s)
  {
    p := Path([s], []);
  }

  lemma Go(cfg: Config, p: Path, s: State, a: Action, t: State) returns (q: Path)
    requires Reaches(cfg, p, s) && Apply(cfg, s, a) == Some(t)
    ensures Reaches(cfg, q, t)
  {
    q := Path(p.states + [t], p.actions + [a]);
  }

  lemma One<T>(x: T, y: T)
    ensures [x][0 := y] == [y]
  {
  }

  predicate SameFileCounts(a: Shared, b: Shared) {
    a.filesOpened == b.filesOpened && a.stats.filesCompleted == b.stats.filesCompleted
  }

  // One generator and one worker, one row a batch

  /** The generator makes and sends a batch, from an empty queue. */
  lemma SendOne(cfg: Config, p: Path, s: State) returns (q: Path, t: State)
    requires cfg.batchRows == 1 && cfg.depth >= 1 && Reaches(cfg, p, s) && s.gens == [Top] && s.queue == []
    requires Take(cfg, s.shared.remaining) == 1 && Receivers(cfg, s)
    ensures Reaches(cfg, q, t) && t.gens == [Top] && t.queue == [1] && t.workers == s.workers
    ensures t.shared.dropped == s.shared.dropped && t.shared.stats.rows == s.shared.stats.rows
    ensures t.shared.stats.rowsGenerated == s.shared.stats.rowsGenerated + 1
    ensures t.shared.remaining == if s.shared.remaining.Some? then Some(s.shared.remaining.value - 1) else None
    ensures SameFileCounts(s.shared, t.shared) && t.shared.stats.activeBytes == s.shared.stats.activeBytes
  {
    var a := Reserve(cfg, s, 0);
    One(Top, Holding(1));
    q := Go(cfg, p, s, GEN, a);
    var b := a.(gens := [Sending(1)]);
    One(Holding(1), Sending(1));
    q := Go(cfg, q, a, GEN, b);
    var c := b.(gens := [Counting(1)], queue := [1]);
    One(Sending(1), Counting(1));
    assert [] + [1] == [1];
    q := Go(cfg, q, b, GEN, c);
    t := GenMove(cfg, c, 0, true).value;
    One(Counting(1), Top);
    q := Go(cfg, q, c, GEN, t);
  }

  /** The worker takes the batch, and its new file cannot be opened. */
  lemma FailOne(cfg: Config, p: Path, s: State) returns (q: Path, t: State)
    requires Reaches(cfg, p, s) && s.queue == [1] && s.workers == [NEW_WORKER]
    ensures Reaches(cfg, q, t) && t.gens == s.gens && t.queue == [] && t.workers == [NEW_WORKER.(pc := Fail)]
    ensures t.shared.dropped == s.shared.dropped + 1 && t.shared.stats == s.shared.stats
    ensures t.shared.remaining == s.shared.remaining && t.shared.filesOpened == s.shared.filesOpened + 1
  {
    var a := s.(queue := [], workers := [NEW_WORKER.(pc := Open(1))]);
    One(NEW_WORKER, NEW_WORKER.(pc := Open(1)));
    assert [1][1..] == [];
    q := Go(cfg, p, s, WORK, a);
    var moved := WorkerMove(cfg, a.workers[0], a.shared, BAD);
    One(a.workers[0], moved.worker);
    t := a.(workers := [moved.worker], shared := moved.shared);
    q := Go(cfg, q, a, FAIL, t);
  }

  // A jam: no tolerated failure, status display on

  const JAM := Config(None, false, 1, 1, 0, None, true)

  /** The worker fails to open its first file and ends; two more batches are
      made, one fills the queue, the other waits to be sent for ever. */
  lemma JamIsReachable() returns (p: Path, s: State)
    ensures ConfigOk(JAM) && Reaches(JAM, p, s) && Jammed(JAM, s)
  {
    s := State([Top], [], [NEW_WORKER], Shared(NO_STATS, None, 0, 0), 0, 0);
    p := Start(JAM, s);
    p, s := SendOne(JAM, p, s);
    p, s := FailOne(JAM, p, s);
    var failed := NEW_WORKER.(pc := Failed, failures := 1);
    var t := s.(workers := [failed]);
    One(NEW_WORKER.(pc := Fail), failed);
    p := Go(JAM, p, s, WORK, t);
    p, s := SendOne(JAM, p, t);
    t := Reserve(JAM, s, 0);
    One(Top, Holding(1));
    p := Go(JAM, p, s, GEN, t);
    s := t.(gens := [Sending(1)]);
    One(Holding(1), Sending(1));
    p := Go(JAM, p, t, GEN, s);
    assert GenLive(s.gens[0]);
  }

  // A short run: `--rows 1` and one tolerated failure

  const SHORT := Config(Some(1), false, 1, 1, 1, None, false)

  /** A worker whose file is given up goes back to the queue with nothing. */
  lemma GiveUpOne(p: Path, s: State) returns (q: Path, t: State)
    requires Reaches(SHORT, p, s) && s.workers == [NEW_WORKER.(pc := Fail)] && s.shared.remaining == Some(0)
    ensures Reaches(SHORT, q, t) && t.gens == s.gens && t.queue == s.queue
    ensures t.workers == [NEW_WORKER.(failures := 1)] && t.shared.remaining == Some(0)
    ensures t.shared.stats.rows == s.shared.stats.rows && t.shared.stats.rowsGenerated == s.shared.stats.rowsGenerated
    ensures t.shared.dropped == s.shared.dropped && SameFileCounts(s.shared, t.shared)
  {
    q, t := p, s;
    var turn: nat := 0;
    while turn < 7
      invariant turn <= 7 && Reaches(SHORT, q, t) && t.gens == s.gens && t.queue == s.queue
      invariant t.shared.remaining == Some(0) && t.shared.dropped == s.shared.dropped
      invariant SameFileCounts(s.shared, t.shared)
      invariant t.shared.stats.rows == s.shared.stats.rows
      invariant t.shared.stats.rowsGenerated == s.shared.stats.rowsGenerated
      invariant t.workers == [NEW_WORKER.(pc := GivingUp(turn), failures := if turn == 0 then 0 else 1)]
    {
      var moved := WorkerMove(SHORT, t.workers[0], t.shared, ALL_WELL);
      One(t.workers[0], moved.worker);
      var u := t.(workers := [moved.worker], shared := moved.shared);
      q := Go(SHORT, q, t, WORK, u);
      t, turn := u, turn + 1;
    }
  }

  function GivingUp(turn: nat): Pc
    requires turn <= 7
  {
    [Fail, AbandonFiles, AbandonLost, AbandonBuffered, AbandonActive, AbandonFlushed(0), Credit(0), Recv][turn]
  }

  /** Nothing is left to make or to take: both tasks end. */
  lemma EndOne(p: Path, s: State) returns (q: Path, t: State)
    requires Reaches(SHORT, p, s) && s.gens == [Top] && s.queue == [] && s.shared.remaining == Some(0)
    requires s.workers == [NEW_WORKER.(failures := 1)]
    ensures Reaches(SHORT, q, t) && Ended(t) && AllFinished(t) && t.shared == s.shared
  {
    var w := NEW_WORKER.(failures := 1);
    var a := s.(gens := [Exhausted]);
    One(Top, Exhausted);
    q := Go(SHORT, p, s, GEN, a);
    var b := a.(workers := [w.(pc := Close(true))]);
    One(w, w.(pc := Close(true)));
    q := Go(SHORT, q, a, WORK, b);
    t := b.(workers := [w.(pc := Finished(true))]);
    One(w.(pc := Close(true)), w.(pc := Finished(true)));
    q := Go(SHORT, q, b, WORK, t);
  }

  /** The only batch is dropped with the file that could not be opened; the run
      ends well, with no row written and the final assertion false. */
  lemma ShortRunSucceeds() returns (p: Path, s: State)
    ensures ConfigOk(SHORT) && Reaches(SHORT, p, s) && Ended(s) && AllFinished(s)
    ensures s.shared.stats.rows == 0 && s.shared.stats.rowsGenerated == 1
    ensures s.shared.filesOpened == 1 && s.shared.stats.filesCompleted == 0
  {
    s := State([Top], [], [NEW_WORKER], Shared(NO_STATS, Some(1), 0, 0), 0, 0);
    p := Start(SHORT, s);
    assert WorkerLive(s.workers[0]);
    p, s := SendOne(SHORT, p, s);
    p, s := FailOne(SHORT, p, s);
    p, s := GiveUpOne(p, s);
    p, s := EndOne(p, s);
  }

  // A leftover: the last file cannot be closed, which is tolerated

  /** The outside a sink call meets, with no row held back by the file writer. */
  ghost predicate Prompt(choose: Pc -> Choice) {
    forall pc :: choose(pc).meter.pending == 0
  }

  /** One call of worker `i`, run without anything in between. */
  lemma {:induction false} CallRuns(cfg: Config, p: Path, s: State, i: nat, choose: Pc -> Choice)
    returns (q: Path, t: State)
    requires Reaches(cfg, p, s) && i < |s.workers| && Prompt(choose)
    ensures var moved := Call(cfg, s.workers[i], s.shared, choose);
            Reaches(cfg, q, t) && t == s.(workers := s.workers[i := moved.worker], shared := moved.shared)
    decreases if i < |s.workers| then PcWork(s.workers[i].pc) else 0
  {
    var w := s.workers[i];
    if Returned(w.pc) {
      q, t := p, s;
      assert s.workers[i := w] == s.workers;
    } else {
      var moved := WorkerMove(cfg, w, s.shared, choose(w.pc));
      StepsDown(cfg, w, s.shared, choose(w.pc));
      t := s.(workers := s.workers[i := moved.worker], shared := moved.shared);
      q := Go(cfg, p, s, WorkerTurn(i, choose(w.pc)), t);
      ghost var workers := t.workers;
      q, t := CallRuns(cfg, q, t, i, choose);
      assert workers[i := t.workers[i]] == s.workers[i := t.workers[i]];
    }
  }

  const FIVE_BYTES := Choice(true, Meter(0, 5, 0), 0)

  const OPENED := NEW_WORKER.(pc := Write(1), hasFile := true)

  /** The worker takes its only batch and opens a file. */
  lemma OpenOne(p: Path, s: State) returns (q: Path, t: State)
    requires Reaches(SHORT, p, s) && s.queue == [1] && s.workers == [NEW_WORKER]
    ensures Reaches(SHORT, q, t) && t.gens == s.gens && t.queue == [] && t.workers == [OPENED]
    ensures t.shared.remaining == s.shared.remaining && t.shared.stats == s.shared.stats
  {
    var a := s.(queue := [], workers := [NEW_WORKER.(pc := Open(1))]);
    One(NEW_WORKER, NEW_WORKER.(pc := Open(1)));
    assert [1][1..] == [];
    q := Go(SHORT, p, s, WORK, a);
    var moved := WorkerMove(SHORT, a.workers[0], a.shared, FIVE_BYTES);
    One(a.workers[0], moved.worker);
    t := a.(workers := [moved.worker], shared := moved.shared);
    q := Go(SHORT, q, a, WorkerTurn(0, FIVE_BYTES), t);
  }

  lemma CallOfFiveBytes(sh: Shared, choose: Pc -> Choice)
    requires choose(Write(1)) == FIVE_BYTES && sh.stats.activeBytes == 0
    ensures var moved := Call(SHORT, OPENED, sh, choose);
            && moved.worker == Worker(Recv, 0, true, Meter(0, 5, 0), 1, 1, 0, 5, 1, 0, 0)
            && moved.shared.remaining == sh.remaining && moved.shared.stats.activeBytes == 5
  {
    WriteCall(SHORT, OPENED, sh, choose);
  }

  /** The worker writes its only batch, reporting five bytes of the open file. */
  lemma WriteOne(p: Path, s: State) returns (q: Path, t: State)
    requires Reaches(SHORT, p, s) && s.queue == [1] && s.workers == [NEW_WORKER] && s.shared.stats.activeBytes == 0
    ensures Reaches(SHORT, q, t) && t.gens == s.gens && t.queue == [] && t.shared.remaining == s.shared.remaining
    ensures t.workers == [Worker(Recv, 0, true, Meter(0, 5, 0), 1, 1, 0, 5, 1, 0, 0)]
    ensures t.shared.stats.activeBytes == 5
  {
    var choose := (pc: Pc) => FIVE_BYTES;
    q, t := OpenOne(p, s);
    CallOfFiveBytes(t.shared, choose);
    One(OPENED, Call(SHORT, OPENED, t.shared, choose).worker);
    q, t := CallRuns(SHORT, q, t, 0, choose);
  }

  /** The run of one row ends well although its file could not be closed, with
      no file open and five bytes left in `active_bytes`. */
  lemma LeftoverIsReachable() returns (p: Path, s: State)
    ensures ConfigOk(SHORT) && Reaches(SHORT, p, s) && Ended(s) && AllFinished(s)
    ensures (forall i | 0 <= i < |s.workers| :: !s.workers[i].hasFile) && s.shared.stats.activeBytes == 5
  {
    s := State([Top], [], [NEW_WORKER], Shared(NO_STATS, Some(1), 0, 0), 0, 0);
    p := Start(SHORT, s);
    assert WorkerLive(s.workers[0]);
    p, s := SendOne(SHORT, p, s);
    p, s := WriteOne(p, s);
    var t := s.(gens := [Exhausted]);
    One(Top, Exhausted);
    p := Go(SHORT, p, s, GEN, t);
    var w := t.workers[0];
    s := t.(workers := [w.(pc := Close(true))]);
    One(w, w.(pc := Close(true)));
    p := Go(SHORT, p, t, WORK, s);
    var ended := w.(pc := Finished(false), hasFile := false, failures := 1);
    t := s.(workers := [ended]);
    One(w.(pc := Close(true)), ended);
    p := Go(SHORT, p, s, FAIL, t);
    s := t;
  }
}
