/** The calls of a sink in closed form: what the worker's steps of one call add
    up to when nothing runs in between. */
module SinkCalls {
  import opened Pipeline
  import opened PipelineAccounting
  import opened PipelineProgress

  // A call as the steps it makes

  /** Where a sink call returns to the worker loop. */
  predicate Returned(pc: Pc) {
    pc.Recv? || pc.Fail? || pc.Credit? || pc.Finished? || pc.Failed?
  }

  lemma StepsDown(cfg: Config, w: Worker, sh: Shared, c: Choice)
    requires !Returned(w.pc)
    ensures PcWork(WorkerMove(cfg, w, sh, c).worker.pc) < PcWork(w.pc)
  {
  }

  /** The worker's steps up to the end of the call, alone. */
  function Call(cfg: Config, w: Worker, sh: Shared, choose: Pc -> Choice): Moved
    decreases PcWork(w.pc)
  {
    if Returned(w.pc) then Moved(w, sh) else
      StepsDown(cfg, w, sh, choose(w.pc));
      var moved := WorkerMove(cfg, w, sh, choose(w.pc));
      Call(cfg, moved.worker, moved.shared, choose)
  }

  /** The writer's reports in the call are possible ones. */
  predicate CallOk(w: Worker, choose: Pc -> Choice) {
    && ChoiceOk(w, choose(w.pc))
    && (w.pc.Open? ==> choose(Write(w.pc.batch)).meter.pending <= w.pc.batch)
  }

  lemma BalancedTwice(w: Worker, sh: Shared, a: Moved, b: Moved)
    requires Balanced(w, sh, a) && Balanced(a.worker, a.shared, b)
    ensures Balanced(w, sh, b)
  {
  }

  lemma BalancedNone(w: Worker, sh: Shared)
    ensures Balanced(w, sh, Moved(w, sh))
  {
  }

  lemma FailuresWait(cfg: Config, w: Worker, sh: Shared, c: Choice)
    requires !Returned(w.pc)
    ensures WorkerLive(WorkerMove(cfg, w, sh, c).worker) ==> WorkerMove(cfg, w, sh, c).worker.failures == w.failures
  {
  }

  /** A whole call keeps the worker's books and moves every shared counter by
      what it moves in the worker's own figures. */
  lemma {:induction false} CallKeeps(cfg: Config, w: Worker, sh: Shared, choose: Pc -> Choice)
    requires WorkerOk(cfg, w) && CallOk(w, choose)
    ensures WorkerOk(cfg, Call(cfg, w, sh, choose).worker) && Balanced(w, sh, Call(cfg, w, sh, choose))
    ensures WorkerLive(Call(cfg, w, sh, choose).worker) ==> Call(cfg, w, sh, choose).worker.failures == w.failures
    decreases PcWork(w.pc)
  {
    if Returned(w.pc) {
      BalancedNone(w, sh);
    } else {
      var moved := WorkerMove(cfg, w, sh, choose(w.pc));
      StepsDown(cfg, w, sh, choose(w.pc));
      WorkerMoveKeeps(cfg, w, sh, choose(w.pc));
      assert CallOk(moved.worker, choose);
      FailuresWait(cfg, w, sh, choose(w.pc));
      CallKeeps(cfg, moved.worker, moved.shared, choose);
      BalancedTwice(w, sh, moved, Call(cfg, moved.worker, moved.shared, choose));
    }
  }

  // Closed forms

  /** `sync_buffer_gauge`: the three gauges follow the writer's report. */
  function Synced(w: Worker, stats: Stats, m: Meter): Stats {
    stats.(bufferedBytes := ApplyDelta(stats.bufferedBytes, w.repBuffered, m.buffered),
           activeBytes := ApplyDelta(stats.activeBytes, w.repActive, m.fileBytes),
           rowsFlushed := ApplyDelta(stats.rowsFlushed, w.repFlushed, SaturatingSub(w.rowsSeen, m.pending)))
  }

  function SyncedWorker(w: Worker, m: Meter): Worker {
    w.(repBuffered := m.buffered, repActive := m.fileBytes, repFlushed := SaturatingSub(w.rowsSeen, m.pending))
  }

  /** `close_active` on an open file that closes well. */
  function ClosedStats(w: Worker, stats: Stats, bytes: nat): Stats {
    stats.(bytesWritten := stats.bytesWritten + bytes, filesCompleted := stats.filesCompleted + 1,
           bufferedBytes := ApplyDelta(stats.bufferedBytes, w.repBuffered, 0),
           activeBytes := ApplyDelta(stats.activeBytes, w.repActive, 0),
           rowsFlushed := ApplyDelta(stats.rowsFlushed, w.repFlushed, w.rowsSeen))
  }

  function ClosedWorker(w: Worker): Worker {
    w.(hasFile := false, completed := w.completed + w.rowsInActive, rowsInActive := 0,
       repBuffered := 0, repActive := 0, repFlushed := w.rowsSeen)
  }

  /** `abandon_active`. */
  function AbandonedStats(w: Worker, stats: Stats): Stats {
    stats.(filesAbandoned := stats.filesAbandoned + 1, rowsLost := stats.rowsLost + w.rowsInActive,
           bufferedBytes := ApplyDelta(stats.bufferedBytes, w.repBuffered, 0),
           activeBytes := ApplyDelta(stats.activeBytes, w.repActive, 0),
           rowsFlushed := ApplyDelta(stats.rowsFlushed, w.repFlushed, SaturatingSub(w.rowsSeen, w.rowsInActive)))
  }

  function AbandonedWorker(w: Worker): Worker {
    var kept := SaturatingSub(w.rowsSeen, w.rowsInActive);
    w.(rowsSeen := kept, rowsInActive := 0, repBuffered := 0, repActive := 0, repFlushed := kept)
  }

  lemma CloseCall(cfg: Config, w: Worker, sh: Shared, choose: Pc -> Choice)
    requires w.pc.Close? && w.hasFile && choose(w.pc).ok
    ensures Call(cfg, w, sh, choose) ==
            Moved(ClosedWorker(w).(pc := AfterClose(w.pc.last)),
                  sh.(stats := ClosedStats(w, sh.stats, choose(w.pc).bytes)))
  {
    var a := WorkerMove(cfg, w, sh, choose(w.pc));
    var b := WorkerMove(cfg, a.worker, a.shared, choose(a.worker.pc));
    var c := WorkerMove(cfg, b.worker, b.shared, choose(b.worker.pc));
    var d := WorkerMove(cfg, c.worker, c.shared, choose(c.worker.pc));
    var e := WorkerMove(cfg, d.worker, d.shared, choose(d.worker.pc));
    var f := WorkerMove(cfg, e.worker, e.shared, choose(e.worker.pc));
    assert Call(cfg, w, sh, choose) == Call(cfg, a.worker, a.shared, choose);
    assert Call(cfg, a.worker, a.shared, choose) == Call(cfg, b.worker, b.shared, choose);
    assert Call(cfg, b.worker, b.shared, choose) == Call(cfg, c.worker, c.shared, choose);
    assert Call(cfg, c.worker, c.shared, choose) == Call(cfg, d.worker, d.shared, choose);
    assert Call(cfg, d.worker, d.shared, choose) == Call(cfg, e.worker, e.shared, choose);
    assert Call(cfg, e.worker, e.shared, choose) == Call(cfg, f.worker, f.shared, choose) == f;
  }

  lemma AbandonCall(cfg: Config, w: Worker, sh: Shared, choose: Pc -> Choice)
    requires w.pc.AbandonFiles?
    ensures Call(cfg, w, sh, choose) ==
            Moved(AbandonedWorker(w).(pc := Credit(w.rowsInActive)), sh.(stats := AbandonedStats(w, sh.stats)))
  {
    var a := WorkerMove(cfg, w, sh, choose(w.pc));
    var b := WorkerMove(cfg, a.worker, a.shared, choose(a.worker.pc));
    assert Call(cfg, w, sh, choose) == Call(cfg, a.worker, a.shared, choose);
    assert Call(cfg, a.worker, a.shared, choose) == Call(cfg, b.worker, b.shared, choose);
    GaugesDown(cfg, b.worker, b.shared, choose);
  }

  /** The three gauge steps that end `abandon_active`. */
  lemma GaugesDown(cfg: Config, w: Worker, sh: Shared, choose: Pc -> Choice)
    requires w.pc.AbandonBuffered?
    ensures var kept := SaturatingSub(w.rowsSeen, w.rowsInActive);
            Call(cfg, w, sh, choose) ==
            Moved(AbandonedWorker(w).(pc := Credit(w.rowsInActive)),
                  sh.(stats := sh.stats.(bufferedBytes := ApplyDelta(sh.stats.bufferedBytes, w.repBuffered, 0),
                                         activeBytes := ApplyDelta(sh.stats.activeBytes, w.repActive, 0),
                                         rowsFlushed := ApplyDelta(sh.stats.rowsFlushed, w.repFlushed, kept))))
  {
    var c := WorkerMove(cfg, w, sh, choose(w.pc));
    var d := WorkerMove(cfg, c.worker, c.shared, choose(c.worker.pc));
    var e := WorkerMove(cfg, d.worker, d.shared, choose(d.worker.pc));
    assert Call(cfg, w, sh, choose) == Call(cfg, c.worker, c.shared, choose);
    assert Call(cfg, c.worker, c.shared, choose) == Call(cfg, d.worker, d.shared, choose);
    assert Call(cfg, d.worker, d.shared, choose) == Call(cfg, e.worker, e.shared, choose) == e;
  }

  function CountedStats(stats: Stats, rows: nat): Stats {
    stats.(rows := stats.rows + rows)
  }

  function CountedWorker(w: Worker, rows: nat, m: Meter): Worker {
    w.(meter := m, rowsSeen := w.rowsSeen + rows, rowsInActive := w.rowsInActive + rows)
  }

  /** `write` on an open file, up to the size check. */
  function Written(cfg: Config, w: Worker, sh: Shared, m: Meter): Moved
    requires w.pc.Write?
  {
    var counted := CountedWorker(w, w.pc.batch, m);
    var full := cfg.cap.Some? && m.fileBytes >= cfg.cap.value;
    Moved(SyncedWorker(counted, m).(pc := if full then Close(false) else Recv),
          sh.(stats := Synced(counted, CountedStats(sh.stats, w.pc.batch), m)))
  }

  /** The steps of a write add up to that, and then to a close at the cap. */
  lemma WriteCall(cfg: Config, w: Worker, sh: Shared, choose: Pc -> Choice)
    requires w.pc.Write? && choose(w.pc).ok
    ensures var moved := Written(cfg, w, sh, choose(w.pc).meter);
            Call(cfg, w, sh, choose) == Call(cfg, moved.worker, moved.shared, choose)
  {
    var a := WorkerMove(cfg, w, sh, choose(w.pc));
    var b := WorkerMove(cfg, a.worker, a.shared, choose(a.worker.pc));
    var c := WorkerMove(cfg, b.worker, b.shared, choose(b.worker.pc));
    var d := WorkerMove(cfg, c.worker, c.shared, choose(c.worker.pc));
    var e := WorkerMove(cfg, d.worker, d.shared, choose(d.worker.pc));
    assert Call(cfg, w, sh, choose) == Call(cfg, a.worker, a.shared, choose);
    assert Call(cfg, a.worker, a.shared, choose) == Call(cfg, b.worker, b.shared, choose);
    assert Call(cfg, b.worker, b.shared, choose) == Call(cfg, c.worker, c.shared, choose);
    assert Call(cfg, c.worker, c.shared, choose) == Call(cfg, d.worker, d.shared, choose);
    assert Call(cfg, d.worker, d.shared, choose) == Call(cfg, e.worker, e.shared, choose);
  }

  /** A worker without the last report of the file writer. */
  function Forget(w: Worker): Worker {
    w.(meter := Meter(0, 0, 0))
  }

  /** The last report plays no part in a write: it is replaced or given up. */
  lemma WriteForgets(cfg: Config, w: Worker, v: Worker, sh: Shared, choose: Pc -> Choice)
    requires w.pc.Write? && Forget(w) == Forget(v)
    ensures Call(cfg, w, sh, choose).shared == Call(cfg, v, sh, choose).shared
    ensures Forget(Call(cfg, w, sh, choose).worker) == Forget(Call(cfg, v, sh, choose).worker)
  {
    if choose(w.pc).ok {
      WriteCall(cfg, w, sh, choose);
      WriteCall(cfg, v, sh, choose);
      assert CountedWorker(w, w.pc.batch, choose(w.pc).meter) == CountedWorker(v, w.pc.batch, choose(w.pc).meter);
    } else {
      FailedStep(cfg, w, sh, choose);
      FailedStep(cfg, v, sh, choose);
    }
  }

  /** A call that fails at once, at its open, its write or its close. */
  lemma FailedStep(cfg: Config, w: Worker, sh: Shared, choose: Pc -> Choice)
    requires w.pc.Open? || w.pc.Write? || (w.pc == Close(false) && w.hasFile)
    requires !choose(w.pc).ok
    ensures var moved := Call(cfg, w, sh, choose);
            && moved.worker == w.(pc := Fail, hasFile := w.hasFile && !w.pc.Close?)
            && moved.shared.stats == sh.stats
            && moved.shared.filesOpened == sh.filesOpened + if w.pc.Open? then 1 else 0
  {
    var moved := WorkerMove(cfg, w, sh, choose(w.pc));
    assert Call(cfg, w, sh, choose) == Call(cfg, moved.worker, moved.shared, choose) == moved;
  }

  /** A write that had to open its file goes on as one on an open file. */
  lemma OpenCall(cfg: Config, w: Worker, sh: Shared, choose: Pc -> Choice, v: Worker, th: Shared)
    requires w.pc.Open? && choose(w.pc).ok
    requires v.pc == Write(w.pc.batch) && Forget(v) == Forget(w.(pc := v.pc, hasFile := true, rowsInActive := 0))
    requires th == sh.(filesOpened := sh.filesOpened + 1)
    ensures Call(cfg, w, sh, choose).shared == Call(cfg, v, th, choose).shared
    ensures Forget(Call(cfg, w, sh, choose).worker) == Forget(Call(cfg, v, th, choose).worker)
  {
    var ready := w.(pc := v.pc, hasFile := true, rowsInActive := 0);
    assert WorkerMove(cfg, w, sh, choose(w.pc)) == Moved(ready, th);
    assert Call(cfg, w, sh, choose) == Call(cfg, ready, th, choose);
    WriteForgets(cfg, ready, v, th, choose);
  }

  lemma CountedIgnoresPc(w: Worker, rows: nat, m: Meter, stats: Stats, pc: Pc)
    ensures SyncedWorker(CountedWorker(w, rows, m), m).(pc := pc) ==
            SyncedWorker(CountedWorker(w.(pc := Recv), rows, m), m).(pc := pc)
    ensures Synced(CountedWorker(w, rows, m), stats, m) == Synced(CountedWorker(w.(pc := Recv), rows, m), stats, m)
  {
  }

  /** `WriteCall` for a worker found again at the queue. */
  lemma WriteCallTo(cfg: Config, w: Worker, sh: Shared, choose: Pc -> Choice, v: Worker, th: Shared)
    requires w.pc.Write? && choose(w.pc).ok
    requires var m := choose(w.pc).meter;
             var counted := CountedWorker(w.(pc := Recv), w.pc.batch, m);
             && v == SyncedWorker(counted, m)
             && th == sh.(stats := Synced(counted, CountedStats(sh.stats, w.pc.batch), m))
    ensures var full := cfg.cap.Some? && v.repActive >= cfg.cap.value;
            Call(cfg, w, sh, choose) == Call(cfg, v.(pc := if full then Close(false) else Recv), th, choose)
  {
    var m := choose(w.pc).meter;
    var full := cfg.cap.Some? && v.repActive >= cfg.cap.value;
    WriteCall(cfg, w, sh, choose);
    CountedIgnoresPc(w, w.pc.batch, m, CountedStats(sh.stats, w.pc.batch), if full then Close(false) else Recv);
  }
}
