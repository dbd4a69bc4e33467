/** The run as a step system (`main.rs` lines 180-305 and 588-676, `sink.rs`
    lines 147-394): generators, one bounded queue, upload workers that each own
    a sink, and the atomics they share. One step is at most one access to
    shared state, so every interleaving of the tasks is a sequence of steps. */
module Pipeline {
  import opened Wrappers
  import opened Numerals

  /** `quota` is the `--rows` budget; `limited` says a time or size limit may
      stop a generator; `status` that the status display is on. */
  datatype Config = Config(
    quota: Option<nat>, limited: bool, batchRows: nat, depth: nat, retries: nat, cap: Option<nat>, status: bool)

  predicate ConfigOk(cfg: Config) {
    cfg.batchRows >= 1 && cfg.depth >= 1
  }

  /** The atomics of `Stats`. Integers, so that a subtraction below zero shows. */
  datatype Stats = Stats(
    rowsGenerated: int, rows: int, rowsFlushed: int, bytesWritten: int, filesAbandoned: int,
    rowsLost: int, activeBytes: int, filesCompleted: int, bufferedBytes: int)

  const NO_STATS := Stats(0, 0, 0, 0, 0, 0, 0, 0, 0)

  // Generators

  datatype Gen =
    | Top                     // about to check the limits and reserve
    | Holding(rows: nat)      // reserved, building the batch
    | Sending(rows: nat)      // at `queue.send`
    | Counting(rows: nat)     // sent, about to add to `rows_generated`
    | Exhausted               // ended: nothing left to reserve
    | Stopped                 // ended: time or size limit
    | Broken                  // ended: a value failed, or every receiver is gone

  predicate GenLive(g: Gen) {
    !g.Exhausted? && !g.Stopped? && !g.Broken?
  }

  // Workers

  /** Where a worker stands. `last` marks the close that ends the worker. */
  datatype Pc =
    | Recv
    | Open(batch: nat)
    | Write(batch: nat)
    | CountRows(batch: nat)
    | SyncBuffered
    | SyncActive
    | SyncFlushed
    | Close(last: bool)
    | CloseBytes(last: bool, bytes: nat)
    | CloseFiles(last: bool)
    | CloseBuffered(last: bool)
    | CloseActive(last: bool)
    | CloseFlushed(last: bool)
    | Fail
    | AbandonFiles
    | AbandonLost
    | AbandonBuffered
    | AbandonActive
    | AbandonFlushed(lost: nat)
    | Credit(lost: nat)
    | Finished(clean: bool)
    | Failed

  /** What the file writer reports of the open file: bytes in memory, bytes
      handed to the store, rows not yet in a row group. */
  datatype Meter = Meter(buffered: nat, fileBytes: nat, pending: nat)

  /** A worker and its sink. `completed` (rows in completed files) and `given`
      (rows of abandoned files already credited) are history the source does
      not keep. */
  datatype Worker = Worker(
    pc: Pc, failures: nat, hasFile: bool, meter: Meter,
    rowsSeen: nat, rowsInActive: nat,
    repBuffered: nat, repActive: nat, repFlushed: nat,
    completed: nat, given: nat)

  predicate WorkerLive(w: Worker) {
    !w.pc.Finished? && !w.pc.Failed?
  }

  /** What workers share. `dropped` (rows of batches whose open or write failed)
      is history. */
  datatype Shared = Shared(stats: Stats, remaining: Option<nat>, filesOpened: nat, dropped: nat)

  /** What the outside decides in a step: whether an operation succeeds, what
      the writer then reports, how large a closed file is. */
  datatype Choice = Choice(ok: bool, meter: Meter, bytes: nat)

  /** A worker and the shared state after one of its steps. */
  datatype Moved = Moved(worker: Worker, shared: Shared)

  /** `apply_delta`: the gauge after a writer whose share was `reported` reports `current`. */
  function ApplyDelta(gauge: int, reported: nat, current: nat): int {
    if current >= reported then gauge + (current - reported) else gauge - (reported - current)
  }

  function SaturatingSub(a: nat, b: nat): nat {
    if a >= b then a - b else 0
  }

  function MoveBuffered(w: Worker, sh: Shared, current: nat, next: Pc): Moved {
    var stats := sh.stats.(bufferedBytes := ApplyDelta(sh.stats.bufferedBytes, w.repBuffered, current));
    Moved(w.(repBuffered := current, pc := next), sh.(stats := stats))
  }

  function MoveActive(w: Worker, sh: Shared, current: nat, next: Pc): Moved {
    var stats := sh.stats.(activeBytes := ApplyDelta(sh.stats.activeBytes, w.repActive, current));
    Moved(w.(repActive := current, pc := next), sh.(stats := stats))
  }

  function MoveFlushed(w: Worker, sh: Shared, current: nat, next: Pc): Moved {
    var stats := sh.stats.(rowsFlushed := ApplyDelta(sh.stats.rowsFlushed, w.repFlushed, current));
    Moved(w.(repFlushed := current, pc := next), sh.(stats := stats))
  }

  function AfterClose(last: bool): Pc {
    if last then Finished(true) else Recv
  }

  /** The step of a worker that is neither at the queue nor ended. */
  function WorkerMove(cfg: Config, w: Worker, sh: Shared, c: Choice): Moved
    requires WorkerLive(w) && !w.pc.Recv?
  {
    match w.pc
    case Open(batch) =>
      var opening := sh.(filesOpened := sh.filesOpened + 1);
      if c.ok then Moved(w.(pc := Write(batch), hasFile := true, rowsInActive := 0), opening)
      else Moved(w.(pc := Fail), opening.(dropped := sh.dropped + batch))
    case Write(batch) =>
      if c.ok then
        Moved(w.(pc := CountRows(batch), meter := c.meter, rowsSeen := w.rowsSeen + batch,
                 rowsInActive := w.rowsInActive + batch), sh)
      else Moved(w.(pc := Fail), sh.(dropped := sh.dropped + batch))
    case CountRows(batch) =>
      Moved(w.(pc := SyncBuffered), sh.(stats := sh.stats.(rows := sh.stats.rows + batch)))
    case SyncBuffered => MoveBuffered(w, sh, w.meter.buffered, SyncActive)
    case SyncActive => MoveActive(w, sh, w.meter.fileBytes, SyncFlushed)
    case SyncFlushed =>
      var rolls := cfg.cap.Some? && w.repActive >= cfg.cap.value;
      MoveFlushed(w, sh, SaturatingSub(w.rowsSeen, w.meter.pending), if rolls then Close(false) else Recv)
    case Close(last) =>
      if !w.hasFile then Moved(w.(pc := AfterClose(last)), sh)
      else if c.ok then Moved(w.(pc := CloseBytes(last, c.bytes), hasFile := false), sh)
      else if !last then Moved(w.(pc := Fail, hasFile := false), sh)
      else
        var pc := if w.failures + 1 > cfg.retries then Failed else Finished(false);
        Moved(w.(pc := pc, hasFile := false, failures := w.failures + 1), sh)
    case CloseBytes(last, bytes) =>
      Moved(w.(pc := CloseFiles(last)), sh.(stats := sh.stats.(bytesWritten := sh.stats.bytesWritten + bytes)))
    case CloseFiles(last) =>
      Moved(w.(pc := CloseBuffered(last), completed := w.completed + w.rowsInActive, rowsInActive := 0),
            sh.(stats := sh.stats.(filesCompleted := sh.stats.filesCompleted + 1)))
    case CloseBuffered(last) => MoveBuffered(w, sh, 0, CloseActive(last))
    case CloseActive(last) => MoveActive(w, sh, 0, CloseFlushed(last))
    case CloseFlushed(last) => MoveFlushed(w, sh, w.rowsSeen, AfterClose(last))
    case Fail =>
      if w.failures + 1 > cfg.retries then Moved(w.(pc := Failed, failures := w.failures + 1), sh)
      else Moved(w.(pc := AbandonFiles, failures := w.failures + 1, hasFile := false), sh)
    case AbandonFiles =>
      Moved(w.(pc := AbandonLost), sh.(stats := sh.stats.(filesAbandoned := sh.stats.filesAbandoned + 1)))
    case AbandonLost =>
      Moved(w.(pc := AbandonBuffered), sh.(stats := sh.stats.(rowsLost := sh.stats.rowsLost + w.rowsInActive)))
    case AbandonBuffered => MoveBuffered(w, sh, 0, AbandonActive)
    case AbandonActive =>
      var lost := w.rowsInActive;
      var moved := MoveActive(w, sh, 0, AbandonFlushed(lost));
      moved.(worker := moved.worker.(rowsSeen := SaturatingSub(w.rowsSeen, lost), rowsInActive := 0))
    case AbandonFlushed(lost) => MoveFlushed(w, sh, w.rowsSeen, Credit(lost))
    case Credit(lost) =>
      var remaining := if sh.remaining.Some? then Some(sh.remaining.value + lost) else None;
      Moved(w.(pc := Recv, given := w.given + lost), sh.(remaining := remaining))
  }

  // The whole run

  /** `reserved` (rows taken by `reserve_batch`) and `unsent` (rows a generator
      reserved and then gave up) are history. */
  datatype State = State(
    gens: seq<Gen>, queue: seq<nat>, workers: seq<Worker>, shared: Shared, reserved: nat, unsent: nat)

  const NEW_WORKER := Worker(Recv, 0, false, Meter(0, 0, 0), 0, 0, 0, 0, 0, 0, 0)

  predicate Init(cfg: Config, s: State) {
    && s.queue == [] && s.reserved == 0 && s.unsent == 0
    && s.shared == Shared(NO_STATS, cfg.quota, 0, 0)
    && (forall i | 0 <= i < |s.gens| :: s.gens[i] == Top)
    && forall i | 0 <= i < |s.workers| :: s.workers[i] == NEW_WORKER
  }

  predicate GensDone(s: State) {
    forall i | 0 <= i < |s.gens| :: !GenLive(s.gens[i])
  }

  predicate WorkersDone(s: State) {
    forall i | 0 <= i < |s.workers| :: !WorkerLive(s.workers[i])
  }

  /** The channel is open for sending: a worker still holds its receiver, or
      the status display, which runs until all other tasks ended, holds one. */
  predicate Receivers(cfg: Config, s: State) {
    cfg.status || !WorkersDone(s)
  }

  /** A generator's turn, a worker's turn, or a limit reached at a generator's top. */
  datatype Action = GenTurn(i: nat, ok: bool) | GenStop(i: nat) | WorkerTurn(i: nat, c: Choice)

  /** `reserve_batch`, as one atomic step. */
  function Take(cfg: Config, remaining: Option<nat>): nat {
    if remaining.Some? then Min(remaining.value, cfg.batchRows) else cfg.batchRows
  }

  function Reserve(cfg: Config, s: State, i: nat): State
    requires i < |s.gens|
  {
    var take := Take(cfg, s.shared.remaining);
    if take == 0 then s.(gens := s.gens[i := Exhausted]) else
      var remaining := if s.shared.remaining.Some? then Some(s.shared.remaining.value - take) else None;
      s.(gens := s.gens[i := Holding(take)], shared := s.shared.(remaining := remaining),
         reserved := s.reserved + take)
  }

  function GenMove(cfg: Config, s: State, i: nat, ok: bool): Option<State>
    requires i < |s.gens|
  {
    match s.gens[i]
    case Top => Some(Reserve(cfg, s, i))
    case Holding(rows) =>
      if ok then Some(s.(gens := s.gens[i := Sending(rows)]))
      else Some(s.(gens := s.gens[i := Broken], unsent := s.unsent + rows))
    case Sending(rows) =>
      if !Receivers(cfg, s) then Some(s.(gens := s.gens[i := Broken], unsent := s.unsent + rows))
      else if |s.queue| < cfg.depth then Some(s.(gens := s.gens[i := Counting(rows)], queue := s.queue + [rows]))
      else None
    case Counting(rows) =>
      var stats := s.shared.stats.(rowsGenerated := s.shared.stats.rowsGenerated + rows);
      Some(s.(gens := s.gens[i := Top], shared := s.shared.(stats := stats)))
    case _ => None
  }

  /** A worker at the queue takes the next batch, or ends when the queue is
      empty and every sender is gone. */
  function RecvMove(s: State, i: nat): Option<State>
    requires i < |s.workers| && s.workers[i].pc.Recv?
  {
    var w := s.workers[i];
    if s.queue != [] then
      var pc := if w.hasFile then Write(s.queue[0]) else Open(s.queue[0]);
      Some(s.(queue := s.queue[1..], workers := s.workers[i := w.(pc := pc)]))
    else if GensDone(s) then Some(s.(workers := s.workers[i := w.(pc := Close(true))]))
    else None
  }

  /** The file writer cannot hold back more rows than the file has. */
  predicate ChoiceOk(w: Worker, c: Choice) {
    w.pc.Write? ==> c.meter.pending <= w.rowsInActive + w.pc.batch
  }

  /** The state after an action, when the action can happen. */
  function Apply(cfg: Config, s: State, a: Action): Option<State> {
    match a
    case GenTurn(i, ok) => if i < |s.gens| then GenMove(cfg, s, i, ok) else None
    case GenStop(i) =>
      if i < |s.gens| && s.gens[i] == Top && cfg.limited then Some(s.(gens := s.gens[i := Stopped])) else None
    case WorkerTurn(i, c) =>
      if i >= |s.workers| || !WorkerLive(s.workers[i]) || !ChoiceOk(s.workers[i], c) then None
      else if s.workers[i].pc.Recv? then RecvMove(s, i)
      else
        var moved := WorkerMove(cfg, s.workers[i], s.shared, c);
        Some(s.(workers := s.workers[i := moved.worker], shared := moved.shared))
  }

  // Runs

  /** A run: states, each the result of the action between it and the one before. */
  predicate Run(cfg: Config, states: seq<State>, actions: seq<Action>) {
    && |states| == |actions| + 1
    && Init(cfg, states[0])
    && forall k | 0 <= k < |actions| :: Apply(cfg, states[k], actions[k]) == Some(states[k + 1])
  }
}
