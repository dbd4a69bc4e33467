/** `upload_worker`: the loop that drains the queue into one sink and decides
    what a failed upload costs. */
module Upload {
  import opened Pipeline
  import opened PipelineAccounting
  import opened RowGroups
  import opened SinkCalls
  import opened Sink

  /** A batch this worker gets from the queue, and what the store does with it. */
  datatype Delivery = Delivery(rows: nat, io: Io)

  function RowsOf(deliveries: seq<Delivery>): nat {
    if deliveries == [] then 0 else RowsOf(deliveries[..|deliveries| - 1]) + deliveries[|deliveries| - 1].rows
  }

  /** A sink between two calls, none of which failed without being abandoned. */
  ghost predicate Settled(sink: ParquetSink)
    reads sink
  {
    sink.Ready() && (sink.active.None? ==> Idle(sink.Own(Recv))) && FlushedOk(sink.Own(Recv))
  }

  /** What a write does to the writer's books: the batch is in its files, or
      dropped, and only a failure can drop it. */
  lemma WriteBooks(cfg: Config, w: Worker, sh: Shared, io: Io, file: OpenFile, rows: nat, limit: nat)
    requires limit >= 1 && Cut(file, limit) && WorkerOk(cfg, w) && sh.dropped == 0
    requires w.pc == Write(rows) || w.pc == Open(rows)
    requires w.rowsInActive == FileRows(file)
    ensures var moved := Call(cfg, w, sh, Choices(io, file, rows, limit));
            var v := moved.worker;
            && WorkerOk(cfg, v)
            && (v.pc.Recv? || v.pc.Fail? ==>
                  v.completed + v.rowsInActive + v.given + moved.shared.dropped ==
                  w.completed + w.rowsInActive + w.given + rows)
            && (v.pc.Recv? && w.failures == 0 ==> moved.shared.dropped == 0)
  {
    AddRowsCuts(file, rows, limit, io.encode);
    CallKeeps(cfg, w, sh, Choices(io, file, rows, limit));
  }

  /** One turn of the loop, up to the check of the result. */
  method Deliver(sink: ParquetSink, rows: nat, io: Io) returns (written: bool, ghost dropped: nat)
    requires Settled(sink)
    modifies sink, sink.stats
    ensures sink.Valid() && (written ==> Settled(sink) && dropped == 0)
    ensures sink.completed + sink.rowsInActive + dropped == old(sink.completed + sink.rowsInActive) + rows
  {
    ghost var file := if sink.active.Some? then sink.active.value.file else OpenFile(io.start, [], 0);
    ghost var was := sink.Own(if sink.active.Some? then Pc.Write(rows) else Pc.Open(rows));
    ghost var moved := Call(sink.config, was, sink.Around(), Choices(io, file, rows, sink.limit));
    WriteBooks(sink.config, was, sink.Around(), io, file, rows, sink.limit);
    written := sink.Write(rows, io);
    dropped := moved.shared.dropped;
  }

  /** Giving up the open file settles the sink again. */
  method GiveUp(sink: ParquetSink) returns (lost: nat)
    requires sink.Valid()
    modifies sink, sink.stats
    ensures Settled(sink) && lost == old(sink.rowsInActive)
    ensures sink.rowsInActive == 0 && sink.completed == old(sink.completed)
  {
    lost := sink.AbandonActive();
  }

  /** The loop. It ends with an error on the first failure beyond `retries`;
      otherwise it takes every delivery, and every row taken is in a completed
      file, credited back, dropped with the batch whose open or write failed, or
      in a last file that could not be closed. */
  method UploadWorker(sink: ParquetSink, queue: seq<Delivery>, last: Io, retries: nat)
    returns (ok: bool, taken: nat, failures: nat, credited: nat, ghost dropped: nat)
    requires Settled(sink) && sink.active.None? && sink.completed == 0
    modifies sink, sink.stats
    ensures taken <= |queue| && (ok ==> taken == |queue|)
    ensures ok <==> failures <= retries
    ensures RowsOf(queue[..taken]) == sink.completed + sink.rowsInActive + credited + dropped
    ensures failures == 0 ==> credited == 0 && dropped == 0 && sink.rowsInActive == 0
  {
    taken, failures, credited, dropped := 0, 0, 0, 0;
    while taken < |queue|
      invariant taken <= |queue| && failures <= retries && Settled(sink)
      invariant RowsOf(queue[..taken]) == sink.completed + sink.rowsInActive + credited + dropped
      invariant failures == 0 ==> credited == 0 && dropped == 0
    {
      assert queue[..taken + 1][..taken] == queue[..taken];
      ghost var more: nat;
      var written: bool;
      written, more := Deliver(sink, queue[taken].rows, queue[taken].io);
      taken := taken + 1;
      dropped := dropped + more;
      if !written {
        failures := failures + 1;
        if failures > retries {
          return false, taken, failures, credited, dropped;
        }
        var lost := GiveUp(sink);
        credited := credited + lost;
      }
    }
    ok := sink.Finish(last);
    if !ok {
      failures := failures + 1;
      ok := failures <= retries;
    }
  }
}
