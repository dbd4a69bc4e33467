/** `ParquetSink` as the class it is. Each call is proved to do exactly what the
    step system's worker does in that call when nothing runs in between. */
module Sink {
  import opened Wrappers
  import opened Pipeline
  import opened RowGroups
  import opened FileNames
  import opened SinkCalls

  /** `Stats`, and the shared count of opened files. */
  class SharedStats {
    var rowsGenerated: int
    var rows: int
    var rowsFlushed: int
    var bytesWritten: int
    var filesAbandoned: int
    var rowsLost: int
    var activeBytes: int
    var filesCompleted: int
    var bufferedBytes: int
    var fileCounter: nat

    function Snapshot(): Stats
      reads this
    {
      Stats(rowsGenerated, rows, rowsFlushed, bytesWritten, filesAbandoned,
            rowsLost, activeBytes, filesCompleted, bufferedBytes)
    }

    constructor ()
      ensures Snapshot() == NO_STATS && fileCounter == 0
    {
      rowsGenerated, rows, rowsFlushed := 0, 0, 0;
      bytesWritten, filesAbandoned, rowsLost := 0, 0, 0;
      activeBytes, filesCompleted, bufferedBytes := 0, 0, 0;
      fileCounter := 0;
    }
  }

  /** What the store and the file writer do in one call. */
  datatype Io = Io(openOk: bool, writeOk: bool, closeOk: bool,
                   start: nat, encode: nat -> nat, buffered: nat, tailBytes: nat)

  /** The open file, what the writer holds in memory for it, and its key. */
  datatype ActiveFile = ActiveFile(file: OpenFile, buffered: nat, path: string)

  function MeterOf(file: OpenFile, buffered: nat): Meter {
    Meter(buffered, FileBytes(file), file.tail)
  }

  /** The step system's choices in a call that writes to this file. */
  function Choices(io: Io, file: OpenFile, rows: nat, limit: nat): Pc -> Choice
    requires limit >= 1
  {
    var written := AddRows(file, rows, limit, io.encode);
    (pc: Pc) =>
      if pc.Open? then Choice(io.openOk, Meter(0, 0, 0), 0)
      else if pc.Write? then Choice(io.writeOk, MeterOf(written, io.buffered), 0)
      else Choice(io.closeOk, Meter(0, 0, 0), GroupBytes(ClosedGroups(written, io.tailBytes)))
  }

  class ParquetSink {
    const naming: Naming
    const writerId: nat
    const limit: nat
    const config: Config
    const stats: SharedStats
    var fileIndex: nat
    var active: Option<ActiveFile>
    var reportedBuffer: nat
    var reportedActive: nat
    var reportedFlushed: nat
    var rowsSeen: nat
    var rowsInActive: nat
    ghost var completed: nat

    constructor (naming: Naming, writerId: nat, limit: nat, config: Config, stats: SharedStats)
      requires limit >= 1
      ensures this.naming == naming && this.writerId == writerId && this.limit == limit
      ensures this.config == config && this.stats == stats
      ensures Valid() && Own(Recv) == NEW_WORKER && fileIndex == 0
    {
      this.naming, this.writerId, this.limit, this.config, this.stats := naming, writerId, limit, config, stats;
      fileIndex, active := 0, None;
      reportedBuffer, reportedActive, reportedFlushed, rowsSeen, rowsInActive := 0, 0, 0, 0, 0;
      completed := 0;
    }

    /** This sink as the step system's worker, standing at `pc`. */
    ghost function Own(pc: Pc): Worker
      reads this
    {
      var meter := if active.Some? then MeterOf(active.value.file, active.value.buffered) else Meter(0, 0, 0);
      Worker(pc, 0, active.Some?, meter, rowsSeen, rowsInActive, reportedBuffer, reportedActive, reportedFlushed,
             completed, 0)
    }

    ghost function Around(): Shared
      reads stats
    {
      Shared(stats.Snapshot(), None, stats.fileCounter, 0)
    }

    /** The file has the rows it is said to have, cut at the limit. */
    ghost predicate Valid()
      reads this
    {
      && limit >= 1
      && rowsSeen == completed + rowsInActive
      && (active.Some? ==> Cut(active.value.file, limit) && FileRows(active.value.file) == rowsInActive)
    }

    /** `next_path`. */
    method NextPath() returns (key: string)
      modifies this`fileIndex, stats`fileCounter
      ensures fileIndex == old(fileIndex) + 1 && stats.fileCounter == old(stats.fileCounter) + 1
      ensures key == Path(naming, old(stats.fileCounter), writerId, fileIndex)
    {
      fileIndex := fileIndex + 1;
      key := naming.prefix;
      if naming.runId != "" {
        key := key + naming.runId;
        key := key + "/";
      }
      var sequence := stats.fileCounter;
      stats.fileCounter := stats.fileCounter + 1;
      SplitPath(naming, sequence, writerId, fileIndex);
      if naming.perFolder > 0 {
        key := key + BatchFolder(naming, sequence);
      }
      key := key + FileName(writerId, fileIndex);
    }

    static lemma SplitPath(n: Naming, sequence: nat, writer: nat, index: nat)
      ensures Path(n, sequence, writer, index) == (RunFolder(n) + BatchFolder(n, sequence)) + FileName(writer, index)
      ensures n.runId == "" ==> RunFolder(n) == n.prefix
      ensures n.runId != "" ==> RunFolder(n) == (n.prefix + n.runId) + "/"
      ensures n.perFolder == 0 ==> RunFolder(n) + BatchFolder(n, sequence) == RunFolder(n)
    {
    }

    /** `open`: a key is used up whether or not the file opens. */
    method Open(io: Io) returns (ok: bool)
      requires Valid() && active.None?
      modifies this`fileIndex, this`active, this`rowsInActive, stats`fileCounter
      ensures ok == io.openOk
      ensures fileIndex == old(fileIndex) + 1 && stats.fileCounter == old(stats.fileCounter) + 1
      ensures ok ==> rowsInActive == 0 && active.Some?
                     && active.value.file == OpenFile(io.start, [], 0)
                     && active.value.path == Path(naming, old(stats.fileCounter), writerId, fileIndex)
      ensures !ok ==> active == None && rowsInActive == old(rowsInActive)
    {
      var path := NextPath();
      if !io.openOk {
        return false;
      }
      active := Some(ActiveFile(OpenFile(io.start, [], 0), 0, path));
      rowsInActive := 0;
      ok := true;
    }

    /** The three `apply_delta` calls by which this writer's shares are replaced. */
    method Report(buffered: nat, fileBytes: nat, flushed: nat)
      modifies this`reportedBuffer, this`reportedActive, this`reportedFlushed
      modifies stats`bufferedBytes, stats`activeBytes, stats`rowsFlushed
      ensures reportedBuffer == buffered && reportedActive == fileBytes && reportedFlushed == flushed
      ensures stats.bufferedBytes == ApplyDelta(old(stats.bufferedBytes), old(reportedBuffer), buffered)
      ensures stats.activeBytes == ApplyDelta(old(stats.activeBytes), old(reportedActive), fileBytes)
      ensures stats.rowsFlushed == ApplyDelta(old(stats.rowsFlushed), old(reportedFlushed), flushed)
    {
      stats.bufferedBytes := ApplyDelta(stats.bufferedBytes, reportedBuffer, buffered);
      reportedBuffer := buffered;
      stats.activeBytes := ApplyDelta(stats.activeBytes, reportedActive, fileBytes);
      reportedActive := fileBytes;
      stats.rowsFlushed := ApplyDelta(stats.rowsFlushed, reportedFlushed, flushed);
      reportedFlushed := flushed;
    }

    /** `sync_buffer_gauge` for an open file. */
    method SyncBufferGauge()
      requires active.Some?
      modifies this`reportedBuffer, this`reportedActive, this`reportedFlushed
      modifies stats`bufferedBytes, stats`activeBytes, stats`rowsFlushed
      ensures var m := MeterOf(active.value.file, active.value.buffered);
              && Own(Recv) == SyncedWorker(old(Own(Recv)), m)
              && stats.Snapshot() == Synced(old(Own(Recv)), old(stats.Snapshot()), m)
    {
      var m := MeterOf(active.value.file, active.value.buffered);
      Report(m.buffered, m.fileBytes, SaturatingSub(rowsSeen, m.pending));
    }

    /** `close_active`: a file that closes well has its bytes and rows counted;
        one that does not is gone, its rows still on this writer's books. */
    method CloseActive(io: Io) returns (ok: bool)
      requires Valid()
      modifies this`active, this`reportedBuffer, this`reportedActive, this`reportedFlushed, this`rowsInActive
      modifies this`completed, stats
      ensures Valid() && active == None && ok == (old(active).None? || io.closeOk)
      ensures old(active).Some? && ok ==>
                && Forget(Own(Recv)) == Forget(ClosedWorker(old(Own(Recv))))
                && stats.Snapshot() == ClosedStats(old(Own(Recv)), old(stats.Snapshot()),
                                                   GroupBytes(ClosedGroups(old(active).value.file, io.tailBytes)))
      ensures old(active).None? || !ok ==>
                && Forget(Own(Recv)) == Forget(old(Own(Recv)).(hasFile := false))
                && stats.Snapshot() == old(stats.Snapshot())
      ensures stats.fileCounter == old(stats.fileCounter)
    {
      if active.None? {
        return true;
      }
      var file := active.value.file;
      active := None;
      if !io.closeOk {
        return false;
      }
      var bytes := SumBytes(ClosedGroups(file, io.tailBytes));
      stats.bytesWritten := stats.bytesWritten + bytes;
      stats.filesCompleted := stats.filesCompleted + 1;
      completed := completed + rowsInActive;
      rowsInActive := 0;
      Report(0, 0, rowsSeen);
      ok := true;
    }

    static method SumBytes(groups: seq<Group>) returns (bytes: nat)
      ensures bytes == GroupBytes(groups)
    {
      bytes := 0;
      for i := 0 to |groups|
        invariant bytes == GroupBytes(groups[..i])
      {
        assert groups[..i + 1][..i] == groups[..i];
        bytes := bytes + groups[i].bytes;
      }
      assert groups[..|groups|] == groups;
    }

    /** `abandon_active`. */
    method AbandonActive() returns (lost: nat)
      requires Valid()
      modifies this`active, this`reportedBuffer, this`reportedActive, this`reportedFlushed, this`rowsInActive
      modifies this`rowsSeen, stats
      ensures Valid() && active == None && lost == old(rowsInActive)
      ensures Forget(Own(Recv)) == Forget(AbandonedWorker(old(Own(Recv))).(hasFile := false))
      ensures stats.Snapshot() == AbandonedStats(old(Own(Recv)), old(stats.Snapshot()))
      ensures stats.fileCounter == old(stats.fileCounter)
    {
      lost := rowsInActive;
      active := None;
      stats.filesAbandoned := stats.filesAbandoned + 1;
      stats.rowsLost := stats.rowsLost + lost;
      rowsSeen := SaturatingSub(rowsSeen, lost);
      rowsInActive := 0;
      Report(0, 0, rowsSeen);
    }

    /** A failed call is followed by `abandon_active` before the next one. */
    ghost predicate Ready()
      reads this
    {
      Valid() && (active.None? ==> rowsInActive == 0)
    }

    /** The state after a call is the one the step system's worker reaches. */
    ghost predicate After(moved: Moved)
      reads this, stats
    {
      && Forget(Own(moved.worker.pc)) == Forget(moved.worker)
      && stats.Snapshot() == moved.shared.stats && stats.fileCounter == moved.shared.filesOpened
    }

    ghost predicate BelowCap()
      reads this
    {
      active.Some? && config.cap.Some? ==> FileBytes(active.value.file) < config.cap.value
    }

    /** `write` once a file is open and the writer has taken the batch, up to
        the size check. */
    method CountBatch(rows: nat, io: Io)
      requires Valid() && active.Some?
      modifies this`active, this`reportedBuffer, this`reportedActive, this`reportedFlushed
      modifies this`rowsInActive, this`rowsSeen
      modifies stats`rows, stats`bufferedBytes, stats`activeBytes, stats`rowsFlushed
      ensures Valid() && active.Some? && active.value.buffered == io.buffered
      ensures active.value.file == AddRows(old(active).value.file, rows, limit, io.encode)
      ensures var m := MeterOf(active.value.file, io.buffered);
              var counted := CountedWorker(old(Own(Recv)), rows, m);
              && Own(Recv) == SyncedWorker(counted, m)
              && stats.Snapshot() == Synced(counted, CountedStats(old(stats.Snapshot()), rows), m)
    {
      AddRowsCuts(active.value.file, rows, limit, io.encode);
      var file := WriteRows(active.value.file, rows, limit, io.encode);
      active := Some(active.value.(file := file, buffered := io.buffered));
      rowsSeen := rowsSeen + rows;
      rowsInActive := rowsInActive + rows;
      stats.rows := stats.rows + rows;
      SyncBufferGauge();
    }

    /** The close inside `write`, at the size cap. */
    method Roll(io: Io, ghost choose: Pc -> Choice) returns (ok: bool)
      requires Valid() && active.Some? && choose(Close(false)).ok == io.closeOk
      requires choose(Close(false)).bytes == GroupBytes(ClosedGroups(active.value.file, io.tailBytes))
      modifies this`active, this`reportedBuffer, this`reportedActive, this`reportedFlushed, this`rowsInActive
      modifies this`completed, stats
      ensures Valid() && active.None? && (ok ==> Ready())
      ensures var moved := Call(config, old(Own(Close(false))), old(Around()), choose);
              After(moved) && moved.worker.pc == if ok then Recv else Fail
    {
      ghost var rolling, synced := Own(Close(false)), Around();
      ok := CloseActive(io);
      if ok {
        CloseCall(config, rolling, synced, choose);
      } else {
        FailedStep(config, rolling, synced, choose);
      }
    }

    /** `write` once a file is open. */
    method WriteOpen(rows: nat, io: Io) returns (ok: bool)
      requires Valid() && active.Some?
      modifies this`active, this`reportedBuffer, this`reportedActive, this`reportedFlushed
      modifies this`rowsInActive, this`rowsSeen, this`completed, stats
      ensures Valid() && (ok ==> Ready() && BelowCap())
      ensures var moved := Call(config, old(Own(Pc.Write(rows))), old(Around()),
                                Choices(io, old(active).value.file, rows, limit));
              After(moved) && moved.worker.pc == if ok then Recv else Fail
    {
      ghost var was, around, file := Own(Pc.Write(rows)), Around(), active.value.file;
      ghost var choose := Choices(io, file, rows, limit);
      if !io.writeOk {
        FailedStep(config, was, around, choose);
        return false;
      }
      CountBatch(rows, io);
      WriteCallTo(config, was, around, choose, Own(Recv), Around());
      ok := true;
      if config.cap.Some? && reportedActive >= config.cap.value {
        ok := Roll(io, choose);
      }
    }

    /** `write`. */
    method Write(rows: nat, io: Io) returns (ok: bool)
      requires Ready()
      modifies this`fileIndex, this`active, this`reportedBuffer, this`reportedActive, this`reportedFlushed
      modifies this`rowsInActive, this`rowsSeen, this`completed, stats
      ensures Valid() && (ok ==> Ready() && BelowCap())
      ensures var target := if old(active).Some? then old(active).value.file else OpenFile(io.start, [], 0);
              var pc := if old(active).Some? then Pc.Write(rows) else Pc.Open(rows);
              var moved := Call(config, old(Own(pc)), old(Around()), Choices(io, target, rows, limit));
              After(moved) && moved.worker.pc == if ok then Recv else Fail
    {
      if active.None? {
        ghost var was, around := Own(Pc.Open(rows)), Around();
        ghost var choose := Choices(io, OpenFile(io.start, [], 0), rows, limit);
        ok := Open(io);
        if !ok {
          FailedStep(config, was, around, choose);
          return;
        }
        OpenCall(config, was, around, choose, Own(Pc.Write(rows)), Around());
      }
      ok := WriteOpen(rows, io);
    }

    /** `finish`. */
    method Finish(io: Io) returns (ok: bool)
      requires Ready()
      modifies this`active, this`reportedBuffer, this`reportedActive, this`reportedFlushed, this`rowsInActive
      modifies this`completed, stats
      ensures Valid() && active == None && ok == (old(active).None? || io.closeOk)
      ensures rowsSeen == old(rowsSeen) && (ok ==> rowsInActive == 0)
      ensures old(active).Some? && ok ==>
                stats.Snapshot() == ClosedStats(old(Own(Recv)), old(stats.Snapshot()),
                                                GroupBytes(ClosedGroups(old(active).value.file, io.tailBytes)))
      ensures old(active).None? || !ok ==> stats.Snapshot() == old(stats.Snapshot())
    {
      ok := CloseActive(io);
    }
  }
}
