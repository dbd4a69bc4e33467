/** What becomes of the files of a run, and of its batch folders. */
module FolderRuns {
  import opened Wrappers
  import opened Numerals
  import opened Pipeline
  import opened PipelineAccounting
  import PipelineTheorems
  import opened PipelineWitnesses
  import opened FileNames

  /** What became of every file opened so far, in the order of the opens, and
      the number of each worker's latest file. */
  datatype Ledger = Ledger(outcomes: seq<Outcome>, files: seq<nat>)

  function Settle(l: Ledger, i: nat, outcome: Outcome): Ledger {
    if i < |l.files| && l.files[i] < |l.outcomes| then l.(outcomes := l.outcomes[l.files[i] := outcome]) else l
  }

  /** The entry a worker's step makes: a file is opened or fails to, its write
      or its close fails, or it is counted complete. */
  function Enter(s: State, a: Action, l: Ledger): Ledger {
    if !a.WorkerTurn? || a.i >= |s.workers| || a.i >= |l.files| then l else
      var w := s.workers[a.i];
      match w.pc
      case Open(_) => Ledger(l.outcomes + [if a.c.ok then Unfinished else LostAtOpen], l.files[a.i := |l.outcomes|])
      case Write(_) => if a.c.ok then l else Settle(l, a.i, LostAtWrite)
      case Close(_) => if w.hasFile && !a.c.ok then Settle(l, a.i, LostAtClose) else l
      case CloseFiles(_) => Settle(l, a.i, Completed)
      case _ => l
  }

  function LedgerAt(states: seq<State>, actions: seq<Action>, k: nat): Ledger
    requires |states| == |actions| + 1 && k < |states|
  {
    if k == 0 then Ledger([], seq(|states[0].workers|, _ => 0))
    else Enter(states[k - 1], actions[k - 1], LedgerAt(states, actions, k - 1))
  }

  /** The worker has a file whose fate is open. */
  predicate HasOpenFile(w: Worker) {
    (w.hasFile && !w.pc.Fail? && !w.pc.Failed?) || w.pc.CloseBytes? || w.pc.CloseFiles?
  }

  /** Files whose fate is open are their workers' own, and no two share one. */
  predicate OwnFiles(ws: seq<Worker>, l: Ledger) {
    && |l.files| == |ws|
    && (forall i | 0 <= i < |ws| && HasOpenFile(ws[i]) ::
          l.files[i] < |l.outcomes| && l.outcomes[l.files[i]] == Unfinished)
    && (forall i, j | 0 <= i < j < |ws| && HasOpenFile(ws[i]) && HasOpenFile(ws[j]) :: l.files[i] != l.files[j])
  }

  /** Every file not settled is some worker's. */
  predicate AllOwned(ws: seq<Worker>, l: Ledger) {
    |l.files| == |ws| &&
    forall k | 0 <= k < |l.outcomes| && l.outcomes[k] == Unfinished ::
      exists i :: 0 <= i < |ws| && HasOpenFile(ws[i]) && l.files[i] == k
  }

  /** The ledger's figures are the run's counters. */
  predicate Tracks(s: State, l: Ledger) {
    && OwnFiles(s.workers, l) && AllOwned(s.workers, l)
    && |l.outcomes| == s.shared.filesOpened
    && CompletedOf(l.outcomes) == s.shared.stats.filesCompleted
  }

  // One step

  lemma {:induction false} CompletedOfAppend(outcomes: seq<Outcome>, o: Outcome)
    ensures CompletedOf(outcomes + [o]) == CompletedOf(outcomes) + if o.Completed? then 1 else 0
  {
    assert (outcomes + [o])[..|outcomes|] == outcomes;
  }

  lemma {:induction false} CompletedOfUpdate(outcomes: seq<Outcome>, k: nat, o: Outcome)
    requires k < |outcomes| && outcomes[k] == Unfinished
    ensures CompletedOf(outcomes[k := o]) == CompletedOf(outcomes) + if o.Completed? then 1 else 0
  {
    var last := |outcomes| - 1;
    var updated := outcomes[k := o];
    if k == last {
      assert updated[..last] == outcomes[..last];
    } else {
      CompletedOfUpdate(outcomes[..last], k, o);
      assert updated[..last] == outcomes[..last][k := o];
    }
  }

  /** A step that opens and settles nothing. */
  lemma SameFiles(ws: seq<Worker>, i: nat, v: Worker, l: Ledger)
    requires i < |ws| && OwnFiles(ws, l) && AllOwned(ws, l) && (HasOpenFile(v) <==> HasOpenFile(ws[i]))
    ensures OwnFiles(ws[i := v], l) && AllOwned(ws[i := v], l)
  {
    forall k | 0 <= k < |l.outcomes| && l.outcomes[k] == Unfinished
      ensures exists j :: 0 <= j < |ws| && HasOpenFile(ws[i := v][j]) && l.files[j] == k
    {
      var j :| 0 <= j < |ws| && HasOpenFile(ws[j]) && l.files[j] == k;
      assert HasOpenFile(ws[i := v][j]);
    }
  }

  /** A worker without a file opens one, or fails to. */
  lemma OpensFile(ws: seq<Worker>, i: nat, v: Worker, l: Ledger, outcome: Outcome)
    requires i < |ws| && OwnFiles(ws, l) && AllOwned(ws, l) && !HasOpenFile(ws[i])
    requires HasOpenFile(v) <==> outcome == Unfinished
    ensures var m := Ledger(l.outcomes + [outcome], l.files[i := |l.outcomes|]);
            OwnFiles(ws[i := v], m) && AllOwned(ws[i := v], m)
  {
    var m := Ledger(l.outcomes + [outcome], l.files[i := |l.outcomes|]);
    var us := ws[i := v];
    forall k | 0 <= k < |m.outcomes| && m.outcomes[k] == Unfinished
      ensures exists j :: 0 <= j < |us| && HasOpenFile(us[j]) && m.files[j] == k
    {
      if k == |l.outcomes| {
        assert HasOpenFile(us[i]) && m.files[i] == k;
      } else {
        var j :| 0 <= j < |ws| && HasOpenFile(ws[j]) && l.files[j] == k;
        assert HasOpenFile(us[j]) && m.files[j] == k;
      }
    }
  }

  /** A worker's file is settled. */
  lemma SettlesFile(ws: seq<Worker>, i: nat, v: Worker, l: Ledger, outcome: Outcome)
    requires i < |ws| && OwnFiles(ws, l) && AllOwned(ws, l) && HasOpenFile(ws[i]) && !HasOpenFile(v)
    requires outcome != Unfinished
    ensures OwnFiles(ws[i := v], Settle(l, i, outcome)) && AllOwned(ws[i := v], Settle(l, i, outcome))
  {
    var m := Settle(l, i, outcome);
    var us := ws[i := v];
    forall k | 0 <= k < |m.outcomes| && m.outcomes[k] == Unfinished
      ensures exists j :: 0 <= j < |us| && HasOpenFile(us[j]) && m.files[j] == k
    {
      var j :| 0 <= j < |ws| && HasOpenFile(ws[j]) && l.files[j] == k;
      assert HasOpenFile(us[j]) && m.files[j] == k;
    }
  }

  /** How a worker's step moves its file and the two counters. */
  datatype FileMove = Keeps | Opens(ok: bool) | Settles(outcome: Outcome)

  function MoveOf(w: Worker, c: Choice): FileMove {
    match w.pc
    case Open(_) => Opens(c.ok)
    case Write(_) => if c.ok then Keeps else Settles(LostAtWrite)
    case Close(_) => if w.hasFile && !c.ok then Settles(LostAtClose) else Keeps
    case CloseFiles(_) => Settles(Completed)
    case _ => Keeps
  }

  lemma WritingFile(cfg: Config, w: Worker, sh: Shared, c: Choice)
    requires WorkerOk(cfg, w) && (Writing(w.pc) || Closing(w.pc))
    ensures FileMoved(cfg, w, sh, c)
  {
  }

  lemma AbandonedFile(cfg: Config, w: Worker, sh: Shared, c: Choice)
    requires WorkerOk(cfg, w) && (w.pc.Fail? || Abandoning(w.pc))
    ensures FileMoved(cfg, w, sh, c)
  {
  }

  predicate FileMoved(cfg: Config, w: Worker, sh: Shared, c: Choice)
    requires WorkerLive(w) && !w.pc.Recv?
  {
    var v, th := WorkerMove(cfg, w, sh, c).worker, WorkerMove(cfg, w, sh, c).shared;
    match MoveOf(w, c)
    case Keeps =>
      && (HasOpenFile(v) <==> HasOpenFile(w))
      && th.filesOpened == sh.filesOpened && th.stats.filesCompleted == sh.stats.filesCompleted
    case Opens(ok) =>
      && !HasOpenFile(w) && (HasOpenFile(v) <==> ok)
      && th.filesOpened == sh.filesOpened + 1 && th.stats.filesCompleted == sh.stats.filesCompleted
    case Settles(outcome) =>
      && HasOpenFile(w) && !HasOpenFile(v) && outcome != Unfinished
      && th.filesOpened == sh.filesOpened
      && th.stats.filesCompleted == sh.stats.filesCompleted + if outcome.Completed? then 1 else 0
  }

  lemma WorkerTracks(cfg: Config, s: State, i: nat, c: Choice, t: State, l: Ledger)
    requires WorkersOk(cfg, s) && Tracks(s, l) && i < |s.workers| && WorkerLive(s.workers[i]) && !s.workers[i].pc.Recv?
    requires var moved := WorkerMove(cfg, s.workers[i], s.shared, c);
             t == s.(workers := s.workers[i := moved.worker], shared := moved.shared)
    ensures Tracks(t, Enter(s, WorkerTurn(i, c), l))
  {
    var w, v := s.workers[i], t.workers[i];
    assert WorkerOk(cfg, w);
    if Writing(w.pc) || Closing(w.pc) {
      WritingFile(cfg, w, s.shared, c);
    } else {
      AbandonedFile(cfg, w, s.shared, c);
    }
    match MoveOf(w, c)
    case Keeps => SameFiles(s.workers, i, v, l);
    case Opens(ok) =>
      var outcome := if ok then Unfinished else LostAtOpen;
      OpensFile(s.workers, i, v, l, outcome);
      CompletedOfAppend(l.outcomes, outcome);
    case Settles(outcome) =>
      SettlesFile(s.workers, i, v, l, outcome);
      CompletedOfUpdate(l.outcomes, l.files[i], outcome);
  }

  lemma RecvTracks(s: State, i: nat, t: State, l: Ledger)
    requires Tracks(s, l) && i < |s.workers| && s.workers[i].pc.Recv? && RecvMove(s, i) == Some(t)
    ensures Tracks(t, l)
  {
    SameFiles(s.workers, i, t.workers[i], l);
  }

  lemma StepTracks(cfg: Config, s: State, a: Action, t: State, l: Ledger)
    requires WorkersOk(cfg, s) && Tracks(s, l) && Apply(cfg, s, a) == Some(t)
    ensures Tracks(t, Enter(s, a, l))
  {
    if a.WorkerTurn? {
      if s.workers[a.i].pc.Recv? {
        RecvTracks(s, a.i, t, l);
      } else {
        WorkerTracks(cfg, s, a.i, a.c, t, l);
      }
    }
  }

  // Whole runs

  lemma StartTracks(cfg: Config, s: State, l: Ledger)
    requires Init(cfg, s) && l.outcomes == [] && |l.files| == |s.workers|
    ensures Tracks(s, l)
  {
    assert forall i | 0 <= i < |s.workers| :: !HasOpenFile(s.workers[i]);
  }

  lemma NextState(cfg: Config, states: seq<State>, actions: seq<Action>, k: nat)
    requires ConfigOk(cfg) && Run(cfg, states, actions) && 0 < k < |states|
    ensures WorkersOk(cfg, states[k - 1]) && Apply(cfg, states[k - 1], actions[k - 1]) == Some(states[k])
  {
    RunKeeps(cfg, states, actions, k - 1);
  }

  /** In every state of every run the ledger has an outcome for every file
      opened, as many completed ones as are counted, and no other unsettled
      ones than the workers' open files. */
  lemma {:induction false} RunTracks(cfg: Config, states: seq<State>, actions: seq<Action>, k: nat)
    requires ConfigOk(cfg) && Run(cfg, states, actions) && k < |states|
    ensures Tracks(states[k], LedgerAt(states, actions, k))
  {
    if k == 0 {
      StartTracks(cfg, states[0], LedgerAt(states, actions, 0));
    } else {
      RunTracks(cfg, states, actions, k - 1);
      NextState(cfg, states, actions, k);
      StepTracks(cfg, states[k - 1], actions[k - 1], states[k], LedgerAt(states, actions, k - 1));
    }
  }

  /** At any moment of a run a folder holds exactly the configured number of
      files if and only if all its keys were given out and every file they were
      given to was completed. */
  lemma FoldersOfRun(cfg: Config, states: seq<State>, actions: seq<Action>, k: nat, n: Naming, folder: nat)
    requires ConfigOk(cfg) && Run(cfg, states, actions) && k < |states| && n.perFolder > 0 && folder >= 1
    ensures var outcomes := LedgerAt(states, actions, k).outcomes;
            var first := (folder - 1) * n.perFolder;
            && |outcomes| == states[k].shared.filesOpened
            && (HeldIn(n, outcomes, folder) == n.perFolder <==>
                first + n.perFolder <= states[k].shared.filesOpened
                && forall j | first <= j < first + n.perFolder :: outcomes[j].Completed?)
  {
    RunTracks(cfg, states, actions, k);
    FolderIsFull(n, LedgerAt(states, actions, k).outcomes, folder);
  }

  predicate EveryFileCompleted(l: Ledger) {
    forall j | 0 <= j < |l.outcomes| :: l.outcomes[j].Completed?
  }

  /** The run's counters tell whether every file was completed; when they do,
      each folder holds exactly as many files as it was given keys. */
  lemma FoldersFullWhenCounted(cfg: Config, states: seq<State>, actions: seq<Action>, k: nat, n: Naming, folder: nat)
    requires ConfigOk(cfg) && Run(cfg, states, actions) && k < |states| && n.perFolder > 0 && folder >= 1
    ensures var l, shared := LedgerAt(states, actions, k), states[k].shared;
            && (shared.stats.filesCompleted == shared.filesOpened <==> EveryFileCompleted(l))
            && (shared.stats.filesCompleted == shared.filesOpened ==>
                  HeldIn(n, l.outcomes, folder) ==
                  Clamp(shared.filesOpened - (folder - 1) * n.perFolder, 0, n.perFolder))
  {
    var l := LedgerAt(states, actions, k);
    RunTracks(cfg, states, actions, k);
    AllCompleted(l.outcomes);
    HeldOfAssigned(n, l.outcomes, folder);
    FoldersFillInOrder(n, |l.outcomes|, folder);
  }

  /** A run that succeeds with its first folder short: the folder's only key
      went to a file that never opened. */
  lemma ShortFolderSucceeds(n: Naming) returns (p: Path, s: State)
    requires n.perFolder == 1
    ensures ConfigOk(SHORT) && Reaches(SHORT, p, s) && PipelineTheorems.Ended(s) && PipelineTheorems.AllFinished(s)
    ensures var outcomes := LedgerAt(p.states, p.actions, |p.actions|).outcomes;
            |outcomes| == 1 && InFolder(n, 1, 1) == 1 && HeldIn(n, outcomes, 1) == 0
  {
    p, s := ShortRunSucceeds();
    var l := LedgerAt(p.states, p.actions, |p.actions|);
    RunTracks(SHORT, p.states, p.actions, |p.actions|);
    HeldAtMost(n, l.outcomes, 1);
    FoldersFillInOrder(n, 1, 1);
  }
}
