/**
The node's command dispatcher under concurrency: looking glass commands share a semaphore that never
queues, deployments and removals share a mutex that does. Workers interleave between any two
file-system operations.
*/
module NodeServer {
  import opened Text
  import opened PeerNames
  import opened Placeholder
  import opened Runner
  import opened FileSteps

  type WorkerId = nat

  datatype Worker =
    | Limited(token: bool)
    | Answered(busy: bool)
    | Queued(edit: Edit)
    | Editing
    | Edited(result: EditResult)

  datatype Lock = Free | Held(worker: WorkerId, edit: Edit, temporary: string, done: nat)

  // `finished` lists the edits in the order they held the lock.
  datatype Server = Server(host: Host, cap: int, tokens: nat, workers: map<WorkerId, Worker>, lock: Lock,
                           files: Files, finished: seq<(WorkerId, Edit)>)

  datatype Event =
    | Limit(worker: WorkerId)
    | Finish(worker: WorkerId)
    | Submit(worker: WorkerId, edit: Edit)
    | Acquire(worker: WorkerId, temporary: string)
    | Advance
    | Release

  function Start(host: Host, cap: int, files: Files): Server {
    Server(host, cap, 0, map[], Free, files, [])
  }

  ghost predicate Enabled(s: Server, e: Event) {
    match e
    case Limit(w) => w !in s.workers
    case Finish(w) => w in s.workers && s.workers[w].Limited?
    case Submit(w, _) => w !in s.workers
    case Acquire(w, temporary) => s.lock.Free? && w in s.workers && s.workers[w].Queued? && FreshTemporary(s.files, temporary)
    case Advance => s.lock.Held? && s.lock.done < |EditOps(s.host, s.lock.edit, s.lock.temporary)|
    case Release => s.lock.Held? && s.lock.done == |EditOps(s.host, s.lock.edit, s.lock.temporary)| && s.lock.worker in s.workers
  }

  ghost function Step(s: Server, e: Event): Server
    requires Enabled(s, e)
  {
    match e
    case Limit(w) =>
      if s.cap <= 0 then s.(workers := s.workers[w := Limited(false)])
      else if s.tokens < s.cap then s.(tokens := s.tokens + 1, workers := s.workers[w := Limited(true)])
      else s.(workers := s.workers[w := Answered(true)])
    case Finish(w) =>
      s.(tokens := if s.workers[w].token && s.tokens > 0 then s.tokens - 1 else s.tokens, workers := s.workers[w := Answered(false)])
    case Submit(w, edit) => s.(workers := s.workers[w := Queued(edit)])
    case Acquire(w, temporary) =>
      s.(lock := Held(w, s.workers[w].edit, temporary, 0), workers := s.workers[w := Editing])
    case Advance =>
      var op := EditOps(s.host, s.lock.edit, s.lock.temporary)[s.lock.done];
      s.(files := ApplyOp(s.files, op), lock := s.lock.(done := s.lock.done + 1))
    case Release =>
      var result := EditFiles(s.host, s.files, s.lock.edit).1;
      s.(lock := Free, workers := s.workers[s.lock.worker := Edited(result)],
         finished := s.finished + [(s.lock.worker, s.lock.edit)])
  }

  // ----- the semaphore -----

  function Holders(s: Server): set<WorkerId> {
    set w | w in s.workers && s.workers[w] == Limited(true)
  }

  ghost predicate TokensExact(s: Server) {
    && s.tokens == |Holders(s)|
    && (s.cap > 0 ==> s.tokens <= s.cap && forall w :: w in s.workers && s.workers[w].Limited? ==> s.workers[w].token)
    && (s.cap <= 0 ==> s.tokens == 0)
  }

  // One worker's entry changes; the holders change with it.
  lemma HoldersUpdate(s: Server, s': Server, w: WorkerId, worker: Worker)
    requires s'.workers == s.workers[w := worker]
    ensures Holders(s') == if worker == Limited(true) then Holders(s) + {w} else Holders(s) - {w}
  {
  }

  // A worker that neither takes nor holds a token changes its entry.
  lemma TokensKept(s: Server, s': Server, w: WorkerId, worker: Worker)
    requires TokensExact(s) && s'.workers == s.workers[w := worker] && s'.tokens == s.tokens && s'.cap == s.cap
    requires worker.Limited? ==> !worker.token && s.cap <= 0
    requires w in s.workers ==> !s.workers[w].Limited?
    ensures TokensExact(s')
  {
    HoldersUpdate(s, s', w, worker);
    assert w !in Holders(s);
  }

  lemma LimitKeepsTokens(s: Server, w: WorkerId)
    requires TokensExact(s) && w !in s.workers
    ensures TokensExact(Step(s, Limit(w)))
  {
    var s' := Step(s, Limit(w));
    if s'.tokens == s.tokens {
      TokensKept(s, s', w, s'.workers[w]);
    } else {
      HoldersUpdate(s, s', w, Limited(true));
      assert w !in Holders(s);
    }
  }

  lemma FinishKeepsTokens(s: Server, w: WorkerId)
    requires TokensExact(s) && w in s.workers && s.workers[w].Limited?
    ensures TokensExact(Step(s, Finish(w)))
  {
    var s' := Step(s, Finish(w));
    HoldersUpdate(s, s', w, Answered(false));
    if s.workers[w].token {
      assert w in Holders(s);
    }
  }

  lemma TokensStep(s: Server, e: Event)
    requires TokensExact(s) && WorkersExact(s) && Enabled(s, e)
    ensures TokensExact(Step(s, e))
  {
    hide EditOps, EditFiles, FreshTemporary, ApplyOp;
    match e
    case Limit(w) => LimitKeepsTokens(s, w);
    case Finish(w) => FinishKeepsTokens(s, w);
    case Submit(w, edit) =>
      hide WorkersExact, TokensExact;
      TokensKept(s, Step(s, e), w, Queued(edit));
    case Acquire(w, _) =>
      hide WorkersExact, TokensExact;
      TokensKept(s, Step(s, e), w, Editing);
    case Advance =>
      hide WorkersExact;
      assert Holders(Step(s, e)) == Holders(s);
    case Release =>
      assert s.workers[s.lock.worker].Editing?;
      hide WorkersExact, TokensExact;
      TokensKept(s, Step(s, e), s.lock.worker, Step(s, e).workers[s.lock.worker]);
  }

  // ----- the mutex and the files -----

  // The edits of a history, carried out one after the other.
  ghost function Replay(host: Host, files: Files, history: seq<(WorkerId, Edit)>): Files {
    if history == [] then files
    else EditFiles(host, Replay(host, files, history[..|history| - 1]), history[|history| - 1].1).0
  }

  // The file map is the replayed history, plus what the lock holder has done so far.
  ghost predicate FilesSerial(s: Server, initial: Files) {
    var base := Replay(s.host, initial, s.finished);
    match s.lock
    case Free => s.files == base
    case Held(_, edit, temporary, done) =>
      && FreshTemporary(base, temporary)
      && done <= |EditOps(s.host, edit, temporary)|
      && s.files == ApplyAll(base, EditOps(s.host, edit, temporary)[..done])
  }

  // Who is editing, and who has finished.
  ghost predicate WorkersExact(s: Server) {
    && (forall w :: w in s.workers && s.workers[w].Editing? <==> s.lock.Held? && s.lock.worker == w)
    && (forall i :: 0 <= i < |s.finished| ==> s.finished[i].0 in s.workers && s.workers[s.finished[i].0].Edited?)
    && (forall i, j :: 0 <= i < j < |s.finished| ==> s.finished[i].0 != s.finished[j].0)
    && (forall w :: w in s.workers && s.workers[w].Edited? ==> exists i :: 0 <= i < |s.finished| && s.finished[i].0 == w)
  }

  lemma AcquireKeepsFiles(s: Server, w: WorkerId, temporary: string, initial: Files)
    requires FilesSerial(s, initial) && Enabled(s, Acquire(w, temporary))
    ensures FilesSerial(Step(s, Acquire(w, temporary)), initial)
  {
    hide EditOps, EditFiles, FreshTemporary, ApplyAll, Replay;
    StartsUnchanged(Replay(s.host, initial, s.finished), EditOps(s.host, s.workers[w].edit, temporary));
  }

  lemma AdvanceKeepsFiles(s: Server, initial: Files)
    requires FilesSerial(s, initial) && Enabled(s, Advance)
    ensures FilesSerial(Step(s, Advance), initial)
  {
    hide EditOps, EditFiles, FreshTemporary, ApplyOp, ApplyAll, Replay;
    ApplyNext(Replay(s.host, initial, s.finished), EditOps(s.host, s.lock.edit, s.lock.temporary), s.lock.done);
  }

  lemma ReleaseKeepsFiles(s: Server, initial: Files)
    requires FilesSerial(s, initial) && Enabled(s, Release) && SeparateDirs(s.host)
    ensures FilesSerial(Step(s, Release), initial)
  {
    var ops := EditOps(s.host, s.lock.edit, s.lock.temporary);
    var base := Replay(s.host, initial, s.finished);
    ReplayNext(s.host, initial, s.finished, (s.lock.worker, s.lock.edit));
    hide EditOps, EditFiles, FreshTemporary, ApplyOp, ApplyAll, Replay, SeparateDirs, OldOrNew;
    assert ops[..|ops|] == ops;
    EditProgress(s.host, base, s.lock.edit, s.lock.temporary, 0);
  }

  lemma ReplayNext(host: Host, files: Files, history: seq<(WorkerId, Edit)>, next: (WorkerId, Edit))
    ensures Replay(host, files, history + [next]) == EditFiles(host, Replay(host, files, history), next.1).0
  {
    assert (history + [next])[..|history|] == history;
  }

  lemma FilesStep(s: Server, e: Event, initial: Files)
    requires FilesSerial(s, initial) && Enabled(s, e) && SeparateDirs(s.host)
    ensures FilesSerial(Step(s, e), initial)
  {
    hide EditOps, EditFiles, FreshTemporary, ApplyOp, ApplyAll, Replay, SeparateDirs;
    match e
    case Acquire(w, temporary) => AcquireKeepsFiles(s, w, temporary, initial);
    case Advance => AdvanceKeepsFiles(s, initial);
    case Release => ReleaseKeepsFiles(s, initial);
    case _ =>
  }

  lemma StartsUnchanged(files: Files, ops: seq<Op>)
    ensures ApplyAll(files, ops[..0]) == files
  {
  }

  lemma ReleaseKeepsWorkers(s: Server)
    requires WorkersExact(s) && Enabled(s, Release)
    ensures WorkersExact(Step(s, Release))
  {
    hide EditOps, EditFiles;
    var s', n := Step(s, Release), |s.finished|;
    assert s'.finished[n].0 == s.lock.worker && s.workers[s.lock.worker].Editing?;
    assert forall i :: 0 <= i < n ==> s'.finished[i] == s.finished[i];
    forall w | w in s'.workers && s'.workers[w].Edited?
      ensures exists i :: 0 <= i < |s'.finished| && s'.finished[i].0 == w
    {
      if w != s.lock.worker {
        var i :| 0 <= i < |s.finished| && s.finished[i].0 == w;
        assert s'.finished[i].0 == w;
      }
    }
  }

  lemma WorkersStep(s: Server, e: Event)
    requires WorkersExact(s) && Enabled(s, e)
    ensures WorkersExact(Step(s, e))
  {
    hide EditOps, EditFiles, FreshTemporary, ApplyOp;
    if e.Release? {
      ReleaseKeepsWorkers(s);
    } else {
      assert Step(s, e).finished == s.finished;
    }
  }

  // ----- executions -----

  datatype Execution = Blocked | At(server: Server)

  // Where a run ends, unless one of its events was not enabled.
  ghost function Exec(s: Server, events: seq<Event>): Execution {
    if events == [] then At(s)
    else
      match Exec(s, events[..|events| - 1])
      case Blocked => Blocked
      case At(before) =>
        if Enabled(before, events[|events| - 1]) then At(Step(before, events[|events| - 1])) else Blocked
  }

  // ----- who submitted what -----

  // Every edit in the server was submitted, and every finished worker has the result of its own.
  ghost predicate HistoryExact(s: Server, initial: Files, events: seq<Event>) {
    && (forall w :: w in s.workers && s.workers[w].Queued? ==> Submit(w, s.workers[w].edit) in events)
    && (s.lock.Held? ==> Submit(s.lock.worker, s.lock.edit) in events)
    && (forall i :: 0 <= i < |s.finished| ==> FinishedExact(s, initial, events, i))
  }

  ghost predicate FinishedExact(s: Server, initial: Files, events: seq<Event>, i: nat)
    requires i < |s.finished|
  {
    var (w, edit) := s.finished[i];
    && Submit(w, edit) in events
    && w in s.workers && s.workers[w] == Edited(EditFiles(s.host, Replay(s.host, initial, s.finished[..i]), edit).1)
  }

  // What an edit answers does not depend on the files it finds.
  lemma ResultIndependent(host: Host, files: Files, other: Files, edit: Edit)
    ensures EditFiles(host, files, edit).1 == EditFiles(host, other, edit).1
  {
    hide TrimSpace, ValidDeploy, RenderWireGuardConfig, SafeName, FilePath;
  }

  lemma OldFinished(s: Server, e: Event, initial: Files, events: seq<Event>, i: nat)
    requires WorkersExact(s) && Enabled(s, e) && i < |s.finished| && FinishedExact(s, initial, events, i)
    ensures i < |Step(s, e).finished| && FinishedExact(Step(s, e), initial, events + [e], i)
  {
    hide EditOps, EditFiles, ApplyOp, Replay, FreshTemporary;
    var s' := Step(s, e);
    assert s'.finished[i] == s.finished[i] && s'.finished[..i] == s.finished[..i];
    assert s'.workers[s.finished[i].0] == s.workers[s.finished[i].0];
  }

  lemma NewFinished(s: Server, initial: Files, events: seq<Event>)
    requires Enabled(s, Release) && Submit(s.lock.worker, s.lock.edit) in events
    ensures |Step(s, Release).finished| == |s.finished| + 1
    ensures FinishedExact(Step(s, Release), initial, events + [Release], |s.finished|)
  {
    hide EditOps, EditFiles, Replay;
    var s' := Step(s, Release);
    assert s'.finished[..|s.finished|] == s.finished;
    ResultIndependent(s.host, s.files, Replay(s.host, initial, s.finished), s.lock.edit);
  }

  lemma HistoryStep(s: Server, e: Event, initial: Files, events: seq<Event>)
    requires HistoryExact(s, initial, events) && WorkersExact(s) && Enabled(s, e)
    ensures HistoryExact(Step(s, e), initial, events + [e])
  {
    hide EditOps, EditFiles, ApplyOp, Replay, FreshTemporary, FinishedExact;
    var s' := Step(s, e);
    if e.Release? {
      NewFinished(s, initial, events);
    }
    forall i | 0 <= i < |s'.finished|
      ensures FinishedExact(s', initial, events + [e], i)
    {
      if i < |s.finished| {
        OldFinished(s, e, initial, events, i);
      }
    }
    hide WorkersExact;
  }

  // ----- whole runs -----

  ghost predicate Good(s: Server, host: Host, cap: int) {
    s.host == host && s.cap == cap && TokensExact(s) && WorkersExact(s)
  }

  lemma StepIsGood(s: Server, e: Event, host: Host, cap: int)
    requires Good(s, host, cap) && Enabled(s, e)
    ensures Good(Step(s, e), host, cap)
  {
    TokensStep(s, e);
    WorkersStep(s, e);
    hide TokensExact, WorkersExact, Enabled, EditOps, EditFiles, ApplyOp;
  }

  lemma {:induction false} RunIsGood(events: seq<Event>, host: Host, cap: int, initial: Files)
    requires Exec(Start(host, cap, initial), events).At?
    ensures Good(Exec(Start(host, cap, initial), events).server, host, cap)
  {
    if events == [] {
      StartIsGood(host, cap, initial);
    } else {
      var n := |events| - 1;
      RunIsGood(events[..n], host, cap, initial);
      hide Enabled, Step, Good;
      StepIsGood(Exec(Start(host, cap, initial), events[..n]).server, events[n], host, cap);
    }
  }

  lemma {:induction false} RunKeepsHistory(events: seq<Event>, host: Host, cap: int, initial: Files)
    requires Exec(Start(host, cap, initial), events).At?
    ensures HistoryExact(Exec(Start(host, cap, initial), events).server, initial, events)
  {
    if events == [] {
      StartIsGood(host, cap, initial);
    } else {
      var n := |events| - 1;
      RunKeepsHistory(events[..n], host, cap, initial);
      RunIsGood(events[..n], host, cap, initial);
      assert events == events[..n] + [events[n]];
      hide Enabled, Step, HistoryExact, WorkersExact, TokensExact;
      HistoryStep(Exec(Start(host, cap, initial), events[..n]).server, events[n], initial, events[..n]);
    }
  }

  lemma StartIsGood(host: Host, cap: int, initial: Files)
    ensures Good(Start(host, cap, initial), host, cap) && HistoryExact(Start(host, cap, initial), initial, [])
    ensures FilesSerial(Start(host, cap, initial), initial)
  {
    assert Holders(Start(host, cap, initial)) == {};
  }

  lemma {:induction false} RunKeepsFiles(events: seq<Event>, host: Host, cap: int, initial: Files)
    requires Exec(Start(host, cap, initial), events).At? && SeparateDirs(host)
    ensures FilesSerial(Exec(Start(host, cap, initial), events).server, initial)
  {
    if events == [] {
      StartIsGood(host, cap, initial);
    } else {
      var n := |events| - 1;
      RunKeepsFiles(events[..n], host, cap, initial);
      RunIsGood(events[..n], host, cap, initial);
      hide Enabled, Step, FilesSerial, WorkersExact, TokensExact, HistoryExact, SeparateDirs;
      FilesStep(Exec(Start(host, cap, initial), events[..n]).server, events[n], initial);
    }
  }

  // In every interleaving the tokens count the commands in flight and stay within a positive cap,
  // and a command is turned away exactly when the cap is positive and used up.
  lemma SemaphoreIsExact(events: seq<Event>, host: Host, cap: int, initial: Files, s: Server, w: WorkerId)
    requires Exec(Start(host, cap, initial), events) == At(s) && Enabled(s, Limit(w))
    ensures s.tokens == |Holders(s)| && (cap > 0 ==> |Holders(s)| <= cap)
    ensures Step(s, Limit(w)).workers[w] == Answered(true) <==> cap > 0 && |Holders(s)| == cap
  {
    RunIsGood(events, host, cap, initial);
    hide Exec, WorkersExact, HistoryExact;
  }

  // Whenever no edit is under way, the files are those of carrying out the finished edits one at a
  // time, in the order they held the lock. Those edits are the ones submitted, each by the worker
  // that finished it and once, and each worker's answer is that of its own edit.
  lemma EditsAreSerial(events: seq<Event>, host: Host, cap: int, initial: Files, s: Server)
    requires Exec(Start(host, cap, initial), events) == At(s) && SeparateDirs(host)
    ensures s.lock.Free? ==> s.files == Replay(host, initial, s.finished)
    ensures WorkersExact(s)
    ensures forall i :: 0 <= i < |s.finished| ==> FinishedExact(s, initial, events, i)
  {
    RunIsGood(events, host, cap, initial);
    RunKeepsFiles(events, host, cap, initial);
    RunKeepsHistory(events, host, cap, initial);
    hide Exec, EditFiles, Replay, WorkersExact, EditOps, FinishedExact;
  }

  // And at every single moment each file except the holder's temporary one shows what it showed
  // before the edit under way, or what it will show after it.
  lemma FilesAreNeverPartial(events: seq<Event>, host: Host, cap: int, initial: Files, s: Server)
    requires Exec(Start(host, cap, initial), events) == At(s) && SeparateDirs(host) && s.lock.Held?
    ensures var before := Replay(host, initial, s.finished);
      OldOrNew(before, s.files, EditFiles(host, before, s.lock.edit).0, s.lock.temporary)
  {
    RunIsGood(events, host, cap, initial);
    RunKeepsFiles(events, host, cap, initial);
    hide Exec, EditFiles, Replay, WorkersExact, EditOps, OldOrNew, FreshTemporary;
    EditProgress(host, Replay(host, initial, s.finished), s.lock.edit, s.lock.temporary, s.lock.done);
  }
}
