/**
A deployment or removal as the single file-system operations it performs, so that other workers and
readers can be placed between any two of them.
*/
module FileSteps {
  import opened Text
  import opened PeerNames
  import opened Placeholder
  import opened Runner

  datatype Edit = Deploy(deploy: DeployRequest, deployLuck: DeployLuck) | Remove(remove: RemoveRequest, removeLuck: RemoveLuck)

  function EditFiles(host: Host, files: Files, edit: Edit): (Files, EditResult) {
    match edit
    case Deploy(req, luck) => DeployFiles(host, files, req, luck)
    case Remove(req, luck) => RemoveFiles(host, files, req, luck)
  }

  datatype Op = Put(path: string, content: string) | Move(from: string, to: string) | Unlink(path: string)

  function ApplyOp(files: Files, op: Op): Files {
    match op
    case Put(path, content) => files[path := content]
    case Move(from, to) => if from in files then files[to := files[from]] - {from} else files
    case Unlink(path) => files - {path}
  }

  function ApplyAll(files: Files, ops: seq<Op>): Files {
    if ops == [] then files else ApplyOp(ApplyAll(files, ops[..|ops| - 1]), ops[|ops| - 1])
  }

  // Writing one file: a temporary is created, filled and renamed; whatever happens it is unlinked
  // in the end.
  function WriteOps(path: string, content: string, temporary: string, outcome: WriteOutcome): seq<Op> {
    match outcome
    case NoDirectory => []
    case NoTemporary => []
    case WriteFailed(part) => [Put(temporary, ""), Put(temporary, part), Unlink(temporary)]
    case ModeFailed => [Put(temporary, ""), Put(temporary, content), Unlink(temporary)]
    case CloseFailed => [Put(temporary, ""), Put(temporary, content), Unlink(temporary)]
    case RenameFailed => [Put(temporary, ""), Put(temporary, content), Unlink(temporary)]
    case Written => [Put(temporary, ""), Put(temporary, content), Move(temporary, path), Unlink(temporary)]
  }

  function EditOps(host: Host, edit: Edit, temporary: string): seq<Op> {
    match edit
    case Deploy(raw, luck) =>
      var req := TrimRequest(raw);
      var rendered := RenderWireGuardConfig(req.wireGuard, host.privateKey);
      if !ValidDeploy(req) || rendered.KeyMissing? then []
      else
        WriteOps(WireGuardPath(host, req.name), rendered.text + "\n", temporary, luck.wireGuard)
        + (if luck.wireGuard.Written? then WriteOps(BirdPath(host, req.name), req.bird + "\n", temporary, luck.bird) else [])
    case Remove(req, luck) =>
      var name := TrimSpace(req.name);
      if req.id == "" || !SafeName(name) || !luck.wireGuard then []
      else [Unlink(WireGuardPath(host, name))] + (if luck.bird then [Unlink(BirdPath(host, name))] else [])
  }

  // A name a temporary file may get: not taken, and no configuration file's.
  ghost predicate FreshTemporary(files: Files, temporary: string) {
    temporary !in files && forall dir, name :: SafeName(name) ==> temporary != FilePath(dir, name)
  }

  // Which is how the node names them: a random name ending in ".tmp".
  lemma TemporaryIsFresh(files: Files, temporary: string)
    requires temporary !in files && |temporary| >= 4 && temporary[|temporary| - 4..] == ".tmp"
    ensures FreshTemporary(files, temporary)
  {
    hide SafeName, FilePath;
    forall dir, name | SafeName(name)
      ensures temporary != FilePath(dir, name)
    {
      PathEndsInSuffix(dir, name, temporary);
    }
  }

  lemma {:induction false} ApplyConcat(files: Files, a: seq<Op>, b: seq<Op>)
    ensures ApplyAll(files, a + b) == ApplyAll(ApplyAll(files, a), b)
  {
    if b == [] {
      assert a + b == a;
    } else {
      ApplyConcat(files, a, b[..|b| - 1]);
      assert (a + b)[..|a + b| - 1] == a + b[..|b| - 1];
    }
  }

  lemma ApplyNext(files: Files, ops: seq<Op>, k: nat)
    requires k < |ops|
    ensures ApplyAll(files, ops[..k + 1]) == ApplyOp(ApplyAll(files, ops[..k]), ops[k])
  {
    assert ops[..k + 1][..k] == ops[..k];
  }

  lemma WrittenProgress(files: Files, path: string, content: string, temporary: string, k: nat)
    requires temporary !in files && temporary != path && k <= 4
    ensures var now := ApplyAll(files, [Put(temporary, ""), Put(temporary, content), Move(temporary, path), Unlink(temporary)][..k]);
      && now - {temporary} == (if k >= 3 then files[path := content] else files)
      && (k == 4 ==> temporary !in now)
  {
    var ops := [Put(temporary, ""), Put(temporary, content), Move(temporary, path), Unlink(temporary)];
    OpsOneByOne(files, ops, k);
    hide ApplyAll;
    TemporaryHidden(files, temporary, "");
    TemporaryHidden(files, temporary, content);
    assert files[temporary := ""][temporary := content] == files[temporary := content];
    assert files[temporary := content][path := content] - {temporary} == files[path := content];
    assert files - {temporary} == files && files[path := content] - {temporary} == files[path := content];
  }

  lemma UnwrittenProgress(files: Files, part: string, temporary: string, k: nat)
    requires temporary !in files && k <= 3
    ensures var now := ApplyAll(files, [Put(temporary, ""), Put(temporary, part), Unlink(temporary)][..k]);
      now - {temporary} == files && (k == 3 ==> temporary !in now)
  {
    var ops := [Put(temporary, ""), Put(temporary, part), Unlink(temporary)];
    OpsOneByOne(files, ops, k);
    hide ApplyAll;
    TemporaryHidden(files, temporary, "");
    TemporaryHidden(files, temporary, part);
    assert files[temporary := ""][temporary := part] == files[temporary := part];
    assert files - {temporary} == files;
  }

  // The file map some operations into writing one file.
  lemma WriteProgress(files: Files, path: string, content: string, temporary: string, outcome: WriteOutcome, k: nat)
    requires temporary !in files && temporary != path
    requires k <= |WriteOps(path, content, temporary, outcome)|
    ensures var ops := WriteOps(path, content, temporary, outcome);
      var now := ApplyAll(files, ops[..k]);
      && now - {temporary} == (if outcome.Written? && k >= 3 then files[path := content] else files)
      && (k == |ops| ==> temporary !in now)
  {
    var ops := WriteOps(path, content, temporary, outcome);
    if outcome.Written? {
      WrittenProgress(files, path, content, temporary, k);
    } else if ops != [] {
      UnwrittenProgress(files, ops[1].content, temporary, k);
    } else {
      NoOps(files, ops, k);
      assert files - {temporary} == files;
    }
  }

  lemma TemporaryHidden(files: Files, temporary: string, content: string)
    requires temporary !in files
    ensures files[temporary := content] - {temporary} == files
  {
  }

  lemma OpsOneByOne(files: Files, ops: seq<Op>, k: nat)
    requires k <= |ops| && |ops| <= 4
    ensures k == 0 ==> ApplyAll(files, ops[..k]) == files
    ensures k == 1 ==> ApplyAll(files, ops[..k]) == ApplyOp(files, ops[0])
    ensures k == 2 ==> ApplyAll(files, ops[..k]) == ApplyOp(ApplyOp(files, ops[0]), ops[1])
    ensures k == 3 ==> ApplyAll(files, ops[..k]) == ApplyOp(ApplyOp(ApplyOp(files, ops[0]), ops[1]), ops[2])
    ensures k == 4 ==> ApplyAll(files, ops[..k]) == ApplyOp(ApplyOp(ApplyOp(ApplyOp(files, ops[0]), ops[1]), ops[2]), ops[3])
  {
    hide ApplyOp;
    assert ApplyAll(files, ops[..0]) == files;
    if k >= 1 { ApplyNext(files, ops, 0); }
    if k >= 2 { ApplyNext(files, ops, 1); }
    if k >= 3 { ApplyNext(files, ops, 2); }
    if k >= 4 { ApplyNext(files, ops, 3); }
    hide ApplyAll;
  }

  lemma WriteDone(files: Files, path: string, content: string, temporary: string, outcome: WriteOutcome)
    requires temporary !in files && temporary != path
    ensures ApplyAll(files, WriteOps(path, content, temporary, outcome)) == if outcome.Written? then files[path := content] else files
  {
    var ops := WriteOps(path, content, temporary, outcome);
    WriteProgress(files, path, content, temporary, outcome, |ops|);
    assert ops[..|ops|] == ops;
    var now := ApplyAll(files, ops);
    assert now - {temporary} == now;
  }

  // What a path shows: its content, or nothing.
  function Shows(files: Files, path: string): seq<string> {
    if path in files then [files[path]] else []
  }

  ghost predicate OldOrNew(before: Files, now: Files, after: Files, temporary: string) {
    forall p :: p != temporary ==> Shows(now, p) == Shows(before, p) || Shows(now, p) == Shows(after, p)
  }

  // The operations add up to the edit, and in between every file shows its old or its new content,
  // never a part of either.
  lemma EditProgress(host: Host, files: Files, edit: Edit, temporary: string, k: nat)
    requires SeparateDirs(host) && FreshTemporary(files, temporary)
    requires k <= |EditOps(host, edit, temporary)|
    ensures var ops := EditOps(host, edit, temporary);
      && ApplyAll(files, ops) == EditFiles(host, files, edit).0
      && OldOrNew(files, ApplyAll(files, ops[..k]), EditFiles(host, files, edit).0, temporary)
  {
    hide ApplyAll, ApplyOp, TrimSpace, SafeName, ValidDeploy, RenderWireGuardConfig, FilePath, WriteOps;
    match edit
    case Deploy(_, _) => DeployProgress(host, files, edit, temporary, k);
    case Remove(_, _) => RemoveProgress(host, files, edit, temporary, k);
  }

  lemma DeployProgress(host: Host, files: Files, edit: Edit, temporary: string, k: nat)
    requires edit.Deploy? && SeparateDirs(host) && FreshTemporary(files, temporary)
    requires k <= |EditOps(host, edit, temporary)|
    ensures var ops := EditOps(host, edit, temporary);
      && ApplyAll(files, ops) == EditFiles(host, files, edit).0
      && OldOrNew(files, ApplyAll(files, ops[..k]), EditFiles(host, files, edit).0, temporary)
  {
    hide ApplyAll, ApplyOp, TrimSpace, SafeName, ValidDeploy, RenderWireGuardConfig, FilePath, WriteOps, OldOrNew, FreshTemporary, WireGuardPath, BirdPath;
    var ops := EditOps(host, edit, temporary);
    var req, luck := TrimRequest(edit.deploy), edit.deployLuck;
    var rendered := RenderWireGuardConfig(req.wireGuard, host.privateKey);
    if ValidDeploy(req) && rendered.Rendered? {
      DeployPaths(host, files, req, temporary);
      TwoWrites(files, WireGuardPath(host, req.name), rendered.text + "\n", luck.wireGuard,
                BirdPath(host, req.name), req.bird + "\n", luck.bird, temporary, k);
    } else {
      NoOps(files, ops, k);
      SameIsOld(files, temporary);
    }
  }

  lemma DeployPaths(host: Host, files: Files, req: DeployRequest, temporary: string)
    requires ValidDeploy(req) && SeparateDirs(host) && FreshTemporary(files, temporary)
    ensures var p, q := WireGuardPath(host, req.name), BirdPath(host, req.name);
      p != q && temporary !in files && temporary != p && temporary != q
  {
    hide SafeName, FilePath, ValidSnippet, UnsafeChar;
    PathInjective(host.wireGuardDir, req.name, host.birdDir, req.name);
  }

  lemma SameIsOld(files: Files, temporary: string)
    ensures OldOrNew(files, files, files, temporary)
  {
  }

  lemma NoOps(files: Files, ops: seq<Op>, k: nat)
    requires ops == [] && k == 0
    ensures ApplyAll(files, ops[..k]) == files && ApplyAll(files, ops) == files
  {
  }

  // While the first file is written, that file alone may show something new.
  lemma FirstInProgress(files: Files, now: Files, p: string, first: string, q: string, second: string, both: bool, temporary: string)
    requires temporary != p && temporary != q && p != q
    requires now - {temporary} == files || now - {temporary} == files[p := first]
    ensures var after := if both then files[p := first][q := second] else files[p := first];
      OldOrNew(files, now, after, temporary)
  {
    ShowsBesides(now, now - {temporary}, temporary);
  }

  // While the second is, the first one already shows its new content.
  lemma SecondInProgress(files: Files, now: Files, p: string, first: string, q: string, second: string, both: bool, temporary: string)
    requires temporary != p && temporary != q && p != q
    requires now - {temporary} == files[p := first] || (both && now - {temporary} == files[p := first][q := second])
    ensures var after := if both then files[p := first][q := second] else files[p := first];
      OldOrNew(files, now, after, temporary)
  {
    ShowsBesides(now, now - {temporary}, temporary);
  }

  // The first file could not be written, and nothing is tried after it.
  lemma OneFailedWrite(files: Files, p: string, first: string, outcome: WriteOutcome, temporary: string, k: nat)
    requires temporary !in files && temporary != p && !outcome.Written? && k <= |WriteOps(p, first, temporary, outcome)|
    ensures var ops := WriteOps(p, first, temporary, outcome);
      ApplyAll(files, ops) == files && OldOrNew(files, ApplyAll(files, ops[..k]), files, temporary)
  {
    hide WriteOps, ApplyAll;
    WriteDone(files, p, first, temporary, outcome);
    WriteProgress(files, p, first, temporary, outcome, k);
    ShowsBesides(ApplyAll(files, WriteOps(p, first, temporary, outcome)[..k]), files, temporary);
  }

  lemma SecondWrite(files: Files, p: string, first: string, q: string, second: string, outcome: WriteOutcome, temporary: string, k: nat)
    requires temporary !in files && temporary != p && temporary != q && p != q
    requires k <= |WriteOps(p, first, temporary, Written)| + |WriteOps(q, second, temporary, outcome)|
    ensures var ops := WriteOps(p, first, temporary, Written) + WriteOps(q, second, temporary, outcome);
      var after := if outcome.Written? then files[p := first][q := second] else files[p := first];
      ApplyAll(files, ops) == after && OldOrNew(files, ApplyAll(files, ops[..k]), after, temporary)
  {
    hide WriteOps, ApplyAll, OldOrNew;
    var a, b, mid := WriteOps(p, first, temporary, Written), WriteOps(q, second, temporary, outcome), files[p := first];
    WriteDone(files, p, first, temporary, Written);
    ApplyConcat(files, a, b);
    WriteDone(mid, q, second, temporary, outcome);
    if k <= |a| {
      assert (a + b)[..k] == a[..k];
      WriteProgress(files, p, first, temporary, Written, k);
      FirstInProgress(files, ApplyAll(files, a[..k]), p, first, q, second, outcome.Written?, temporary);
    } else {
      assert (a + b)[..k] == a + b[..k - |a|];
      ApplyConcat(files, a, b[..k - |a|]);
      WriteProgress(mid, q, second, temporary, outcome, k - |a|);
      SecondInProgress(files, ApplyAll(mid, b[..k - |a|]), p, first, q, second, outcome.Written?, temporary);
    }
  }

  lemma TwoWrites(files: Files, p: string, first: string, o1: WriteOutcome, q: string, second: string, o2: WriteOutcome, temporary: string, k: nat)
    requires temporary !in files && temporary != p && temporary != q && p != q
    requires var ops := WriteOps(p, first, temporary, o1) + (if o1.Written? then WriteOps(q, second, temporary, o2) else []);
      k <= |ops|
    ensures var ops := WriteOps(p, first, temporary, o1) + (if o1.Written? then WriteOps(q, second, temporary, o2) else []);
      var mid := if o1.Written? then files[p := first] else files;
      var after := if o1.Written? && o2.Written? then mid[q := second] else mid;
      && ApplyAll(files, ops) == after
      && OldOrNew(files, ApplyAll(files, ops[..k]), after, temporary)
  {
    hide WriteOps, ApplyAll, OldOrNew;
    if o1.Written? {
      SecondWrite(files, p, first, q, second, o2, temporary, k);
    } else {
      assert WriteOps(p, first, temporary, o1) + [] == WriteOps(p, first, temporary, o1);
      OneFailedWrite(files, p, first, o1, temporary, k);
    }
  }

  lemma ShowsBesides(now: Files, rest: Files, temporary: string)
    requires now - {temporary} == rest
    ensures forall p :: p != temporary ==> Shows(now, p) == Shows(rest, p)
  {
    forall p | p != temporary
      ensures Shows(now, p) == Shows(rest, p)
    {
      assert p in now <==> p in now - {temporary};
    }
  }

  lemma RemoveProgress(host: Host, files: Files, edit: Edit, temporary: string, k: nat)
    requires edit.Remove? && k <= |EditOps(host, edit, temporary)|
    ensures var ops := EditOps(host, edit, temporary);
      && ApplyAll(files, ops) == EditFiles(host, files, edit).0
      && OldOrNew(files, ApplyAll(files, ops[..k]), EditFiles(host, files, edit).0, temporary)
  {
    hide TrimSpace, SafeName, FilePath, ApplyAll, ApplyOp, OldOrNew;
    var ops := EditOps(host, edit, temporary);
    if ops == [] {
      NoOps(files, ops, k);
      SameIsOld(files, temporary);
    } else {
      var name := TrimSpace(edit.remove.name);
      Unlinks(files, WireGuardPath(host, name), BirdPath(host, name), edit.removeLuck.bird, temporary, k);
    }
  }

  lemma Unlinks(files: Files, p: string, q: string, both: bool, temporary: string, k: nat)
    requires k <= if both then 2 else 1
    ensures var ops := [Unlink(p)] + (if both then [Unlink(q)] else []);
      var after := if both then files - {p} - {q} else files - {p};
      ApplyAll(files, ops) == after && OldOrNew(files, ApplyAll(files, ops[..k]), after, temporary)
  {
    var ops := [Unlink(p)] + (if both then [Unlink(q)] else []);
    OpsOneByOne(files, ops, k);
    OpsOneByOne(files, ops, |ops|);
    assert ops[..|ops|] == ops;
    hide ApplyAll;
  }
}
