/**
The node's file operations: deploying and removing one peer's two configuration files. What the
operating system and the external commands answer is a parameter.
*/
module Runner {
  import opened Text
  import opened PeerNames
  import opened Placeholder
  import Paths

  type Files = map<string, string>

  // The node's configuration that matters for deployment.
  datatype Host = Host(wireGuardDir: string, birdDir: string, privateKey: string)

  datatype DeployRequest = DeployRequest(id: string, asn: string, node: string, name: string, wireGuard: string, bird: string)

  datatype RemoveRequest = RemoveRequest(id: string, name: string)

  datatype EditResult = EditResult(ok: bool, applied: bool)

  // How far writing a file through a temporary one gets.
  datatype WriteOutcome = NoDirectory | NoTemporary | WriteFailed(part: string) | ModeFailed | CloseFailed | RenameFailed | Written

  datatype DeployLuck = DeployLuck(wireGuard: WriteOutcome, bird: WriteOutcome, chown: bool, up: bool, reload: bool)

  datatype RemoveLuck = RemoveLuck(wireGuard: bool, bird: bool, reload: bool)

  function TrimRequest(req: DeployRequest): DeployRequest {
    req.(asn := TrimSpace(req.asn), node := TrimSpace(req.node), name := TrimSpace(req.name),
         wireGuard := TrimSpace(req.wireGuard), bird := TrimSpace(req.bird))
  }

  predicate UnsafeChar(c: char) {
    c < 33 as char || c > 126 as char || c in ";&|`$<>\\\"'(){}[]!*?"
  }

  predicate ValidSnippet(text: string) {
    0 < |text| <= 16 * 1024 && forall i :: 0 <= i < |text| ==> text[i] != 0 as char
  }

  predicate ValidDeploy(req: DeployRequest) {
    && req.id != ""
    && 0 < |req.asn| <= 32 && req.asn[0] != '-' && (forall i :: 0 <= i < |req.asn| ==> !UnsafeChar(req.asn[i]))
    && 0 < |req.node| <= 64 && (forall i :: 0 <= i < |req.node| ==> req.node[i] != '/' && req.node[i] != '\\')
    && SafeName(req.name) && ValidSnippet(req.wireGuard) && ValidSnippet(req.bird)
  }

  function WireGuardPath(host: Host, name: string): string { FilePath(host.wireGuardDir, name) }

  function BirdPath(host: Host, name: string): string { FilePath(host.birdDir, name) }

  // The two configured directories are not one and the same, however they are written.
  predicate SeparateDirs(host: Host) { Paths.Clean(host.wireGuardDir) != Paths.Clean(host.birdDir) }

  // A deployment as a change of the file map. The guard against writing outside the two directories
  // is not a case of its own: PathStaysInside shows that it never refuses a valid name.
  function DeployFiles(host: Host, files: Files, raw: DeployRequest, luck: DeployLuck): (Files, EditResult) {
    var req := TrimRequest(raw);
    var rendered := RenderWireGuardConfig(req.wireGuard, host.privateKey);
    if !ValidDeploy(req) || rendered.KeyMissing? || !luck.wireGuard.Written? then (files, EditResult(false, false))
    else
      var first := files[WireGuardPath(host, req.name) := rendered.text + "\n"];
      if !luck.bird.Written? then (first, EditResult(false, false))
      else
        var both := first[BirdPath(host, req.name) := req.bird + "\n"];
        if !luck.chown then (both, EditResult(false, false))
        else (both, EditResult(luck.up && luck.reload, true))
  }

  // A removal as a change of the file map; a file that is not there counts as removed.
  function RemoveFiles(host: Host, files: Files, req: RemoveRequest, luck: RemoveLuck): (Files, EditResult) {
    var name := TrimSpace(req.name);
    if req.id == "" || !SafeName(name) then (files, EditResult(false, false))
    else if !luck.wireGuard then (files, EditResult(false, true))
    else
      var first := files - {WireGuardPath(host, name)};
      if !luck.bird then (first, EditResult(false, true))
      else (first - {BirdPath(host, name)}, EditResult(luck.reload, true))
  }

  // ----- what the file map shows afterwards -----

  // Two file maps agree on every file of every other peer.
  ghost predicate OthersUntouched(before: Files, after: Files, name: string) {
    forall dir, other :: SafeName(other) && other != name ==>
      && (FilePath(dir, other) in after <==> FilePath(dir, other) in before)
      && (FilePath(dir, other) in after ==> after[FilePath(dir, other)] == before[FilePath(dir, other)])
  }

  // A successful deployment leaves exactly the two rendered files, and no deployment, however it
  // ends, touches the files of another name.
  lemma DeployWritesItsOwn(host: Host, files: Files, req: DeployRequest, luck: DeployLuck)
    requires SeparateDirs(host)
    ensures var (after, result) := DeployFiles(host, files, req, luck);
      && OthersUntouched(files, after, TrimSpace(req.name))
      && (result.applied ==>
            var rendered := RenderWireGuardConfig(TrimSpace(req.wireGuard), host.privateKey);
            && rendered.Rendered? && SafeName(TrimSpace(req.name))
            && after == files[WireGuardPath(host, TrimSpace(req.name)) := rendered.text + "\n"][BirdPath(host, TrimSpace(req.name)) := TrimSpace(req.bird) + "\n"]
            && after[WireGuardPath(host, TrimSpace(req.name))] == rendered.text + "\n")
      && (result.ok ==> result.applied)
  {
    hide TrimSpace, RenderWireGuardConfig, SafeName, UnsafeChar, ValidSnippet, FilePath;
    var (after, result) := DeployFiles(host, files, req, luck);
    var name := TrimSpace(req.name);
    forall dir, other | SafeName(other) && other != name
      ensures FilePath(dir, other) in after <==> FilePath(dir, other) in files
      ensures FilePath(dir, other) in after ==> after[FilePath(dir, other)] == files[FilePath(dir, other)]
    {
      if ValidDeploy(TrimRequest(req)) {
        PathInjective(dir, other, host.wireGuardDir, name);
        PathInjective(dir, other, host.birdDir, name);
      }
    }
    if ValidDeploy(TrimRequest(req)) {
      PathInjective(host.wireGuardDir, name, host.birdDir, name);
    }
  }

  // A removal deletes nothing but the two files of its name, and both when it succeeds.
  lemma RemoveDeletesItsOwn(host: Host, files: Files, req: RemoveRequest, luck: RemoveLuck)
    ensures var (after, result) := RemoveFiles(host, files, req, luck);
      && OthersUntouched(files, after, TrimSpace(req.name))
      && after.Keys <= files.Keys && (forall p :: p in after ==> after[p] == files[p])
      && (result.ok ==>
            after == files - {WireGuardPath(host, TrimSpace(req.name)), BirdPath(host, TrimSpace(req.name))})
      && (forall p :: p in files && p !in after ==>
            p == WireGuardPath(host, TrimSpace(req.name)) || p == BirdPath(host, TrimSpace(req.name)))
  {
    hide TrimSpace, SafeName, FilePath;
    var (after, result) := RemoveFiles(host, files, req, luck);
    var name := TrimSpace(req.name);
    forall dir, other | SafeName(other) && other != name
      ensures FilePath(dir, other) in after <==> FilePath(dir, other) in files
      ensures FilePath(dir, other) in after ==> after[FilePath(dir, other)] == files[FilePath(dir, other)]
    {
      if SafeName(name) {
        PathInjective(dir, other, host.wireGuardDir, name);
        PathInjective(dir, other, host.birdDir, name);
      }
    }
  }

  // A file shows something else, or is not there.
  predicate Differs(files: Files, path: string, content: string) {
    path !in files || files[path] != content
  }

  lemma PutChanges(files: Files, path: string, content: string)
    ensures files[path := content] != files <==> Differs(files, path, content)
  {
    if !Differs(files, path, content) {
      assert files[path := content] == files;
    } else {
      assert files[path := content][path] == content;
    }
  }

  lemma PutTwoChanges(files: Files, p: string, first: string, q: string, second: string)
    ensures files[p := first][q := second] != files <==> Differs(files, q, second) || (p != q && Differs(files, p, first))
  {
    var after := files[p := first][q := second];
    if p == q {
      assert after == files[q := second];
      PutChanges(files, q, second);
    } else {
      assert after[p] == first && after[q] == second;
      if !Differs(files, q, second) && !Differs(files, p, first) {
        assert after == files;
      }
    }
  }

  // "Applied" is promised to mean that files were already changed when a later step failed. It is
  // false although they were exactly when the WireGuard file was written, the BIRD file or its group
  // failed, and some file written until then showed something else before.
  lemma AppliedUnderReports(host: Host, files: Files, raw: DeployRequest, luck: DeployLuck)
    ensures var (after, result) := DeployFiles(host, files, raw, luck);
      var req := TrimRequest(raw);
      var rendered := RenderWireGuardConfig(req.wireGuard, host.privateKey);
      var p, q := WireGuardPath(host, req.name), BirdPath(host, req.name);
      !result.applied && after != files
      <==> ValidDeploy(req) && rendered.Rendered? && luck.wireGuard.Written?
           && (if luck.bird.Written?
               then !luck.chown && (Differs(files, q, req.bird + "\n") || (p != q && Differs(files, p, rendered.text + "\n")))
               else Differs(files, p, rendered.text + "\n"))
  {
    hide TrimSpace, RenderWireGuardConfig, ValidDeploy, FilePath, Differs;
    var req := TrimRequest(raw);
    var rendered := RenderWireGuardConfig(req.wireGuard, host.privateKey);
    if ValidDeploy(req) && rendered.Rendered? {
      var p, q := WireGuardPath(host, req.name), BirdPath(host, req.name);
      PutChanges(files, p, rendered.text + "\n");
      PutTwoChanges(files, p, rendered.text + "\n", q, req.bird + "\n");
    }
  }

  const SMALL_REQUEST := DeployRequest("i", "1", "n", "p", "w", "b")

  lemma LetterIsTrimmed(c: char)
    requires NameChar(c)
    ensures TrimSpace([c]) == [c]
  {
    assert !IsSpace(c, GoSpaces);
    hide NameChar, TrimSpace;
    TrimKeepsTrimmed([c]);
  }

  lemma LetterIsName(c: char)
    requires NameChar(c)
    ensures SafeName([c])
  {
    hide NameChar;
  }

  lemma LetterIsSnippet(c: char)
    requires NameChar(c)
    ensures ValidSnippet([c])
  {
    assert c != 0 as char;
    hide NameChar;
    assert [c][0] == c;
  }

  lemma OneLetter(c: char)
    requires NameChar(c)
    ensures TrimSpace([c]) == [c] && SafeName([c]) && ValidSnippet([c])
  {
    hide TrimSpace, SafeName, ValidSnippet, NameChar;
    LetterIsTrimmed(c);
    LetterIsName(c);
    LetterIsSnippet(c);
  }

  lemma DigitIsSafe()
    ensures !UnsafeChar('1')
  {
  }

  lemma OneLetterRendered(c: char, key: string)
    ensures RenderWireGuardConfig([c], key) == Rendered([c])
  {
    forall i | 0 <= i <= 1
      ensures !StartsWith([c][i..], PLACEHOLDER)
    {
      assert |PLACEHOLDER| > 1 >= |[c][i..]|;
    }
  }

  lemma SmallRequest(key: string)
    ensures TrimRequest(SMALL_REQUEST) == SMALL_REQUEST && ValidDeploy(SMALL_REQUEST)
    ensures RenderWireGuardConfig("w", key) == Rendered("w")
  {
    hide TrimSpace, SafeName, ValidSnippet, UnsafeChar, RenderWireGuardConfig;
    Letters();
    DigitIsSafe();
    OneLetterRendered('w', key);
    assert "w" == ['w'];
    assert |"1"| == 1 && "1"[0] == '1' && |"n"| == 1 && "n"[0] == 'n' && |"i"| == 1;
  }

  lemma Letters()
    ensures TrimSpace("1") == "1" && TrimSpace("n") == "n" && TrimSpace("p") == "p" && TrimSpace("w") == "w" && TrimSpace("b") == "b"
    ensures SafeName("p") && ValidSnippet("w") && ValidSnippet("b")
  {
    hide TrimSpace, SafeName, ValidSnippet;
    assert "1" == ['1'] && "n" == ['n'] && "p" == ['p'] && "w" == ['w'] && "b" == ['b'];
    OneLetter('1');
    OneLetter('n');
    OneLetter('p');
    OneLetter('w');
    OneLetter('b');
  }

  // For instance when the BIRD directory cannot be made: a file is left on the router and the answer
  // denies it.
  lemma UnderReportedDeployment(host: Host, files: Files, luck: DeployLuck)
    requires luck.wireGuard.Written? && luck.bird.NoDirectory? && WireGuardPath(host, "p") !in files
    ensures var (after, result) := DeployFiles(host, files, SMALL_REQUEST, luck);
      !result.applied && WireGuardPath(host, "p") in after && after[WireGuardPath(host, "p")] == "w" + "\n"
  {
    SmallRequest(host.privateKey);
    hide TrimRequest, ValidDeploy, RenderWireGuardConfig, FilePath;
  }

  // ----- the operations, statement by statement -----

  class NodeRunner {
    const host: Host
    var files: Files

    constructor (host: Host)
      ensures this.host == host && files == map[]
    {
      this.host := host;
      files := map[];
    }

    // Writes a file by way of a temporary one, which never outlives the call.
    method WriteConfigFile(path: string, content: string, temporary: string, outcome: WriteOutcome) returns (ok: bool)
      requires temporary !in files && temporary != path
      modifies `files
      ensures ok == outcome.Written?
      ensures files == if ok then old(files)[path := content] else old(files)
    {
      if outcome.NoDirectory? || outcome.NoTemporary? {
        return false;
      }
      files := files[temporary := ""];
      if outcome.WriteFailed? {
        files := files[temporary := outcome.part];
        files := files - {temporary};
        return false;
      }
      files := files[temporary := content];
      if outcome.ModeFailed? || outcome.CloseFailed? || outcome.RenameFailed? {
        files := files - {temporary};
        return false;
      }
      files := files[path := files[temporary]] - {temporary};
      return true;
    }

    method DeployPeer(raw: DeployRequest, luck: DeployLuck, temporary: string) returns (result: EditResult)
      requires temporary !in files
      requires forall dir, name :: SafeName(name) ==> temporary != FilePath(dir, name)
      modifies `files
      ensures (files, result) == DeployFiles(host, old(files), raw, luck)
    {
      hide TrimSpace, RenderWireGuardConfig, SafeName, UnsafeChar, ValidSnippet, FilePath;
      var req := TrimRequest(raw);
      if !ValidDeploy(req) {
        return EditResult(false, false);
      }
      var wireGuardFile := FilePath(host.wireGuardDir, req.name);
      var birdFile := FilePath(host.birdDir, req.name);
      var rendered := RenderWireGuardConfig(req.wireGuard, host.privateKey);
      if rendered.KeyMissing? {
        return EditResult(false, false);
      }
      var ok := WriteConfigFile(wireGuardFile, rendered.text + "\n", temporary, luck.wireGuard);
      if !ok {
        return EditResult(false, false);
      }
      ok := WriteConfigFile(birdFile, req.bird + "\n", temporary, luck.bird);
      if !ok {
        return EditResult(false, false);
      }
      if !luck.chown {
        return EditResult(false, false);
      }
      if !luck.up {
        return EditResult(false, true);
      }
      if !luck.reload {
        return EditResult(false, true);
      }
      return EditResult(true, true);
    }

    method RemovePeer(req: RemoveRequest, luck: RemoveLuck) returns (result: EditResult)
      modifies `files
      ensures (files, result) == RemoveFiles(host, old(files), req, luck)
    {
      hide TrimSpace, SafeName, FilePath;
      var name := TrimSpace(req.name);
      if req.id == "" || !SafeName(name) {
        return EditResult(false, false);
      }
      if !luck.wireGuard {
        return EditResult(false, true);
      }
      files := files - {FilePath(host.wireGuardDir, name)};
      if !luck.bird {
        return EditResult(false, true);
      }
      files := files - {FilePath(host.birdDir, name)};
      return EditResult(luck.reload, true);
    }
  }
}
