/**
What each peer operation leaves behind, in terms of what it was given: the values of the form, what
the node answered, and the two files on the router.
*/
module PeerOutcomes {
  import opened Text
  import opened PeerNames
  import opened PeerInput
  import opened TunnelAddress
  import opened Placeholder
  import opened Runner
  import opened Lifecycle
  import opened PeerState
  import opened DeployedRows
  import opened RemovedRows
  import opened RouterFiles

  // ----- the deploy payload -----

  function OwnAsn(env: Env, node: Node): string {
    if Strip(node.asn) != "" then Strip(node.asn) else Strip(env.localAsn)
  }

  // Both sides' ASNs are numeric, and the peer's has a listen port.
  predicate Deployable(env: Env, id: string, asn: string, node: Node) {
    NormalizeAsn(OwnAsn(env, node)).Ok? && ProtocolName(asn, id).Ok? && ListenPort(asn).Ok?
  }

  function WireGuardText(env: Env, id: string, asn: string, config: Values, node: Node): string
    requires Deployable(env, id, asn, node)
  {
    env.wireGuardText(id, asn, config, node.name, ListenPort(asn).value)
  }

  function BirdText(env: Env, id: string, asn: string, config: Values, node: Node): string
    requires Deployable(env, id, asn, node)
  {
    env.birdText(id, asn, config, ProtocolName(asn, id).value, NormalizeAsn(OwnAsn(env, node)).value)
  }

  // A payload carries the row's id and ASN, the node's name, and each text in its own place.
  lemma PayloadIs(env: Env, id: string, asn: string, config: Values, node: Node, request: DeployRequest)
    ensures BuildPayload(env, id, asn, config, node) == Ok(request)
       <==> (&& Deployable(env, id, asn, node)
             && request.id == id && request.asn == asn && request.node == node.name && ProtocolName(asn, id) == Ok(request.name)
             && request.wireGuard == WireGuardText(env, id, asn, config, node) && request.bird == BirdText(env, id, asn, config, node))
  {
    EmptyAsn();
    hide NormalizeAsn, ProtocolName, ListenPort, Strip;
  }

  // ----- the files of a row -----

  // The router's WireGuard file is the filled-in WireGuard text of these values, its BIRD file their
  // BIRD text.
  ghost predicate RouterShows(env: Env, host: Host, files: Files, id: string, asn: string, config: Values, node: Node) {
    && Deployable(env, id, asn, node)
    && var name := TrimSpace(ProtocolName(asn, id).value);
    && var rendered := RenderWireGuardConfig(TrimSpace(WireGuardText(env, id, asn, config, node)), host.privateKey);
    && SafeName(name) && rendered.Rendered?
    && FilePath(host.wireGuardDir, name) in files && files[FilePath(host.wireGuardDir, name)] == rendered.text + "\n"
    && FilePath(host.birdDir, name) in files
    && files[FilePath(host.birdDir, name)] == TrimSpace(BirdText(env, id, asn, config, node)) + "\n"
  }

  lemma HeldShows(env: Env, host: Host, files: Files, id: string, asn: string, config: Values, node: Node, request: DeployRequest)
    requires BuildPayload(env, id, asn, config, node) == Ok(request) && Held(host, files, request)
    ensures RouterShows(env, host, files, id, asn, config, node)
  {
    PayloadIs(env, id, asn, config, node, request);
    hide BuildPayload, Deployable, WireGuardText, BirdText, TrimSpace, RenderWireGuardConfig, SafeName, FilePath, ProtocolName;
  }

  predicate HadNode(at: Execution, n: NodeId, node: Node) {
    at.Reached? && n in at.state.nodes && at.state.nodes[n] == node
  }

  // At some point of the run the node had these values.
  ghost predicate WasNode(env: Env, ops: seq<Op>, n: NodeId, node: Node) {
    exists k :: 0 <= k <= |ops| && HadNode(Exec(env, ops[..k]), n, node)
  }

  predicate SentOfNode(s: State, s': State, i: string) {
    i in s'.sent ==>
      || (i in s.sent && s'.sent[i] == s.sent[i])
      || (s'.sent[i].node in s.nodes && s'.sent[i].snapshot == s.nodes[s'.sent[i].node])
  }

  lemma DeploySendsNode(env: Env, s: State, id: string, call: Call<DeployLuck>, now: Time, i: string)
    requires id in s.rows && s.rows[id].node in s.nodes
    ensures SentOfNode(s, DeployRow(env, s, id, call, now), i)
  {
    hide BuildPayload, CallDeploy;
  }

  lemma StepSendsNode(env: Env, s: State, op: Op, i: string)
    requires Enabled(s, op)
    ensures SentOfNode(s, Step(env, s, op), i)
  {
    hide Normalize, Taken, Edited, DeployRow, CallRemove;
    match op
    case Create(id, asn, n, input, call, now) =>
      match Normalize(Context(asn, s.nodes[n].asn, env.localAsn, env.rules), input) {
        case Ok(config) => DeploySendsNode(env, s.(rows := s.rows[id := Row(asn, n, config, Approved, Deploying, Never)]), id, call, now, i);
        case Err(_) =>
      }
    case Update(id, change, calls, now) =>
      match Edited(env, s, id, change) {
        case Ok(config) => DeploySendsNode(env, WithEdit(s, id, change.node, config, change.status), id, calls.deploy, now, i);
        case Err(_) =>
      }
    case Redeploy(id, call, now) => DeploySendsNode(env, s, id, call, now, i);
    case _ =>
  }

  lemma {:induction false} SentOfItsNode(env: Env, ops: seq<Op>, s: State, i: string)
    requires Exec(env, ops) == Reached(s) && i in s.sent
    ensures WasNode(env, ops, s.sent[i].node, s.sent[i].snapshot)
  {
    if ops != [] {
      var n := |ops| - 1;
      var before := Exec(env, ops[..n]).state;
      StepSendsNode(env, before, ops[n], i);
      hide Step, Enabled;
      if i in before.sent && s.sent[i] == before.sent[i] {
        SentOfItsNode(env, ops[..n], before, i);
        var k :| 0 <= k <= n && HadNode(Exec(env, ops[..n][..k]), s.sent[i].node, s.sent[i].snapshot);
        assert ops[..n][..k] == ops[..k];
      } else {
        assert HadNode(Exec(env, ops[..n]), s.sent[i].node, s.sent[i].snapshot);
      }
    }
  }

  // In every run, lost replies included, a row marked deployed and not silently edited since has its
  // two files on its router, made of its present values and of values its node had.
  lemma DeployedFilesAreTheRows(env: Env, ops: seq<Op>, s: State, i: string)
    requires Exec(env, ops) == Reached(s) && DirectoriesDistinct(env) && AlwaysDistinct(env, ops)
    requires i in s.rows && s.rows[i].deployment.Deployed? && i !in s.stale
    ensures var row := s.rows[i];
      exists node :: WasNode(env, ops, row.node, node) && RouterShows(env, env.hosts(row.node), FilesOf(s, row.node), i, row.asn, row.config, node)
  {
    RunKeepsCurrent(env, ops);
    assert CurrentRow(env, s, i);
    SentOfItsNode(env, ops, s, i);
    hide Exec, AlwaysDistinct, DirectoriesDistinct, CurrentRows, Held, BuildPayload, RouterShows, FilesOf, WasNode;
    var row := s.rows[i];
    HeldShows(env, env.hosts(row.node), FilesOf(s, row.node), i, row.asn, row.config, s.sent[i].snapshot, s.sent[i].request);
    assert WasNode(env, ops, row.node, s.sent[i].snapshot);
  }

  // ----- what the node accepts -----

  // A deployment succeeds on the node: the request is valid, the key is there, and every step works.
  predicate DeploySucceeds(host: Host, raw: DeployRequest, luck: DeployLuck) {
    && ValidDeploy(TrimRequest(raw)) && RenderWireGuardConfig(TrimSpace(raw.wireGuard), host.privateKey).Rendered?
    && luck.wireGuard.Written? && luck.bird.Written? && luck.chown && luck.up && luck.reload
  }

  predicate RemoveSucceeds(req: RemoveRequest, luck: RemoveLuck) {
    req.id != "" && SafeName(TrimSpace(req.name)) && luck.wireGuard && luck.bird && luck.reload
  }

  lemma NodeAnswers(host: Host, files: Files, raw: DeployRequest, luck: DeployLuck, req: RemoveRequest, removeLuck: RemoveLuck)
    ensures DeployFiles(host, files, raw, luck).1.ok <==> DeploySucceeds(host, raw, luck)
    ensures RemoveFiles(host, files, req, removeLuck).1.ok <==> RemoveSucceeds(req, removeLuck)
  {
    hide ValidDeploy, RenderWireGuardConfig, TrimSpace, SafeName, FilePath;
  }

  lemma DigitsAreSafe(asn: string)
    requires AllDigits(asn)
    ensures TrimSpace(asn) == asn && forall i :: 0 <= i < |asn| ==> !UnsafeChar(asn[i])
  {
    assert IsDigit(asn[0]) && IsDigit(asn[|asn| - 1]);
    TrimKeepsTrimmed(asn);
    hide TrimSpace;
    forall i | 0 <= i < |asn|
      ensures !UnsafeChar(asn[i])
    {
      DigitIsNotUnsafe(asn[i]);
    }
  }

  lemma DigitIsNotUnsafe(c: char)
    requires IsDigit(c)
    ensures !UnsafeChar(c)
  {
  }

  predicate PlainName(name: string) {
    forall i :: 0 <= i < |name| ==> name[i] != '/' && name[i] != '\\'
  }

  predicate PlainAsn(asn: string) {
    0 < |asn| <= 32 && asn[0] != '-' && forall i :: 0 <= i < |asn| ==> !UnsafeChar(asn[i])
  }

  lemma RequestIsValid(raw: DeployRequest)
    ensures ValidDeploy(TrimRequest(raw))
       <==> (&& raw.id != "" && PlainAsn(TrimSpace(raw.asn))
             && 0 < |TrimSpace(raw.node)| <= 64 && PlainName(TrimSpace(raw.node))
             && SafeName(TrimSpace(raw.name)) && ValidSnippet(TrimSpace(raw.wireGuard)) && ValidSnippet(TrimSpace(raw.bird)))
  {
    hide TrimSpace, UnsafeChar, SafeName, ValidSnippet;
  }

  lemma FirstDigit(asn: string)
    requires AllDigits(asn) && |asn| <= 32 && forall i :: 0 <= i < |asn| ==> !UnsafeChar(asn[i])
    ensures PlainAsn(asn)
  {
    assert IsDigit(asn[0]);
    hide UnsafeChar;
  }

  lemma IdNotEmpty(id: string)
    requires PeerNames.PeerId(id)
    ensures id != ""
  {
  }

  // What the backend builds passes the node's checks, unless a text is too long or empty or the
  // node's name is none.
  lemma PayloadIsValid(env: Env, id: string, asn: string, config: Values, node: Node, request: DeployRequest)
    requires BuildPayload(env, id, asn, config, node) == Ok(request) && PeerNames.PeerId(id) && AllDigits(asn) && |asn| <= 32
    ensures ValidDeploy(TrimRequest(request))
       <==> (&& 0 < |TrimSpace(request.node)| <= 64 && PlainName(TrimSpace(request.node))
             && ValidSnippet(TrimSpace(request.wireGuard)) && ValidSnippet(TrimSpace(request.bird)))
  {
    hide *;
    PayloadIs(env, id, asn, config, node, request);
    DigitsAreSafe(asn);
    DerivedNameIsSafe(asn, id);
    SafeNameIsTrimmed(request.name);
    FirstDigit(asn);
    IdNotEmpty(id);
    RequestIsValid(request);
  }

  // ----- deployments and removals -----

  // The node acknowledges deploying a row with these values.
  predicate DeployAcked(env: Env, id: string, row: Row, node: Node, call: Call<DeployLuck>) {
    && node.enabled && BuildPayload(env, id, row.asn, row.config, node).Ok?
    && call.Replied? && DeploySucceeds(env.hosts(row.node), BuildPayload(env, id, row.asn, row.config, node).value, call.luck)
  }

  predicate RemoveAcked(id: string, asn: string, node: Node, call: Call<RemoveLuck>) {
    && node.enabled && ProtocolName(asn, id).Ok?
    && call.Replied? && RemoveSucceeds(RemoveRequest(id, ProtocolName(asn, id).value), call.luck)
  }

  lemma DeploySentIs(env: Env, s: State, id: string, call: Call<DeployLuck>, now: Time)
    requires id in s.rows && s.rows[id].node in s.nodes
    ensures var row, node := s.rows[id], s.nodes[s.rows[id].node];
      var request := BuildPayload(env, id, row.asn, row.config, node);
      node.enabled && request.Ok? ==>
        var (files, ok) := CallDeploy(env.hosts(row.node), FilesOf(s, row.node), request.value, call);
        var s' := DeployRow(env, s, id, call, now);
        id in s'.rows && s'.rows[id] == DeployResult(row, ok, now) && FilesOf(s', row.node) == files
  {
    hide BuildPayload, CallDeploy;
  }

  lemma DeployNotSentIs(env: Env, s: State, id: string, call: Call<DeployLuck>, now: Time)
    requires id in s.rows && s.rows[id].node in s.nodes
    ensures var row, node := s.rows[id], s.nodes[s.rows[id].node];
      !node.enabled || BuildPayload(env, id, row.asn, row.config, node).Err? ==>
        var s' := DeployRow(env, s, id, call, now);
        id in s'.rows && s'.rows[id] == DeployResult(row, false, now)
  {
    hide BuildPayload, CallDeploy;
  }

  lemma DeployShows(env: Env, host: Host, files: Files, id: string, row: Row, node: Node, request: DeployRequest, call: Call<DeployLuck>)
    requires SeparateDirs(host) && BuildPayload(env, id, row.asn, row.config, node) == Ok(request)
    ensures var (after, ok) := CallDeploy(host, files, request, call);
      ok ==> RouterShows(env, host, after, id, row.asn, row.config, node)
  {
    hide BuildPayload, CallDeploy, Held, RouterShows, SeparateDirs, OthersUntouched, TrimSpace;
    DeployHolds(host, files, request, call);
    if CallDeploy(host, files, request, call).1 {
      HeldShows(env, host, CallDeploy(host, files, request, call).0, id, row.asn, row.config, node, request);
    }
  }

  // A deployment marks the row deployed exactly when the node acknowledges it, with the date and the
  // files to show for it; the row's own values stay.
  lemma DeployOutcome(env: Env, s: State, id: string, call: Call<DeployLuck>, now: Time)
    requires id in s.rows && s.rows[id].node in s.nodes && DirectoriesDistinct(env)
    ensures var row, node := s.rows[id], s.nodes[s.rows[id].node];
      var s' := DeployRow(env, s, id, call, now);
      && id in s'.rows
      && s'.rows[id] == (if DeployAcked(env, id, row, node, call) then row.(deployment := Deployed, deployedAt := At(now))
                         else row.(deployment := Failed, deployedAt := Never))
      && (DeployAcked(env, id, row, node, call) ==>
            RouterShows(env, env.hosts(row.node), FilesOf(s', row.node), id, row.asn, row.config, node))
  {
    var row, node := s.rows[id], s.nodes[s.rows[id].node];
    var host, files := env.hosts(row.node), FilesOf(s, row.node);
    var request := BuildPayload(env, id, row.asn, row.config, node);
    assert SeparateDirs(host);
    hide BuildPayload, DeploySucceeds, CallDeploy, RouterShows, DirectoriesDistinct, SeparateDirs, FilesOf;
    if node.enabled && request.Ok? {
      DeploySentIs(env, s, id, call, now);
      hide DeployRow, Held;
      CallAnswer(host, files, request.value, call);
      DeployShows(env, host, files, id, row, node, request.value, call);
    } else {
      DeployNotSentIs(env, s, id, call, now);
      hide DeployRow;
    }
  }

  lemma CallAnswer(host: Host, files: Files, request: DeployRequest, call: Call<DeployLuck>)
    ensures CallDeploy(host, files, request, call).1 <==> call.Replied? && DeploySucceeds(host, request, call.luck)
  {
    hide DeployFiles, DeploySucceeds;
    if call.Replied? {
      NodeAnswers(host, files, request, call.luck, RemoveRequest("", ""), RemoveLuck(true, true, true));
    }
  }

  lemma RemoveAnswer(host: Host, files: Files, id: string, asn: string, node: Node, call: Call<RemoveLuck>)
    ensures CallRemove(host, files, id, asn, node, call).1 <==> RemoveAcked(id, asn, node, call)
  {
    hide RemoveFiles, RemoveSucceeds, ProtocolName;
    if call.Replied? && ProtocolName(asn, id).Ok? {
      NodeAnswers(host, files, SMALL_REQUEST, DeployLuck(Written, Written, true, true, true),
                  RemoveRequest(id, ProtocolName(asn, id).value), call.luck);
    }
  }

  // A removal marks the row removed exactly when the node acknowledges it, and then neither file is
  // left; otherwise the row has failed and keeps its date.
  lemma TeardownOutcome(env: Env, s: State, id: string, call: Call<RemoveLuck>)
    requires id in s.rows && s.rows[id].node in s.nodes
    ensures var row, node := s.rows[id], s.nodes[s.rows[id].node];
      var s' := TeardownRow(env, s, id, call);
      && id in s'.rows
      && s'.rows[id] == (if RemoveAcked(id, row.asn, node, call) then row.(deployment := Removed, deployedAt := Never)
                         else row.(deployment := Failed))
      && (RemoveAcked(id, row.asn, node, call) ==> Gone(env.hosts(row.node), FilesOf(s', row.node), row.asn, id))
  {
    var row, node := s.rows[id], s.nodes[s.rows[id].node];
    hide CallRemove, RemoveAcked, Gone;
    RemoveAnswer(env.hosts(row.node), FilesOf(s, row.node), id, row.asn, node, call);
    if RemoveAcked(id, row.asn, node, call) {
      RemoveLeavesNothing(env.hosts(row.node), FilesOf(s, row.node), id, row.asn, node, call);
    }
  }

  // ----- the operations -----

  // The form, for a peer of this ASN on this node, is accepted with these values.
  ghost predicate AcceptedAs(env: Env, asn: string, node: Node, input: Input, v: Values) {
    var ctx := Context(asn, node.asn, env.localAsn, env.rules);
    FollowsForm(ctx, input, v) && Acceptable(ctx, v) && !(input.ipv4.Blank? && input.ipv6.Blank? && input.peerLink.Blank?)
  }

  // A blank MTU in an edit keeps the one the row has.
  function EditForm(input: Input, row: Row): Input {
    if input.mtu.NoMtu? then input.(mtu := MtuNumber(row.config.mtu)) else input
  }

  // No other row of this ASN points at this node.
  ghost predicate PlaceFree(s: State, n: NodeId, asn: string, id: string) {
    forall i :: i in s.rows && i != id ==> s.rows[i].node != n || s.rows[i].asn != asn
  }

  lemma FreeIsNotTaken(s: State, n: NodeId, asn: string, id: string)
    ensures PlaceFree(s, n, asn, id) <==> !TakenByOther(s, n, asn, id)
    ensures id !in s.rows ==> (PlaceFree(s, n, asn, id) <==> !Taken(s, n, asn))
  {
  }

  ghost predicate EditAccepted(env: Env, s: State, id: string, change: Change, v: Values)
    requires id in s.rows && change.node in s.nodes
  {
    && (change.status.Approved? || change.status.Disabled?)
    && PlaceFree(s, change.node, s.rows[id].asn, id)
    && AcceptedAs(env, s.rows[id].asn, s.nodes[change.node], EditForm(change.input, s.rows[id]), v)
  }

  lemma EditedIs(env: Env, s: State, id: string, change: Change, v: Values)
    requires id in s.rows && change.node in s.nodes
    ensures Edited(env, s, id, change) == Ok(v) <==> EditAccepted(env, s, id, change, v)
  {
    var row := s.rows[id];
    FreeIsNotTaken(s, change.node, row.asn, id);
    hide Normalize, FollowsForm, Acceptable, TakenByOther, PlaceFree;
    FormAccepted(Context(row.asn, s.nodes[change.node].asn, env.localAsn, env.rules), EditForm(change.input, row), v);
    assert EditForm(change.input, row) == change.input.(mtu := if change.input.mtu.NoMtu? then MtuNumber(row.config.mtu) else change.input.mtu);
  }

  lemma EditRefused(env: Env, s: State, id: string, change: Change)
    requires id in s.rows && change.node in s.nodes
    ensures Edited(env, s, id, change) == Err(BadStatus) <==> change.status.Other?
    ensures Edited(env, s, id, change) == Err(Duplicate) <==> !change.status.Other? && !PlaceFree(s, change.node, s.rows[id].asn, id)
  {
    FreeIsNotTaken(s, change.node, s.rows[id].asn, id);
    hide Normalize, TakenByOther, PlaceFree;
  }

  // The row an accepted edit asks for.
  function EditedRow(row: Row, change: Change, v: Values): Row {
    row.(node := change.node, config := v, status := change.status)
  }

  // An edit is carried out exactly when its status is one a peer may have, no other row has its place
  // and its form is accepted, and else refused for the first of these. The row then has the form's values, node and status, and is removed or
  // deployed exactly when that was asked for and acknowledged.
  lemma UpdateOutcome(env: Env, s: State, id: string, change: Change, calls: Calls, now: Time, v: Values)
    requires Enabled(s, Op.Update(id, change, calls, now)) && DirectoriesDistinct(env)
    ensures var answer := UpdatePeer(env, s, id, change, calls, now).1;
      && (answer.Done? <==> exists w :: EditAccepted(env, s, id, change, w))
      && (answer == Refused(BadStatus) <==> change.status.Other?)
      && (answer == Refused(Duplicate) <==> !change.status.Other? && !PlaceFree(s, change.node, s.rows[id].asn, id))
    ensures EditAccepted(env, s, id, change, v) ==>
      var s', row, node := UpdatePeer(env, s, id, change, calls, now).0, EditedRow(s.rows[id], change, v), s.nodes[change.node];
      && id in s'.rows
      && s'.rows[id] ==
           if change.status.Disabled? then
             (if RemoveAcked(id, row.asn, node, calls.teardown) then row.(deployment := Removed, deployedAt := Never) else row.(deployment := Failed))
           else if change.redeploy then
             (if DeployAcked(env, id, row, node, calls.deploy) then row.(deployment := Deployed, deployedAt := At(now))
              else row.(deployment := Failed, deployedAt := Never))
           else row
  {
    hide EditAccepted, Edited, PlaceFree, DeployAcked, RemoveAcked, DeployRow, TeardownRow, CallRemove, DirectoriesDistinct;
    EditedIs(env, s, id, change, v);
    EditRefused(env, s, id, change);
    if Edited(env, s, id, change).Ok? {
      EditedIs(env, s, id, change, Edited(env, s, id, change).value);
    }
    forall w | EditAccepted(env, s, id, change, w)
      ensures Edited(env, s, id, change) == Ok(w)
    {
      EditedIs(env, s, id, change, w);
    }
    if EditAccepted(env, s, id, change, v) {
      var edited := WithEdit(s, id, change.node, v, change.status);
      if change.status.Disabled? {
        TeardownOutcome(env, edited, id, calls.teardown);
      } else if change.redeploy {
        DeployOutcome(env, edited, id, calls.deploy, now);
      }
    }
  }

  // A peer is created exactly when its place is free and its form accepted, with the form's values,
  // and is deployed exactly when the node acknowledges that.
  lemma CreateOutcome(env: Env, s: State, id: string, asn: string, n: NodeId, input: Input, call: Call<DeployLuck>, now: Time, v: Values)
    requires Enabled(s, Op.Create(id, asn, n, input, call, now)) && DirectoriesDistinct(env)
    ensures var answer := CreatePeer(env, s, id, asn, n, input, call, now).1;
      && (answer.Done? <==> PlaceFree(s, n, asn, id) && exists w :: AcceptedAs(env, asn, s.nodes[n], input, w))
      && (answer == Refused(Duplicate) <==> !PlaceFree(s, n, asn, id))
    ensures PlaceFree(s, n, asn, id) && AcceptedAs(env, asn, s.nodes[n], input, v) ==>
      var s' := CreatePeer(env, s, id, asn, n, input, call, now).0;
      var row := Row(asn, n, v, Approved, Deploying, Never);
      && id in s'.rows
      && s'.rows[id] == if DeployAcked(env, id, row, s.nodes[n], call) then row.(deployment := Deployed, deployedAt := At(now))
                        else row.(deployment := Failed)
  {
    var ctx := Context(asn, s.nodes[n].asn, env.localAsn, env.rules);
    FreeIsNotTaken(s, n, asn, id);
    hide FollowsForm, Acceptable, Normalize, Taken, PlaceFree, DeployAcked, DeployRow, DirectoriesDistinct;
    FormAccepted(ctx, input, v);
    if Normalize(ctx, input).Ok? {
      FormAccepted(ctx, input, Normalize(ctx, input).value);
      assert AcceptedAs(env, asn, s.nodes[n], input, Normalize(ctx, input).value);
    }
    forall w | AcceptedAs(env, asn, s.nodes[n], input, w)
      ensures Normalize(ctx, input) == Ok(w)
    {
      FormAccepted(ctx, input, w);
    }
    if PlaceFree(s, n, asn, id) && AcceptedAs(env, asn, s.nodes[n], input, v) {
      DeployOutcome(env, s.(rows := s.rows[id := Row(asn, n, v, Approved, Deploying, Never)]), id, call, now);
    }
  }

  // Exactly the approved peers are redeployed, with the values they have.
  lemma RedeployOutcome(env: Env, s: State, id: string, call: Call<DeployLuck>, now: Time)
    requires Enabled(s, Op.Redeploy(id, call, now)) && DirectoriesDistinct(env)
    ensures var (s', answer) := RedeployPeer(env, s, id, call, now);
      var row, node := s.rows[id], s.nodes[s.rows[id].node];
      && (answer.Done? <==> row.status.Approved?) && (answer.Refused? ==> s' == s)
      && (answer.Done? ==>
            && id in s'.rows
            && s'.rows[id] == if DeployAcked(env, id, row, node, call) then row.(deployment := Deployed, deployedAt := At(now))
                              else row.(deployment := Failed, deployedAt := Never))
  {
    hide DeployRow, DeployAcked, DirectoriesDistinct;
    DeployOutcome(env, s, id, call, now);
  }

  lemma DeleteLeaves(env: Env, s: State, id: string, call: Call<RemoveLuck>)
    requires Enabled(s, Op.Delete(id, call))
    ensures var s' := DeletePeer(env, s, id, call);
      var row, node := s.rows[id], s.nodes[s.rows[id].node];
      && s'.rows == s.rows - {id} && s'.nodes == s.nodes
      && (forall m :: m != row.node ==> FilesOf(s', m) == FilesOf(s, m))
      && FilesOf(s', row.node) == CallRemove(env.hosts(row.node), FilesOf(s, row.node), id, row.asn, node, call).0
  {
    hide CallRemove;
  }

  // A deleted peer's row is gone, no other row changes, and if the removal took effect so are its files.
  lemma DeleteOutcome(env: Env, s: State, id: string, call: Call<RemoveLuck>)
    requires Enabled(s, Op.Delete(id, call))
    ensures var s' := DeletePeer(env, s, id, call);
      var row, node := s.rows[id], s.nodes[s.rows[id].node];
      && s'.rows == s.rows - {id} && s'.nodes == s.nodes
      && (forall m :: m != row.node ==> FilesOf(s', m) == FilesOf(s, m))
      && (RemoveAcked(id, row.asn, node, call) ==> Gone(env.hosts(row.node), FilesOf(s', row.node), row.asn, id))
  {
    var row, node := s.rows[id], s.nodes[s.rows[id].node];
    hide CallRemove, RemoveAcked, Gone, FilesOf;
    DeleteLeaves(env, s, id, call);
    hide DeletePeer;
    RemoveAnswer(env.hosts(row.node), FilesOf(s, row.node), id, row.asn, node, call);
    if RemoveAcked(id, row.asn, node, call) {
      RemoveLeavesNothing(env.hosts(row.node), FilesOf(s, row.node), id, row.asn, node, call);
    }
  }

  // A node is deleted exactly when no row points at it, and nothing else changes.
  lemma DeleteNodeOutcome(s: State, n: NodeId)
    ensures var (s', answer) := DeleteNode(s, n);
      && (answer.Done? <==> forall i :: i in s.rows ==> s.rows[i].node != n)
      && s' == if answer.Done? then s.(nodes := s.nodes - {n}) else s
  {
  }
}
