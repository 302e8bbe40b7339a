/**
What a row marked deployed says about the router it points at, in every run of peer operations.
*/
module DeployedRows {
  import opened Text
  import opened PeerNames
  import opened PeerInput
  import opened Placeholder
  import opened Runner
  import opened Lifecycle
  import opened PeerState

  // The name the node files a peer under.
  function NameOf(asn: string, id: string): Result<string, AsnError> {
    match ProtocolName(asn, id)
    case Ok(name) => Ok(TrimSpace(name))
    case Err(e) => Err(e)
  }

  predicate Clash(asn: string, id: string, row: Row, j: string) {
    NameOf(asn, id).Ok? && NameOf(asn, id) == NameOf(row.asn, j)
  }

  // No two peers of one node share a name.
  ghost predicate NamesDistinct(s: State) {
    forall i, j :: i in s.rows && j in s.rows && i != j && s.rows[i].node == s.rows[j].node ==>
      !Clash(s.rows[i].asn, i, s.rows[j], j)
  }

  ghost predicate DirectoriesDistinct(env: Env) {
    forall n :: SeparateDirs(env.hosts(n))
  }

  // A router holds exactly the two files of a deploy request.
  ghost predicate Held(host: Host, files: Files, raw: DeployRequest) {
    var req := TrimRequest(raw);
    var rendered := RenderWireGuardConfig(req.wireGuard, host.privateKey);
    && rendered.Rendered? && SafeName(req.name)
    && WireGuardPath(host, req.name) in files && files[WireGuardPath(host, req.name)] == rendered.text + "\n"
    && BirdPath(host, req.name) in files && files[BirdPath(host, req.name)] == req.bird + "\n"
  }

  // The row's node and values are those of its latest deployment, and the router still holds that.
  ghost predicate RowHeld(env: Env, s: State, i: string)
    requires i in s.rows
  {
    var row := s.rows[i];
    && i in s.sent && s.sent[i].node == row.node && s.sent[i].config == row.config
    && BuildPayload(env, i, row.asn, row.config, s.sent[i].snapshot) == Ok(s.sent[i].request)
    && Held(env.hosts(row.node), FilesOf(s, row.node), s.sent[i].request)
  }

  ghost predicate CurrentRow(env: Env, s: State, i: string)
    requires i in s.rows
  {
    s.rows[i].deployment.Deployed? && i !in s.stale ==> RowHeld(env, s, i)
  }

  ghost predicate CurrentExcept(env: Env, s: State, id: string) {
    forall i :: i in s.rows && i != id ==> CurrentRow(env, s, i)
  }

  ghost predicate CurrentRows(env: Env, s: State) {
    forall i :: i in s.rows ==> CurrentRow(env, s, i)
  }

  // ----- one command and the files of other peers -----

  lemma DeployHolds(host: Host, files: Files, request: DeployRequest, call: Call<DeployLuck>)
    requires SeparateDirs(host)
    ensures var (after, ok) := CallDeploy(host, files, request, call);
      OthersUntouched(files, after, TrimSpace(request.name)) && (ok ==> Held(host, after, request))
  {
    hide TrimSpace, RenderWireGuardConfig, DeployFiles, FilePath, SafeName, OthersUntouched;
    match call
    case Unreached => NothingTouched(files, TrimSpace(request.name));
    case ReplyLost(luck) => DeployWritesItsOwn(host, files, request, luck);
    case Replied(luck) => DeployWritesItsOwn(host, files, request, luck);
  }

  lemma NothingTouched(files: Files, name: string)
    ensures OthersUntouched(files, files, name)
  {
  }

  lemma RemoveSpares(host: Host, files: Files, id: string, asn: string, node: Node, call: Call<RemoveLuck>)
    ensures var after := CallRemove(host, files, id, asn, node, call).0;
      match NameOf(asn, id) case Err(_) => after == files case Ok(name) => OthersUntouched(files, after, name)
  {
    hide TrimSpace, ProtocolName, RemoveFiles, OthersUntouched;
    match NameOf(asn, id)
    case Err(_) =>
    case Ok(name) =>
      NothingTouched(files, name);
      match call
      case Unreached =>
      case ReplyLost(luck) => RemoveDeletesItsOwn(host, files, RemoveRequest(id, ProtocolName(asn, id).value), luck);
      case Replied(luck) => RemoveDeletesItsOwn(host, files, RemoveRequest(id, ProtocolName(asn, id).value), luck);
  }

  lemma HeldStays(host: Host, before: Files, after: Files, name: string, request: DeployRequest)
    requires OthersUntouched(before, after, name) && Held(host, before, request) && TrimSpace(request.name) != name
    ensures Held(host, after, request)
  {
    hide TrimSpace, RenderWireGuardConfig, SafeName, FilePath;
  }

  // A command for one peer reached one node.
  ghost predicate FileChange(s: State, s': State, n: NodeId, asn: string, id: string) {
    && (forall m :: m != n ==> FilesOf(s', m) == FilesOf(s, m))
    && match NameOf(asn, id)
       case Err(_) => FilesOf(s', n) == FilesOf(s, n)
       case Ok(name) => OthersUntouched(FilesOf(s, n), FilesOf(s', n), name)
  }

  lemma OtherStays(env: Env, s: State, s': State, j: string, n: NodeId, asn: string, id: string)
    requires FileChange(s, s', n, asn, id)
    requires j in s.rows && j in s'.rows && s'.rows[j] == s.rows[j] && (j in s.stale <==> j in s'.stale)
    requires j in s.sent ==> j in s'.sent && s'.sent[j] == s.sent[j]
    requires s.rows[j].node == n ==> !Clash(asn, id, s.rows[j], j)
    requires CurrentRow(env, s, j)
    ensures CurrentRow(env, s', j)
  {
    hide Held, FilesOf, OthersUntouched, BuildPayload;
    var row := s.rows[j];
    if row.deployment.Deployed? && j !in s.stale && row.node == n && NameOf(asn, id).Ok? {
      HeldStays(env.hosts(n), FilesOf(s, n), FilesOf(s', n), NameOf(asn, id).value, s.sent[j].request);
    }
  }

  lemma OthersStay(env: Env, s: State, s': State, n: NodeId, asn: string, id: string)
    requires FileChange(s, s', n, asn, id) && s'.rows.Keys <= s.rows.Keys
    requires forall j :: j in s'.rows && j != id ==> s'.rows[j] == s.rows[j] && (j in s.stale <==> j in s'.stale)
    requires forall j :: j in s.sent && j != id ==> j in s'.sent && s'.sent[j] == s.sent[j]
    requires forall j :: j in s'.rows && j != id && s.rows[j].node == n ==> !Clash(asn, id, s.rows[j], j)
    requires CurrentExcept(env, s, id)
    ensures CurrentExcept(env, s', id)
  {
    hide FileChange, CurrentRow, Clash;
    forall j | j in s'.rows && j != id
      ensures CurrentRow(env, s', j)
    {
      OtherStays(env, s, s', j, n, asn, id);
    }
  }

  // ----- operation by operation -----

  lemma DeployFileChange(env: Env, s: State, id: string, call: Call<DeployLuck>, now: Time)
    requires id in s.rows && s.rows[id].node in s.nodes && DirectoriesDistinct(env)
    ensures FileChange(s, DeployRow(env, s, id, call, now), s.rows[id].node, s.rows[id].asn, id)
    ensures CurrentRow(env, DeployRow(env, s, id, call, now), id)
  {
    hide BuildPayload, CallDeploy, Held, OthersUntouched, ProtocolName, TrimSpace, FileChange, SeparateDirs, FilesOf;
    var row := s.rows[id];
    var node := s.nodes[row.node];
    var request := BuildPayload(env, id, row.asn, row.config, node);
    var s' := DeployRow(env, s, id, call, now);
    if node.enabled && request.Ok? {
      DeployHolds(env.hosts(row.node), FilesOf(s, row.node), request.value, call);
      UpdatedFiles(s, s', row.node, CallDeploy(env.hosts(row.node), FilesOf(s, row.node), request.value, call).0);
      hide DeployRow;
      FilesUpdated(s, s', row.node, FilesOf(s', row.node), row.asn, id);
    } else {
      assert s'.files == s.files;
      hide DeployRow;
      SameFileChange(s, s', row.node, row.asn, id);
    }
  }

  lemma UpdatedFiles(s: State, s': State, n: NodeId, files: Files)
    requires s'.files == s.files[n := files]
    ensures FilesOf(s', n) == files
  {
  }

  lemma SameFileChange(s: State, s': State, n: NodeId, asn: string, id: string)
    requires s'.files == s.files
    ensures FileChange(s, s', n, asn, id)
  {
    hide OthersUntouched, NameOf;
    if NameOf(asn, id).Ok? {
      NothingTouched(FilesOf(s, n), NameOf(asn, id).value);
    }
  }

  lemma DeployLeaves(env: Env, s: State, id: string, call: Call<DeployLuck>, now: Time)
    requires id in s.rows && s.rows[id].node in s.nodes
    ensures var s' := DeployRow(env, s, id, call, now);
      && s'.rows.Keys == s.rows.Keys
      && (forall j :: j in s'.rows && j != id ==> s'.rows[j] == s.rows[j] && (j in s.stale <==> j in s'.stale))
      && (forall j :: j in s.sent && j != id ==> j in s'.sent && s'.sent[j] == s.sent[j])
  {
    hide BuildPayload, CallDeploy;
  }

  lemma DeployKeepsCurrent(env: Env, s: State, id: string, call: Call<DeployLuck>, now: Time)
    requires id in s.rows && s.rows[id].node in s.nodes && DirectoriesDistinct(env)
    requires CurrentExcept(env, s, id) && NamesDistinct(s)
    ensures CurrentRows(env, DeployRow(env, s, id, call, now))
  {
    var s' := DeployRow(env, s, id, call, now);
    DeployLeaves(env, s, id, call, now);
    hide DeployRow, FileChange, CurrentRow, Clash, DirectoriesDistinct;
    DeployFileChange(env, s, id, call, now);
    OthersStay(env, s, s', s.rows[id].node, s.rows[id].asn, id);
  }

  lemma TeardownKeepsCurrent(env: Env, s: State, id: string, call: Call<RemoveLuck>)
    requires id in s.rows && s.rows[id].node in s.nodes
    requires CurrentExcept(env, s, id) && NamesDistinct(s)
    ensures CurrentRows(env, TeardownRow(env, s, id, call))
  {
    var s' := TeardownRow(env, s, id, call);
    TeardownFileChange(env, s, id, call);
    hide TeardownRow, FileChange, RowHeld, Clash;
    OthersStay(env, s, s', s.rows[id].node, s.rows[id].asn, id);
  }

  lemma TeardownFileChange(env: Env, s: State, id: string, call: Call<RemoveLuck>)
    requires id in s.rows && s.rows[id].node in s.nodes
    ensures var s' := TeardownRow(env, s, id, call);
      && FileChange(s, s', s.rows[id].node, s.rows[id].asn, id)
      && s' == s.(rows := s.rows[id := s'.rows[id]], files := s'.files, stale := s.stale - {id})
      && !s'.rows[id].deployment.Deployed?
  {
    hide CallRemove, OthersUntouched, NameOf, FileChange;
    var row := s.rows[id];
    var (files, ok) := CallRemove(env.hosts(row.node), FilesOf(s, row.node), id, row.asn, s.nodes[row.node], call);
    RemoveSpares(env.hosts(row.node), FilesOf(s, row.node), id, row.asn, s.nodes[row.node], call);
    var s' := TeardownRow(env, s, id, call);
    assert s'.files == s.files[row.node := files];
    hide TeardownRow;
    FilesUpdated(s, s', row.node, files, row.asn, id);
  }

  lemma FilesUpdated(s: State, s': State, n: NodeId, files: Files, asn: string, id: string)
    requires s'.files == s.files[n := files]
    requires match NameOf(asn, id) case Err(_) => files == FilesOf(s, n) case Ok(name) => OthersUntouched(FilesOf(s, n), files, name)
    ensures FileChange(s, s', n, asn, id)
  {
    hide OthersUntouched, NameOf;
  }

  lemma RemoveFromFileChange(env: Env, s: State, id: string, asn: string, n: NodeId, call: Call<RemoveLuck>)
    requires n in s.nodes
    ensures var s' := RemoveFrom(env, s, id, asn, n, call);
      FileChange(s, s', n, asn, id) && s' == s.(files := s'.files)
  {
    hide CallRemove, OthersUntouched, NameOf, FileChange;
    RemoveSpares(env.hosts(n), FilesOf(s, n), id, asn, s.nodes[n], call);
    FilesUpdated(s, RemoveFrom(env, s, id, asn, n, call), n, CallRemove(env.hosts(n), FilesOf(s, n), id, asn, s.nodes[n], call).0, asn, id);
  }

  lemma RemoveFromKeepsCurrent(env: Env, s: State, id: string, asn: string, n: NodeId, call: Call<RemoveLuck>)
    requires n in s.nodes && CurrentRows(env, s)
    requires forall j :: j in s.rows && s.rows[j].node == n ==> !Clash(asn, id, s.rows[j], j)
    ensures CurrentRows(env, RemoveFrom(env, s, id, asn, n, call))
  {
    hide RemoveFrom, FileChange, CurrentRow, Clash;
    var s' := RemoveFrom(env, s, id, asn, n, call);
    RemoveFromFileChange(env, s, id, asn, n, call);
    forall j | j in s'.rows
      ensures CurrentRow(env, s', j)
    {
      OtherStays(env, s, s', j, n, asn, id);
    }
  }

  lemma EditKeepsCurrent(env: Env, s: State, id: string, n: NodeId, config: Values, status: Status)
    requires id in s.rows && CurrentRows(env, s)
    ensures CurrentRows(env, WithEdit(s, id, n, config, status))
  {
    hide Held, BuildPayload;
    var s' := WithEdit(s, id, n, config, status);
    forall j | j in s'.rows
      ensures CurrentRow(env, s', j)
    {
      assert CurrentRow(env, s, j);
    }
  }

  lemma SettleKeepsCurrent(env: Env, s: State, id: string, redeploy: bool, calls: Calls, now: Time)
    requires id in s.rows && s.rows[id].node in s.nodes && DirectoriesDistinct(env)
    requires CurrentRows(env, s) && NamesDistinct(s)
    ensures CurrentRows(env, Settle(env, s, id, redeploy, calls, now))
  {
    hide DeployRow, TeardownRow, CurrentRow, NamesDistinct, DirectoriesDistinct;
    if s.rows[id].status.Disabled? {
      TeardownKeepsCurrent(env, s, id, calls.teardown);
    } else if redeploy {
      DeployKeepsCurrent(env, s, id, calls.deploy, now);
    }
  }

  // Only ASNs and nodes decide whether names are distinct.
  lemma SamePlacement(s: State, s': State)
    requires s'.rows.Keys == s.rows.Keys
    requires forall j :: j in s.rows ==> s'.rows[j].asn == s.rows[j].asn && s'.rows[j].node == s.rows[j].node
    requires NamesDistinct(s)
    ensures NamesDistinct(s')
  {
    hide NameOf;
  }

  // Once a peer has left a node, whoever remains there never shared its name.
  lemma FormerNeighbours(s: State, settled: State, id: string, n: NodeId)
    requires NamesDistinct(s) && OneRowChanged(s, settled, id, n) && s.rows[id].node != n
    ensures forall j :: j in settled.rows && settled.rows[j].node == s.rows[id].node ==>
      !Clash(s.rows[id].asn, id, settled.rows[j], j)
  {
    hide Clash;
  }

  lemma UpdateKeepsCurrent(env: Env, s: State, id: string, change: Change, calls: Calls, now: Time)
    requires Enabled(s, Op.Update(id, change, calls, now)) && DirectoriesDistinct(env)
    requires CurrentRows(env, s) && NamesDistinct(s) && NamesDistinct(UpdatePeer(env, s, id, change, calls, now).0)
    ensures CurrentRows(env, UpdatePeer(env, s, id, change, calls, now).0)
  {
    hide Settle, CurrentRows, Clash, Edited, DirectoriesDistinct, CallRemove;
    var s' := UpdatePeer(env, s, id, change, calls, now).0;
    if Edited(env, s, id, change).Ok? {
      var config := Edited(env, s, id, change).value;
      var edited := WithEdit(s, id, change.node, config, change.status);
      var settled := Settle(env, edited, id, change.redeploy, calls, now);
      SettleChangesRow(env, edited, id, change.redeploy, calls, now);
      assert s'.rows == settled.rows;
      assert OneRowChanged(s, settled, id, change.node);
      EditKeepsCurrent(env, s, id, change.node, config, change.status);
      hide WithEdit, RemoveFrom;
      SamePlacement(s', edited);
      SettleKeepsCurrent(env, edited, id, change.redeploy, calls, now);
      hide NamesDistinct;
      if s.rows[id].node != change.node {
        FormerNeighbours(s, settled, id, change.node);
        RemoveFromKeepsCurrent(env, settled, id, s.rows[id].asn, s.rows[id].node, calls.orphan);
      }
    }
  }

  lemma AddedKeepsCurrent(env: Env, s: State, added: State, id: string, call: Call<DeployLuck>, now: Time)
    requires id !in s.rows && id in added.rows && added == s.(rows := s.rows[id := added.rows[id]]) && added.rows[id].node in s.nodes
    requires CurrentRows(env, s) && DirectoriesDistinct(env) && NamesDistinct(DeployRow(env, added, id, call, now))
    ensures CurrentRows(env, DeployRow(env, added, id, call, now))
  {
    hide DeployRow, DirectoriesDistinct, Clash, CurrentRows, NamesDistinct, CurrentExcept;
    DeployChangesRow(env, added, id, call, now);
    SamePlacement(DeployRow(env, added, id, call, now), added);
    AddedKeepsOthers(env, s, added, id);
    DeployKeepsCurrent(env, added, id, call, now);
  }

  lemma CreateKeepsCurrent(env: Env, s: State, id: string, asn: string, n: NodeId, input: Input, call: Call<DeployLuck>, now: Time)
    requires Enabled(s, Op.Create(id, asn, n, input, call, now)) && DirectoriesDistinct(env)
    requires CurrentRows(env, s) && NamesDistinct(CreatePeer(env, s, id, asn, n, input, call, now).0)
    ensures CurrentRows(env, CreatePeer(env, s, id, asn, n, input, call, now).0)
  {
    hide Normalize, Taken, DirectoriesDistinct, Clash, DeployRow;
    if CreatePeer(env, s, id, asn, n, input, call, now).1.Done? {
      var config := Normalize(Context(asn, s.nodes[n].asn, env.localAsn, env.rules), input).value;
      var added := s.(rows := s.rows[id := Row(asn, n, config, Approved, Deploying, Never)]);
      assert CreatePeer(env, s, id, asn, n, input, call, now).0 == DeployRow(env, added, id, call, now);
      hide CreatePeer;
      AddedKeepsCurrent(env, s, added, id, call, now);
    }
  }

  lemma AddedKeepsOthers(env: Env, s: State, added: State, id: string)
    requires id !in s.rows && id in added.rows && added == s.(rows := s.rows[id := added.rows[id]]) && CurrentRows(env, s)
    ensures CurrentExcept(env, added, id)
  {
    hide Held, BuildPayload;
    forall j | j in added.rows && j != id
      ensures CurrentRow(env, added, j)
    {
      assert CurrentRow(env, s, j);
    }
  }

  lemma DeleteKeepsCurrent(env: Env, s: State, id: string, call: Call<RemoveLuck>)
    requires id in s.rows && s.rows[id].node in s.nodes && CurrentRows(env, s) && NamesDistinct(s)
    ensures CurrentRows(env, DeletePeer(env, s, id, call))
  {
    var without := s.(rows := s.rows - {id}, stale := s.stale - {id});
    hide Held, BuildPayload, CallRemove, Clash;
    forall j | j in without.rows
      ensures CurrentRow(env, without, j)
    {
      assert CurrentRow(env, s, j);
    }
    hide CurrentRow;
    RemoveFromKeepsCurrent(env, without, id, s.rows[id].asn, s.rows[id].node, call);
    assert DeletePeer(env, s, id, call) == RemoveFrom(env, without, id, s.rows[id].asn, s.rows[id].node, call);
  }

  lemma NodeOpKeepsCurrent(env: Env, s: State, op: Op)
    requires Enabled(s, op) && (op.AddNode? || op.EditNode? || op.DropNode?) && NodesExist(s) && CurrentRows(env, s)
    ensures CurrentRows(env, Step(env, s, op))
  {
    hide Held, BuildPayload;
    var s' := Step(env, s, op);
    forall j | j in s'.rows
      ensures CurrentRow(env, s', j)
    {
      assert CurrentRow(env, s, j);
    }
  }

  lemma StepKeepsCurrent(env: Env, s: State, op: Op)
    requires Enabled(s, op) && DirectoriesDistinct(env) && Placed(s)
    requires CurrentRows(env, s) && NamesDistinct(s) && NamesDistinct(Step(env, s, op))
    ensures CurrentRows(env, Step(env, s, op))
  {
    hide CreatePeer, UpdatePeer, DeployRow, DeletePeer, CurrentRow, NamesDistinct, DirectoriesDistinct, OnePerNode;
    match op
    case Create(id, asn, n, input, call, now) => CreateKeepsCurrent(env, s, id, asn, n, input, call, now);
    case Update(id, change, calls, now) => UpdateKeepsCurrent(env, s, id, change, calls, now);
    case Redeploy(id, call, now) => if s.rows[id].status.Approved? { DeployKeepsCurrent(env, s, id, call, now); }
    case Delete(id, call) => DeleteKeepsCurrent(env, s, id, call);
    case _ => NodeOpKeepsCurrent(env, s, op);
  }

  // ----- runs -----

  // No state a run passes through has two peers of one node under one name.
  ghost predicate AlwaysDistinct(env: Env, ops: seq<Op>)
    requires Exec(env, ops).Reached?
  {
    NamesDistinct(Exec(env, ops).state) && (ops != [] ==> AlwaysDistinct(env, ops[..|ops| - 1]))
  }

  lemma {:induction false} RunKeepsCurrent(env: Env, ops: seq<Op>)
    requires Exec(env, ops).Reached? && DirectoriesDistinct(env) && AlwaysDistinct(env, ops)
    ensures CurrentRows(env, Exec(env, ops).state)
  {
    if ops != [] {
      var n := |ops| - 1;
      RunKeepsCurrent(env, ops[..n]);
      RunKeepsPlaced(env, ops[..n]);
      DistinctNow(env, ops[..n]);
      hide CurrentRows, NamesDistinct, Placed, Step, Enabled, DirectoriesDistinct;
      StepKeepsCurrent(env, Exec(env, ops[..n]).state, ops[n]);
    }
  }

  lemma DistinctNow(env: Env, ops: seq<Op>)
    requires Exec(env, ops).Reached? && AlwaysDistinct(env, ops)
    ensures NamesDistinct(Exec(env, ops).state)
  {
  }

  // An edit that neither redeploys nor tears down.
  predicate Silent(op: Op) {
    op.Update? && !op.change.redeploy && !op.change.status.Disabled?
  }

  lemma StepAddsNoStale(env: Env, s: State, op: Op)
    requires Enabled(s, op) && s.stale == {} && !Silent(op)
    ensures Step(env, s, op).stale == {}
  {
    hide BuildPayload, CallDeploy, CallRemove, Normalize, Taken, TakenByOther;
  }

  lemma {:induction false} LoudRunsHaveNoStale(env: Env, ops: seq<Op>)
    requires Exec(env, ops).Reached? && forall k :: 0 <= k < |ops| ==> !Silent(ops[k])
    ensures Exec(env, ops).state.stale == {}
  {
    if ops != [] {
      var n := |ops| - 1;
      LoudRunsHaveNoStale(env, ops[..n]);
      hide Step, Enabled;
      StepAddsNoStale(env, Exec(env, ops[..n]).state, ops[n]);
    }
  }

  // When every edit redeploys or tears down, a row marked deployed is one whose router holds the two
  // files of its latest deployment, made from the very values the row has now, lost replies or not.
  lemma DeployedMeansHeld(env: Env, ops: seq<Op>, s: State, i: string)
    requires Exec(env, ops) == Reached(s) && DirectoriesDistinct(env) && AlwaysDistinct(env, ops)
    requires forall k :: 0 <= k < |ops| ==> !Silent(ops[k])
    requires i in s.rows && s.rows[i].deployment.Deployed?
    ensures RowHeld(env, s, i)
  {
    RunKeepsCurrent(env, ops);
    LoudRunsHaveNoStale(env, ops);
    assert CurrentRow(env, s, i);
  }

  lemma SilentEffect(env: Env, s: State, id: string, change: Change, calls: Calls, now: Time)
    requires Enabled(s, Op.Update(id, change, calls, now)) && Silent(Op.Update(id, change, calls, now))
    requires Edited(env, s, id, change).Ok?
    ensures var s' := UpdatePeer(env, s, id, change, calls, now).0;
      && id in s'.rows && s'.sent == s.sent
      && s'.rows[id] == s.rows[id].(node := change.node, config := Edited(env, s, id, change).value, status := change.status)
      && (change.node == s.rows[id].node ==> s'.files == s.files)
  {
    var config := Edited(env, s, id, change).value;
    hide CallRemove, Edited, DeployRow, TeardownRow;
    var edited := WithEdit(s, id, change.node, config, change.status);
    assert Settle(env, edited, id, change.redeploy, calls, now) == edited;
  }

  // A silent edit breaks exactly this, and exactly when it changes the row's node or values.
  lemma SilentEditGoesStale(env: Env, s: State, s': State, id: string, change: Change, calls: Calls, now: Time)
    requires Enabled(s, Op.Update(id, change, calls, now)) && !change.redeploy && !change.status.Disabled?
    requires UpdatePeer(env, s, id, change, calls, now) == (s', Done)
    requires s.rows[id].deployment.Deployed? && RowHeld(env, s, id)
    ensures id in s'.rows && s'.rows[id].deployment.Deployed?
    ensures RowHeld(env, s', id) <==> s'.rows[id].node == s.rows[id].node && s'.rows[id].config == s.rows[id].config
  {
    hide RowHeld, UpdatePeer, Edited;
    UpdateChangesRow(env, s, id, change, calls, now);
    SilentEffect(env, s, id, change, calls, now);
    HeldAgain(env, s, s', id, change.node, Edited(env, s, id, change).value, change.status);
  }

  lemma HeldAgain(env: Env, s: State, s': State, id: string, n: NodeId, config: Values, status: Status)
    requires id in s.rows && id in s'.rows && RowHeld(env, s, id) && s'.sent == s.sent
    requires s'.rows[id] == s.rows[id].(node := n, config := config, status := status)
    requires n == s.rows[id].node ==> s'.files == s.files
    ensures s'.rows[id].deployment == s.rows[id].deployment
    ensures RowHeld(env, s', id) <==> n == s.rows[id].node && config == s.rows[id].config
  {
    hide BuildPayload, Held;
  }
}
