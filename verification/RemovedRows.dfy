/**
What a row marked removed says about the router it points at, in every run of peer operations.
*/
module RemovedRows {
  import opened Text
  import opened PeerNames
  import opened PeerInput
  import opened Runner
  import opened Lifecycle
  import opened PeerState
  import opened DeployedRows
  import opened RouterFiles

  // The router holds neither file of a peer.
  ghost predicate Gone(host: Host, files: Files, asn: string, id: string) {
    && NameOf(asn, id).Ok? && SafeName(NameOf(asn, id).value)
    && WireGuardPath(host, NameOf(asn, id).value) !in files && BirdPath(host, NameOf(asn, id).value) !in files
  }

  ghost predicate GoneRow(env: Env, s: State, i: string)
    requires i in s.rows
  {
    s.rows[i].deployment.Removed? && i !in s.stale ==>
      Gone(env.hosts(s.rows[i].node), FilesOf(s, s.rows[i].node), s.rows[i].asn, i)
  }

  ghost predicate GoneRows(env: Env, s: State) {
    forall i :: i in s.rows ==> GoneRow(env, s, i)
  }

  lemma RemoveLeavesNothing(host: Host, files: Files, id: string, asn: string, node: Node, call: Call<RemoveLuck>)
    requires CallRemove(host, files, id, asn, node, call).1
    ensures Gone(host, CallRemove(host, files, id, asn, node, call).0, asn, id)
  {
    hide TrimSpace, ProtocolName, SafeName, FilePath;
  }

  lemma TeardownGone(env: Env, s: State, id: string, call: Call<RemoveLuck>)
    requires id in s.rows && s.rows[id].node in s.nodes
    ensures GoneRow(env, TeardownRow(env, s, id, call), id)
  {
    hide CallRemove, Gone;
    var row := s.rows[id];
    if CallRemove(env.hosts(row.node), FilesOf(s, row.node), id, row.asn, s.nodes[row.node], call).1 {
      RemoveLeavesNothing(env.hosts(row.node), FilesOf(s, row.node), id, row.asn, s.nodes[row.node], call);
    }
  }

  lemma KeptStaysGone(env: Env, s: State, s': State, j: string)
    requires j in s.rows && j in s'.rows && s'.rows[j] == s.rows[j] && (j in s.stale <==> j in s'.stale)
    requires RowKept(s, s', s.rows[j], j) && GoneRow(env, s, j)
    ensures GoneRow(env, s', j)
  {
    hide FilesOf, FilePath, SafeName, NameOf;
  }

  lemma DeployedNotGone(env: Env, s: State, id: string, call: Call<DeployLuck>, now: Time)
    requires id in s.rows && s.rows[id].node in s.nodes
    ensures GoneRow(env, DeployRow(env, s, id, call, now), id)
  {
    hide BuildPayload, CallDeploy, Gone;
  }

  lemma UpdateGone(env: Env, s: State, id: string, change: Change, calls: Calls, now: Time)
    requires Enabled(s, Op.Update(id, change, calls, now)) && GoneRow(env, s, id)
    ensures var s' := UpdatePeer(env, s, id, change, calls, now).0; id in s'.rows && GoneRow(env, s', id)
  {
    hide DeployRow, TeardownRow, CallRemove, Edited, Gone;
    if Edited(env, s, id, change).Ok? {
      var edited := WithEdit(s, id, change.node, Edited(env, s, id, change).value, change.status);
      var settled := Settle(env, edited, id, change.redeploy, calls, now);
      SettleChangesRow(env, edited, id, change.redeploy, calls, now);
      if change.status.Disabled? {
        TeardownGone(env, edited, id, calls.teardown);
      } else if change.redeploy {
        DeployedNotGone(env, edited, id, calls.deploy, now);
      }
      assert GoneRow(env, settled, id);
      hide Settle, WithEdit;
    }
  }

  // All other rows, and their marks, are as before.
  ghost predicate OthersAlone(s: State, s': State, id: string) {
    forall j :: j in s.rows && j != id ==> j in s'.rows && s'.rows[j] == s.rows[j] && (j in s.stale <==> j in s'.stale)
  }

  lemma DeployAlone(env: Env, s: State, id: string, call: Call<DeployLuck>, now: Time)
    requires id in s.rows && s.rows[id].node in s.nodes
    ensures OthersAlone(s, DeployRow(env, s, id, call, now), id)
  {
    hide BuildPayload, CallDeploy;
  }

  lemma TeardownAlone(env: Env, s: State, id: string, call: Call<RemoveLuck>)
    requires id in s.rows && s.rows[id].node in s.nodes
    ensures OthersAlone(s, TeardownRow(env, s, id, call), id)
  {
    hide CallRemove;
  }

  lemma UpdateAlone(env: Env, s: State, id: string, change: Change, calls: Calls, now: Time)
    requires Enabled(s, Op.Update(id, change, calls, now))
    ensures OthersAlone(s, UpdatePeer(env, s, id, change, calls, now).0, id)
  {
    hide DeployRow, TeardownRow, CallRemove, Edited;
    if Edited(env, s, id, change).Ok? {
      var edited := WithEdit(s, id, change.node, Edited(env, s, id, change).value, change.status);
      DeployAlone(env, edited, id, calls.deploy, now);
      TeardownAlone(env, edited, id, calls.teardown);
    }
  }

  lemma CreateAlone(env: Env, s: State, id: string, asn: string, n: NodeId, input: Input, call: Call<DeployLuck>, now: Time)
    requires Enabled(s, Op.Create(id, asn, n, input, call, now))
    ensures OthersAlone(s, CreatePeer(env, s, id, asn, n, input, call, now).0, id)
  {
    hide DeployRow, Normalize, Taken;
    if CreatePeer(env, s, id, asn, n, input, call, now).1.Done? {
      var config := Normalize(Context(asn, s.nodes[n].asn, env.localAsn, env.rules), input).value;
      DeployAlone(env, s.(rows := s.rows[id := Row(asn, n, config, Approved, Deploying, Never)]), id, call, now);
    }
  }

  // Which other rows and marks an operation leaves alone.
  lemma OthersMarked(env: Env, s: State, op: Op, j: string)
    requires Enabled(s, op) && j in s.rows && !About(op, j)
    ensures var s' := Step(env, s, op);
      j in s'.rows && s'.rows[j] == s.rows[j] && (j in s.stale <==> j in s'.stale)
  {
    hide CreatePeer, UpdatePeer, DeployRow, CallRemove;
    match op
    case Create(id, asn, n, input, call, now) => CreateAlone(env, s, id, asn, n, input, call, now);
    case Update(id, change, calls, now) => UpdateAlone(env, s, id, change, calls, now);
    case Redeploy(id, call, now) => DeployAlone(env, s, id, call, now);
    case _ =>
  }

  lemma OwnRowGone(env: Env, s: State, op: Op, j: string)
    requires Enabled(s, op) && About(op, j) && j in Step(env, s, op).rows && GoneRows(env, s)
    ensures GoneRow(env, Step(env, s, op), j)
  {
    hide DeployRow, UpdatePeer, Gone, CallRemove, Normalize, Taken;
    match op
    case Create(id, asn, n, input, call, now) =>
      if CreatePeer(env, s, id, asn, n, input, call, now).1.Done? {
        var config := Normalize(Context(asn, s.nodes[n].asn, env.localAsn, env.rules), input).value;
        DeployedNotGone(env, s.(rows := s.rows[id := Row(asn, n, config, Approved, Deploying, Never)]), id, call, now);
      }
    case Update(id, change, calls, now) => UpdateGone(env, s, id, change, calls, now);
    case Redeploy(id, call, now) =>
      if s.rows[id].status.Approved? {
        DeployedNotGone(env, s, id, call, now);
      }
    case _ =>
  }

  lemma StepKeepsGone(env: Env, s: State, op: Op)
    requires Enabled(s, op) && DirectoriesDistinct(env) && GoneRows(env, s)
    requires NamesDistinct(s) && NamesDistinct(Step(env, s, op))
    ensures GoneRows(env, Step(env, s, op))
  {
    var s' := Step(env, s, op);
    forall j | j in s'.rows
      ensures GoneRow(env, s', j)
    {
      if About(op, j) {
        OwnRowGone(env, s, op, j);
      } else {
        RowsOnlyCreated(env, s, op, j);
        OthersMarked(env, s, op, j);
        NeighboursUntouched(env, s, op, j);
        hide Step, Enabled, RowKept, NamesDistinct, DirectoriesDistinct;
        KeptStaysGone(env, s, s', j);
      }
    }
  }

  lemma RowsOnlyCreated(env: Env, s: State, op: Op, j: string)
    requires Enabled(s, op) && j in Step(env, s, op).rows && !About(op, j)
    ensures j in s.rows
  {
    hide BuildPayload, CallDeploy, CallRemove, Normalize, Taken, TakenByOther;
  }

  lemma {:induction false} RunKeepsGone(env: Env, ops: seq<Op>, s: State)
    requires Exec(env, ops) == Reached(s) && DirectoriesDistinct(env) && AlwaysDistinct(env, ops)
    ensures GoneRows(env, s)
  {
    if ops != [] {
      var n := |ops| - 1;
      var before := Exec(env, ops[..n]).state;
      RunKeepsGone(env, ops[..n], before);
      DistinctNow(env, ops[..n]);
      hide GoneRows, NamesDistinct, Step, Enabled, DirectoriesDistinct;
      StepKeepsGone(env, before, ops[n]);
    }
  }

  // A row marked removed, unless silently edited since, is one whose router holds neither of its files.
  lemma RemovedMeansGone(env: Env, ops: seq<Op>, s: State, i: string)
    requires Exec(env, ops) == Reached(s) && DirectoriesDistinct(env) && AlwaysDistinct(env, ops)
    requires i in s.rows && s.rows[i].deployment.Removed? && i !in s.stale
    ensures Gone(env.hosts(s.rows[i].node), FilesOf(s, s.rows[i].node), s.rows[i].asn, i)
  {
    RunKeepsGone(env, ops, s);
    assert GoneRow(env, s, i);
  }
}
