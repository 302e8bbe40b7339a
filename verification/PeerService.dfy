/**
The peer operations as the service runs them: fields are assigned row by row, each operation commits
around its call to the node, and the routers' files change on the way. Every method is proved to do
exactly what the operation of the same name does to the state.
*/
module PeerService {
  import opened Text
  import opened PeerNames
  import opened PeerInput
  import opened Runner
  import opened Lifecycle
  import opened PeerState

  class PeerService {
    const env: Env
    var rows: map<string, Row>
    var nodes: map<NodeId, Node>
    var files: map<NodeId, Files>
    ghost var sent: map<string, Sent>
    ghost var stale: set<string>
    // The peer table at each commit: what every other session could read from then on.
    ghost var commits: seq<map<string, Row>>

    ghost function AsState(): State
      reads this
    {
      State(rows, nodes, files, sent, stale)
    }

    // One row per node and ASN, every row's node exists, and nothing is left uncommitted.
    ghost predicate Valid()
      reads this
    {
      Placed(AsState()) && Committed()
    }

    ghost predicate Committed()
      reads this
    {
      rows == if commits == [] then map[] else commits[|commits| - 1]
    }

    constructor (env: Env)
      ensures Valid() && this.env == env && AsState() == EMPTY && commits == []
    {
      this.env := env;
      rows, nodes, files := map[], map[], map[];
      sent, stale, commits := map[], {}, [];
    }

    // Another peer of this ASN on the node, leaving one id out of account.
    method FindPeerOnNode(n: NodeId, asn: string, exclude: string) returns (found: bool)
      ensures found == TakenByOther(AsState(), n, asn, exclude)
      ensures found <==> exists i :: i in rows && i != exclude && rows[i].node == n && rows[i].asn == asn
    {
      found := false;
      var todo := rows.Keys;
      while todo != {} && !found
        invariant todo <= rows.Keys
        invariant found ==> TakenByOther(AsState(), n, asn, exclude)
        invariant !found ==> forall i :: i in rows.Keys - todo && i != exclude ==> rows[i].node != n || rows[i].asn != asn
        decreases |todo|
      {
        var i :| i in todo;
        found := rows[i].node == n && rows[i].asn == asn && i != exclude;
        todo := todo - {i};
      }
    }

    // Sends a deployment; false when the answer was a failure or never came.
    method SendDeploy(n: NodeId, request: DeployRequest, call: Call<DeployLuck>) returns (ok: bool)
      requires n in files
      modifies `files
      ensures n in files && files == old(files)[n := files[n]]
      ensures (files[n], ok) == CallDeploy(env.hosts(n), old(files)[n], request, call)
    {
      hide DeployFiles;
      if call.Unreached? {
        return false;
      }
      var (after, result) := DeployFiles(env.hosts(n), files[n], request, call.luck);
      files := files[n := after];
      return call.Replied? && result.ok;
    }

    method SendRemove(n: NodeId, id: string, asn: string, call: Call<RemoveLuck>) returns (ok: bool)
      requires n in nodes && n in files
      modifies `files
      ensures n in files && files == old(files)[n := files[n]]
      ensures (files[n], ok) == CallRemove(env.hosts(n), old(files)[n], id, asn, nodes[n], call)
    {
      hide ProtocolName, RemoveFiles;
      ok := false;
      var name := ProtocolName(asn, id);
      if name.Ok? && nodes[n].enabled && !call.Unreached? {
        var (after, result) := RemoveFiles(env.hosts(n), files[n], RemoveRequest(id, name.value), call.luck);
        files := files[n := after];
        ok := call.Replied? && result.ok;
      }
    }

    method ApplyDeployResult(id: string, ok: bool, now: Time)
      requires id in rows
      modifies `rows
      ensures rows == old(rows)[id := DeployResult(old(rows)[id], ok, now)]
    {
      var row := rows[id];
      if ok {
        row := row.(deployment := Deployed);
        row := row.(deployedAt := At(now));
      } else {
        row := row.(deployment := Failed);
        row := row.(deployedAt := Never);
      }
      rows := rows[id := row];
    }

    // The part of a deployment that may raise: the node must be enabled and the payload buildable.
    // While it runs, the row is already visible as being deployed.
    method DeployPeer(id: string, row: Row, node: Node, call: Call<DeployLuck>) returns (ok: bool)
      requires row.node in files
      requires Committed() && id in rows && rows[id].deployment.Deploying?
      modifies `files, `sent
      ensures (files, sent, ok) == AfterDeploy(env, old(files), old(sent), id, row, node, call)
    {
      hide BuildPayload, CallDeploy;
      if !node.enabled {
        return false;
      }
      var request := BuildPayload(env, id, row.asn, row.config, node);
      if request.Err? {
        return false;
      }
      sent := sent[id := Sent(row.node, node, row.config, request.value)];
      ok := SendDeploy(row.node, request.value, call);
    }

    method DeployPeerRequest(id: string, call: Call<DeployLuck>, now: Time)
      requires id in rows && rows[id].node in nodes && rows[id].node in files
      modifies this
      ensures AsState() == DeployRow(env, old(AsState()), id, call, now) && Committed()
      ensures commits == old(commits) + [old(rows)[id := old(rows)[id].(deployment := Deploying)], rows]
    {
      hide AfterDeploy, DeployRow;
      DeployRowIs(env, AsState(), id, call, now);
      var row := rows[id];
      rows := rows[id := row.(deployment := Deploying)];
      commits := commits + [rows];
      var ok := DeployPeer(id, row, nodes[row.node], call);
      stale := stale - {id};
      ApplyDeployResult(id, ok, now);
      assert rows == old(rows)[id := DeployResult(row, ok, now)];
      commits := commits + [rows];
    }

    method TeardownPeerRequest(id: string, call: Call<RemoveLuck>)
      requires id in rows && rows[id].node in nodes && rows[id].node in files
      modifies this
      ensures AsState() == TeardownRow(env, old(AsState()), id, call) && Committed()
      ensures commits == old(commits) + [old(rows), rows]
    {
      hide CallRemove;
      var row := rows[id];
      commits := commits + [rows];
      var ok := SendRemove(row.node, id, row.asn, call);
      if ok {
        row := row.(deployment := Removed);
        row := row.(deployedAt := Never);
      } else {
        row := row.(deployment := Failed);
      }
      rows := rows[id := row];
      commits := commits + [rows];
      stale := stale - {id};
    }

    method AddPeer(id: string, row: Row, call: Call<DeployLuck>, now: Time)
      requires id !in rows && row.node in nodes && row.node in files && row.deployment.Deploying? && row.deployedAt.Never?
      modifies this
      ensures AsState() == DeployRow(env, old(AsState()).(rows := old(rows)[id := row]), id, call, now) && Committed()
      ensures id in rows && rows[id].(deployment := Deploying, deployedAt := Never) == row
      ensures commits == old(commits) + [old(rows)[id := row], rows]
    {
      rows := rows[id := row];
      assert rows[id := rows[id].(deployment := Deploying)] == rows;
      DeployedShape(env, AsState(), id, call, now);
      hide DeployRow;
      DeployPeerRequest(id, call, now);
    }

    method CreatePeer(id: string, asn: string, n: NodeId, input: Input, call: Call<DeployLuck>, now: Time) returns (answer: Answer)
      requires Valid() && Enabled(AsState(), Op.Create(id, asn, n, input, call, now))
      modifies this
      ensures Valid()
      ensures (AsState(), answer) == Lifecycle.CreatePeer(env, old(AsState()), id, asn, n, input, call, now)
      ensures answer.Refused? ==> commits == old(commits)
      ensures answer.Done? ==> id in rows
      ensures answer.Done? ==>
        commits == old(commits) + [old(rows)[id := rows[id].(deployment := Deploying, deployedAt := Never)], rows]
    {
      hide Placed, Normalize, DeployRow;
      CreateStaysPlaced(env, AsState(), id, asn, n, input, call, now);
      var taken := FindPeerOnNode(n, asn, id);
      SameTaken(AsState(), n, asn, id);
      hide Taken, TakenByOther;
      if taken {
        return Refused(Duplicate);
      }
      var values := Normalize(Context(asn, nodes[n].asn, env.localAsn, env.rules), input);
      if values.Err? {
        return Refused(BadInput(values.error));
      }
      AddPeer(id, Row(asn, n, values.value, Approved, Deploying, Never), call, now);
      return Done;
    }

    // Everything that can refuse an edit, before anything is assigned.
    method CheckEdit(id: string, change: Change) returns (r: Result<Values, Refusal>)
      requires id in rows && change.node in nodes
      ensures r == Edited(env, AsState(), id, change)
    {
      hide Normalize, TakenByOther;
      if change.status.Other? {
        return Err(BadStatus);
      }
      var row := rows[id];
      var taken := FindPeerOnNode(change.node, row.asn, id);
      if taken {
        return Err(Duplicate);
      }
      var input := change.input;
      if input.mtu.NoMtu? {
        input := input.(mtu := MtuNumber(row.config.mtu));
      }
      var values := Normalize(Context(row.asn, nodes[change.node].asn, env.localAsn, env.rules), input);
      if values.Err? {
        return Err(BadInput(values.error));
      }
      return Ok(values.value);
    }

    // The accepted edit is assigned, then torn down or deployed, and the former node cleaned up.
    method ApplyEdit(id: string, change: Change, config: Values, calls: Calls, now: Time)
      requires id in rows && change.node in nodes && change.node in files && rows[id].node in nodes && rows[id].node in files
      modifies this
      ensures var before := old(AsState());
        var settled := Settle(env, WithEdit(before, id, change.node, config, change.status), id, change.redeploy, calls, now);
        var former := old(rows)[id].node;
        former in settled.nodes
        && AsState() == if former == change.node then settled
                        else RemoveFrom(env, settled, id, old(rows)[id].asn, former, calls.orphan)
      ensures Committed()
      ensures commits == old(commits) + CommitsOfEdit(WithEdit(old(AsState()), id, change.node, config, change.status).rows, id, change, rows)
    {
      hide CallRemove, DeployRow, TeardownRow;
      var row := rows[id];
      var former := row.node;
      row := row.(node := change.node);
      row := row.(config := config);
      row := row.(status := change.status);
      if rows[id].node != row.node || rows[id].config != row.config {
        stale := stale + {id};
      }
      rows := rows[id := row];
      assert AsState() == WithEdit(old(AsState()), id, change.node, config, change.status);
      label Assigned:
      if change.status.Disabled? {
        TeardownPeerRequest(id, calls.teardown);
        TeardownKeepsFiles(env, old@Assigned(AsState()), id, calls.teardown);
      } else if change.redeploy {
        DeployPeerRequest(id, calls.deploy, now);
        DeployKeepsFiles(env, old@Assigned(AsState()), id, calls.deploy, now);
      } else {
        commits := commits + [rows];
      }
      ghost var settled := AsState();
      assert settled == Settle(env, old@Assigned(AsState()), id, change.redeploy, calls, now);
      if former != change.node {
        var ok := SendRemove(former, id, row.asn, calls.orphan);
        assert AsState() == RemoveFrom(env, settled, id, row.asn, former, calls.orphan);
      }
    }

    method UpdatePeer(id: string, change: Change, calls: Calls, now: Time) returns (answer: Answer)
      requires Valid() && Enabled(AsState(), Op.Update(id, change, calls, now))
      modifies this
      ensures Valid()
      ensures (AsState(), answer) == Lifecycle.UpdatePeer(env, old(AsState()), id, change, calls, now)
      ensures answer.Refused? ==> commits == old(commits)
      ensures answer.Done? ==> Edited(env, old(AsState()), id, change).Ok?
      ensures answer.Done? ==>
        commits == old(commits) + CommitsOfEdit(
             WithEdit(old(AsState()), id, change.node, Edited(env, old(AsState()), id, change).value, change.status).rows, id, change, rows)
    {
      hide Placed, Edited, Settle, WithEdit, RemoveFrom;
      UpdateStaysPlaced(env, AsState(), id, change, calls, now);
      var checked := CheckEdit(id, change);
      if checked.Err? {
        return Refused(checked.error);
      }
      ApplyEdit(id, change, checked.value, calls, now);
      return Done;
    }

    method RedeployPeer(id: string, call: Call<DeployLuck>, now: Time) returns (answer: Answer)
      requires Valid() && Enabled(AsState(), Op.Redeploy(id, call, now))
      modifies this
      ensures Valid()
      ensures (AsState(), answer) == Lifecycle.RedeployPeer(env, old(AsState()), id, call, now)
      ensures answer.Refused? ==> commits == old(commits)
      ensures answer.Done? ==> commits == old(commits) + [old(rows)[id := old(rows)[id].(deployment := Deploying)], rows]
    {
      StepKeepsPlaced(env, AsState(), Op.Redeploy(id, call, now));
      assert NodesExist(AsState());
      hide Placed;
      hide DeployRow;
      if rows[id].status != Approved {
        return Refused(NotApproved);
      }
      DeployPeerRequest(id, call, now);
      return Done;
    }

    method DeletePeer(id: string, call: Call<RemoveLuck>)
      requires Valid() && Enabled(AsState(), Op.Delete(id, call))
      modifies this
      ensures Valid()
      ensures AsState() == Lifecycle.DeletePeer(env, old(AsState()), id, call)
      ensures commits == old(commits) + [old(rows), rows]
    {
      hide Placed, CallRemove;
      DeleteStaysPlaced(env, AsState(), id, call);
      var row := rows[id];
      commits := commits + [rows];
      var ok := SendRemove(row.node, id, row.asn, call);
      rows := rows - {id};
      commits := commits + [rows];
      stale := stale - {id};
    }

    method DeleteNode(n: NodeId) returns (answer: Answer)
      requires Valid() && n in nodes
      modifies `nodes
      ensures Valid()
      ensures (AsState(), answer) == Lifecycle.DeleteNode(old(AsState()), n)
    {
      StepKeepsPlaced(env, AsState(), Op.DropNode(n));
      hide Placed;
      if exists i :: i in rows && rows[i].node == n {
        return Refused(NodeInUse);
      }
      nodes := nodes - {n};
      return Done;
    }
  }

  // What an edit commits: the edited row before any command is sent, marked as deploying if it is to
  // be deployed, and the outcome after.
  ghost function CommitsOfEdit(edited: map<string, Row>, id: string, change: Change, settled: map<string, Row>): (r: seq<map<string, Row>>)
    requires id in edited
    ensures |r| >= 1 && (r[|r| - 1] == settled || |r| == 1)
  {
    if change.status.Disabled? then [edited, settled]
    else if change.redeploy then [edited[id := edited[id].(deployment := Deploying)], settled]
    else [edited]
  }

  // What one deployment call does to the files and the record of what was sent.
  ghost function AfterDeploy(env: Env, files: map<NodeId, Files>, sent: map<string, Sent>, id: string, row: Row, node: Node,
                             call: Call<DeployLuck>): (map<NodeId, Files>, map<string, Sent>, bool)
    requires row.node in files
  {
    var request := BuildPayload(env, id, row.asn, row.config, node);
    if !node.enabled || request.Err? then (files, sent, false)
    else
      var (after, ok) := CallDeploy(env.hosts(row.node), files[row.node], request.value, call);
      (files[row.node := after], sent[id := Sent(row.node, node, row.config, request.value)], ok)
  }

  lemma DeployRowIs(env: Env, s: State, id: string, call: Call<DeployLuck>, now: Time)
    requires id in s.rows && s.rows[id].node in s.nodes && s.rows[id].node in s.files
    ensures var row := s.rows[id];
      var (files, sent, ok) := AfterDeploy(env, s.files, s.sent, id, row, s.nodes[row.node], call);
      DeployRow(env, s, id, call, now) == State(s.rows[id := DeployResult(row, ok, now)], s.nodes, files, sent, s.stale - {id})
  {
    hide BuildPayload, CallDeploy;
  }

  lemma DeployedShape(env: Env, s: State, id: string, call: Call<DeployLuck>, now: Time)
    requires id in s.rows && s.rows[id].node in s.nodes
    ensures var row := DeployRow(env, s, id, call, now).rows[id];
      s.rows[id].deployment.Deploying? && s.rows[id].deployedAt.Never? ==> row.(deployment := Deploying, deployedAt := Never) == s.rows[id]
  {
    hide BuildPayload, CallDeploy;
  }

  lemma SameTaken(s: State, n: NodeId, asn: string, id: string)
    requires id !in s.rows
    ensures TakenByOther(s, n, asn, id) == Taken(s, n, asn)
  {
  }

  lemma DeleteStaysPlaced(env: Env, s: State, id: string, call: Call<RemoveLuck>)
    requires Placed(s) && Enabled(s, Op.Delete(id, call))
    ensures s.rows[id].node in s.files && Placed(Lifecycle.DeletePeer(env, s, id, call))
  {
    hide Lifecycle.DeletePeer, OnePerNode;
    StepKeepsPlaced(env, s, Op.Delete(id, call));
  }

  lemma UpdateStaysPlaced(env: Env, s: State, id: string, change: Change, calls: Calls, now: Time)
    requires Placed(s) && Enabled(s, Op.Update(id, change, calls, now))
    ensures change.node in s.files && s.rows[id].node in s.files
    ensures Placed(Lifecycle.UpdatePeer(env, s, id, change, calls, now).0)
  {
    hide Lifecycle.UpdatePeer, OnePerNode;
    StepKeepsPlaced(env, s, Op.Update(id, change, calls, now));
  }

  lemma CreateStaysPlaced(env: Env, s: State, id: string, asn: string, n: NodeId, input: Input, call: Call<DeployLuck>, now: Time)
    requires Placed(s) && Enabled(s, Op.Create(id, asn, n, input, call, now))
    ensures n in s.files
    ensures Placed(Lifecycle.CreatePeer(env, s, id, asn, n, input, call, now).0)
  {
    hide Lifecycle.CreatePeer, OnePerNode;
    StepKeepsPlaced(env, s, Op.Create(id, asn, n, input, call, now));
  }

  lemma TeardownKeepsFiles(env: Env, s: State, id: string, call: Call<RemoveLuck>)
    requires id in s.rows && s.rows[id].node in s.nodes
    ensures var s' := TeardownRow(env, s, id, call);
      s.files.Keys <= s'.files.Keys && s'.nodes == s.nodes && id in s'.rows && s'.rows[id].asn == s.rows[id].asn
  {
    hide CallRemove;
  }

  lemma DeployKeepsFiles(env: Env, s: State, id: string, call: Call<DeployLuck>, now: Time)
    requires id in s.rows && s.rows[id].node in s.nodes
    ensures var s' := DeployRow(env, s, id, call, now);
      s.files.Keys <= s'.files.Keys && s'.nodes == s.nodes && id in s'.rows && s'.rows[id].asn == s.rows[id].asn
  {
    hide CallDeploy, BuildPayload;
  }
}
