/**
The table of peers over whole runs: at most one row per node and ASN, and rows whose nodes exist.
*/
module PeerState {
  import opened PeerNames
  import opened PeerInput
  import opened Runner
  import opened Lifecycle

  // ----- the shape of the table -----

  // One operation changes one row, and of that row neither the ASN nor, but for an edit, the node.
  ghost predicate OneRowChanged(s: State, s': State, id: string, n: NodeId) {
    && id in s.rows && s'.nodes == s.nodes && s'.rows.Keys == s.rows.Keys
    && (forall j :: j in s.rows && j != id ==> s'.rows[j] == s.rows[j])
    && s'.rows[id].asn == s.rows[id].asn && s'.rows[id].node == n
    && s.files.Keys <= s'.files.Keys
  }

  lemma DeployChangesRow(env: Env, s: State, id: string, call: Call<DeployLuck>, now: Time)
    requires id in s.rows && s.rows[id].node in s.nodes
    ensures OneRowChanged(s, DeployRow(env, s, id, call, now), id, s.rows[id].node)
  {
    hide BuildPayload, CallDeploy;
  }

  lemma TeardownChangesRow(env: Env, s: State, id: string, call: Call<RemoveLuck>)
    requires id in s.rows && s.rows[id].node in s.nodes
    ensures OneRowChanged(s, TeardownRow(env, s, id, call), id, s.rows[id].node)
  {
    hide CallRemove;
  }

  lemma SettleChangesRow(env: Env, s: State, id: string, redeploy: bool, calls: Calls, now: Time)
    requires id in s.rows && s.rows[id].node in s.nodes
    ensures OneRowChanged(s, Settle(env, s, id, redeploy, calls, now), id, s.rows[id].node)
  {
    DeployChangesRow(env, s, id, calls.deploy, now);
    TeardownChangesRow(env, s, id, calls.teardown);
    hide DeployRow, TeardownRow;
  }

  lemma UpdateChangesRow(env: Env, s: State, id: string, change: Change, calls: Calls, now: Time)
    requires Enabled(s, Op.Update(id, change, calls, now))
    ensures var (s', answer) := UpdatePeer(env, s, id, change, calls, now);
      && answer == (match Edited(env, s, id, change) case Ok(_) => Done case Err(why) => Refused(why))
      && (answer.Refused? ==> s' == s)
      && (answer.Done? ==> OneRowChanged(s, s', id, change.node) && !TakenByOther(s, change.node, s.rows[id].asn, id))
  {
    hide Settle, Normalize, CallRemove, TakenByOther;
    match Edited(env, s, id, change)
    case Err(_) =>
    case Ok(config) =>
      SettleChangesRow(env, WithEdit(s, id, change.node, config, change.status), id, change.redeploy, calls, now);
  }

  lemma CreateAddsRow(env: Env, s: State, id: string, asn: string, n: NodeId, input: Input, call: Call<DeployLuck>, now: Time)
    requires Enabled(s, Op.Create(id, asn, n, input, call, now))
    ensures var (s', answer) := CreatePeer(env, s, id, asn, n, input, call, now);
      && (answer.Refused? ==> s' == s)
      && (answer.Done? ==>
            && s'.nodes == s.nodes && s.files.Keys <= s'.files.Keys && s'.rows.Keys == s.rows.Keys + {id}
            && (forall j :: j in s.rows ==> s'.rows[j] == s.rows[j])
            && s'.rows[id].asn == asn && s'.rows[id].node == n && !Taken(s, n, asn))
  {
    hide DeployRow, Normalize, Taken;
    match Normalize(Context(asn, s.nodes[n].asn, env.localAsn, env.rules), input)
    case Err(_) =>
    case Ok(config) =>
      DeployChangesRow(env, s.(rows := s.rows[id := Row(asn, n, config, Approved, Deploying, Never)]), id, call, now);
  }

  // At most one row per node and ASN, and every row's node exists.
  ghost predicate OnePerNode(s: State) {
    forall i, j :: i in s.rows && j in s.rows && i != j ==> s.rows[i].node != s.rows[j].node || s.rows[i].asn != s.rows[j].asn
  }

  ghost predicate NodesExist(s: State) {
    (forall i :: i in s.rows ==> s.rows[i].node in s.nodes) && s.nodes.Keys <= s.files.Keys
  }

  ghost predicate Placed(s: State) { OnePerNode(s) && NodesExist(s) && "" !in s.rows }

  lemma OneRowKeepsPlaced(s: State, s': State, id: string, n: NodeId)
    requires Placed(s) && OneRowChanged(s, s', id, n) && n in s.nodes
    requires n == s.rows[id].node || !TakenByOther(s, n, s.rows[id].asn, id)
    ensures Placed(s')
  {
  }

  lemma DeleteKeepsPlaced(env: Env, s: State, id: string, call: Call<RemoveLuck>)
    requires Placed(s) && Enabled(s, Op.Delete(id, call))
    ensures Placed(DeletePeer(env, s, id, call))
  {
    hide CallRemove;
  }

  lemma AddedRowKeepsPlaced(s: State, s': State, id: string, asn: string, n: NodeId)
    requires Placed(s) && id != "" && n in s.nodes && !Taken(s, n, asn)
    requires s'.nodes == s.nodes && s.files.Keys <= s'.files.Keys && s'.rows.Keys == s.rows.Keys + {id}
    requires forall j :: j in s.rows ==> s'.rows[j] == s.rows[j]
    requires s'.rows[id].asn == asn && s'.rows[id].node == n
    ensures Placed(s')
  {
  }

  lemma StepKeepsPlaced(env: Env, s: State, op: Op)
    requires Placed(s) && Enabled(s, op)
    ensures Placed(Step(env, s, op))
  {
    hide CreatePeer, UpdatePeer, DeletePeer, DeployRow;
    match op
    case AddNode(_, _) =>
    case EditNode(_, _) =>
    case DropNode(_) =>
    case Create(id, asn, n, input, call, now) =>
      hide Placed, Taken;
      CreateAddsRow(env, s, id, asn, n, input, call, now);
      if CreatePeer(env, s, id, asn, n, input, call, now).1.Done? {
        AddedRowKeepsPlaced(s, Step(env, s, op), id, asn, n);
      }
    case Update(id, change, calls, now) =>
      hide Placed, TakenByOther, Edited;
      UpdateChangesRow(env, s, id, change, calls, now);
      if UpdatePeer(env, s, id, change, calls, now).1.Done? {
        OneRowKeepsPlaced(s, Step(env, s, op), id, change.node);
      }
    case Redeploy(id, call, now) =>
      hide Placed;
      DeployChangesRow(env, s, id, call, now);
      if s.rows[id].status.Approved? {
        OneRowKeepsPlaced(s, Step(env, s, op), id, s.rows[id].node);
      }
    case Delete(id, call) =>
      hide Placed;
      DeleteKeepsPlaced(env, s, id, call);
  }

  // In every run, whatever the nodes do: one row per node and ASN, and no row without its node.
  lemma {:induction false} RunKeepsPlaced(env: Env, ops: seq<Op>)
    requires Exec(env, ops).Reached?
    ensures Placed(Exec(env, ops).state)
  {
    if ops != [] {
      var n := |ops| - 1;
      RunKeepsPlaced(env, ops[..n]);
      hide Placed, Step, Enabled;
      StepKeepsPlaced(env, Exec(env, ops[..n]).state, ops[n]);
    }
  }

  // ----- what a row's status columns can say -----

  // Between operations no row is left "deploying"; a deployed row is approved and dated, a removed
  // one is not dated, and a disabled one is not deployed.
  predicate Settled(row: Row) {
    && (row.status.Approved? || row.status.Disabled?)
    && (row.deployment.Deployed? || row.deployment.Failed? || row.deployment.Removed?)
    && (row.deployment.Deployed? ==> row.status.Approved? && row.deployedAt.At?)
    && (row.deployment.Removed? ==> row.deployedAt.Never?)
  }

  ghost predicate AllSettled(s: State) {
    forall i :: i in s.rows ==> Settled(s.rows[i])
  }

  lemma DeploySettles(env: Env, s: State, id: string, call: Call<DeployLuck>, now: Time)
    requires id in s.rows && s.rows[id].node in s.nodes && s.rows[id].status.Approved?
    requires forall i :: i in s.rows && i != id ==> Settled(s.rows[i])
    ensures AllSettled(DeployRow(env, s, id, call, now))
  {
    DeployChangesRow(env, s, id, call, now);
    hide BuildPayload, CallDeploy;
  }

  lemma TeardownSettles(env: Env, s: State, id: string, call: Call<RemoveLuck>)
    requires id in s.rows && s.rows[id].node in s.nodes && s.rows[id].status.Disabled?
    requires forall i :: i in s.rows && i != id ==> Settled(s.rows[i])
    ensures AllSettled(TeardownRow(env, s, id, call))
  {
    TeardownChangesRow(env, s, id, call);
    hide CallRemove;
  }

  // A failed removal marks the row failed and leaves the date of its last deployment standing.
  lemma FailedTeardownKeepsDate(env: Env, s: State, id: string, call: Call<RemoveLuck>)
    requires id in s.rows && s.rows[id].node in s.nodes
    ensures var row := TeardownRow(env, s, id, call).rows[id];
      (call.Unreached? || call.ReplyLost? ==> row.deployment.Failed?)
      && (row.deployment.Failed? ==> row.deployedAt == s.rows[id].deployedAt)
  {
    hide RemoveFiles, ProtocolName;
  }

  lemma UpdateSettles(env: Env, s: State, id: string, change: Change, calls: Calls, now: Time)
    requires Enabled(s, Op.Update(id, change, calls, now)) && AllSettled(s)
    ensures AllSettled(UpdatePeer(env, s, id, change, calls, now).0)
  {
    hide DeployRow, TeardownRow, CallRemove, Normalize, TakenByOther;
    if Edited(env, s, id, change).Ok? {
      var edited := WithEdit(s, id, change.node, Edited(env, s, id, change).value, change.status);
      if change.status.Disabled? {
        TeardownSettles(env, edited, id, calls.teardown);
      } else if change.redeploy {
        DeploySettles(env, edited, id, calls.deploy, now);
      }
    }
  }

  lemma StepKeepsSettled(env: Env, s: State, op: Op)
    requires AllSettled(s) && Enabled(s, op)
    ensures AllSettled(Step(env, s, op))
  {
    hide DeployRow, UpdatePeer, CallRemove, Normalize, Taken;
    match op
    case Create(id, asn, n, input, call, now) =>
      if CreatePeer(env, s, id, asn, n, input, call, now).1.Done? {
        var config := Normalize(Context(asn, s.nodes[n].asn, env.localAsn, env.rules), input).value;
        DeploySettles(env, s.(rows := s.rows[id := Row(asn, n, config, Approved, Deploying, Never)]), id, call, now);
      }
    case Update(id, change, calls, now) => UpdateSettles(env, s, id, change, calls, now);
    case Redeploy(id, call, now) => if s.rows[id].status.Approved? { DeploySettles(env, s, id, call, now); }
    case _ =>
  }

  lemma {:induction false} RunKeepsSettled(env: Env, ops: seq<Op>)
    requires Exec(env, ops).Reached?
    ensures AllSettled(Exec(env, ops).state)
  {
    if ops != [] {
      var n := |ops| - 1;
      RunKeepsSettled(env, ops[..n]);
      hide AllSettled, Step, Enabled;
      StepKeepsSettled(env, Exec(env, ops[..n]).state, ops[n]);
    }
  }
}
