/**
No configuration outlives its peer: through creations, moves, disabling, failed deployments and
deletions, every file on every router is named after a row that points at that router, provided the
removals sent for a departing row reach the router.
*/
module Orphans {
  import opened Text
  import opened PeerNames
  import opened PeerInput
  import opened Placeholder
  import opened Runner
  import opened Lifecycle
  import opened PeerState
  import opened DeployedRows

  // One of the two files a router keeps for a peer.
  ghost predicate Named(host: Host, asn: string, id: string, path: string) {
    && NameOf(asn, id).Ok? && SafeName(NameOf(asn, id).value)
    && (path == WireGuardPath(host, NameOf(asn, id).value) || path == BirdPath(host, NameOf(asn, id).value))
  }

  ghost predicate FiledUnder(env: Env, s: State, n: NodeId, path: string, i: string) {
    i in s.rows && s.rows[i].node == n && Named(env.hosts(n), s.rows[i].asn, i, path)
  }

  ghost predicate Accounted(env: Env, s: State, n: NodeId, path: string) {
    exists i :: FiledUnder(env, s, n, path, i)
  }

  ghost predicate NoOrphans(env: Env, s: State) {
    forall n, path :: path in FilesOf(s, n) ==> Accounted(env, s, n, path)
  }

  // The same, but for the files a peer may have left behind on one node.
  ghost predicate NoOrphansBut(env: Env, s: State, from: NodeId, asn: string, id: string) {
    forall n, path :: path in FilesOf(s, n) ==>
      Accounted(env, s, n, path) || (n == from && Named(env.hosts(n), asn, id, path))
  }

  predicate Works(call: Call<RemoveLuck>) {
    !call.Unreached? && call.luck.wireGuard && call.luck.bird
  }

  // ----- commands -----

  lemma DeployFilesAdds(host: Host, files: Files, request: DeployRequest, luck: DeployLuck, path: string)
    requires path in DeployFiles(host, files, request, luck).0
    ensures path in files || (SafeName(TrimSpace(request.name))
      && (path == WireGuardPath(host, TrimSpace(request.name)) || path == BirdPath(host, TrimSpace(request.name))))
  {
    hide TrimSpace, RenderWireGuardConfig, FilePath, ValidSnippet, UnsafeChar, SafeName;
  }

  lemma DeployAdds(env: Env, s: State, id: string, call: Call<DeployLuck>, now: Time, n: NodeId, path: string)
    requires id in s.rows && s.rows[id].node in s.nodes
    requires path in FilesOf(DeployRow(env, s, id, call, now), n)
    ensures path in FilesOf(s, n) || FiledUnder(env, s, n, path, id)
  {
    hide BuildPayload, DeployFiles, TrimSpace, SafeName, WireGuardPath, BirdPath, ProtocolName;
    var row := s.rows[id];
    var request := BuildPayload(env, id, row.asn, row.config, s.nodes[row.node]);
    if path !in FilesOf(s, n) {
      if call.ReplyLost? || call.Replied? {
        DeployFilesAdds(env.hosts(n), FilesOf(s, n), request.value, call.luck, path);
      }
    }
  }

  lemma RemoveClears(host: Host, files: Files, id: string, asn: string, node: Node, call: Call<RemoveLuck>, path: string)
    requires path in CallRemove(host, files, id, asn, node, call).0
    ensures path in files
    ensures id != "" && node.enabled && Works(call) ==> !Named(host, asn, id, path)
  {
    hide TrimSpace, ProtocolName, SafeName, FilePath;
  }

  lemma RemoveFromClears(env: Env, s: State, id: string, asn: string, n: NodeId, call: Call<RemoveLuck>, m: NodeId, path: string)
    requires n in s.nodes && path in FilesOf(RemoveFrom(env, s, id, asn, n, call), m)
    ensures path in FilesOf(s, m)
    ensures id != "" && s.nodes[n].enabled && Works(call) && m == n ==> !Named(env.hosts(n), asn, id, path)
  {
    hide CallRemove, Named;
    if m == n {
      RemoveClears(env.hosts(n), FilesOf(s, n), id, asn, s.nodes[n], call, path);
    }
  }

  lemma TeardownAddsNone(env: Env, s: State, id: string, call: Call<RemoveLuck>, m: NodeId, path: string)
    requires id in s.rows && s.rows[id].node in s.nodes
    requires path in FilesOf(TeardownRow(env, s, id, call), m)
    ensures path in FilesOf(s, m)
  {
    hide CallRemove, Named;
    var row := s.rows[id];
    if m == row.node {
      RemoveClears(env.hosts(m), FilesOf(s, m), id, row.asn, s.nodes[m], call, path);
    }
  }

  // ----- operation by operation -----

  // Rows keep their place, so what was accounted for still is.
  lemma AccountedStays(env: Env, s: State, s': State, n: NodeId, path: string)
    requires Accounted(env, s, n, path)
    requires forall i :: i in s.rows ==> i in s'.rows && s'.rows[i].asn == s.rows[i].asn && s'.rows[i].node == s.rows[i].node
    ensures Accounted(env, s', n, path)
  {
    hide Named;
    var i :| FiledUnder(env, s, n, path, i);
    assert FiledUnder(env, s', n, path, i);
  }

  // Unless it was accounted for by the one row that left.
  lemma AccountedBut(env: Env, s: State, s': State, id: string, n: NodeId, path: string)
    requires Accounted(env, s, n, path) && id in s.rows
    requires forall i :: i in s.rows && i != id ==> i in s'.rows && s'.rows[i] == s.rows[i]
    ensures Accounted(env, s', n, path) || (n == s.rows[id].node && Named(env.hosts(n), s.rows[id].asn, id, path))
  {
    hide Named;
    var i :| FiledUnder(env, s, n, path, i);
    if i != id {
      assert FiledUnder(env, s', n, path, i);
    }
  }

  lemma SettleAdds(env: Env, s: State, id: string, redeploy: bool, calls: Calls, now: Time, n: NodeId, path: string)
    requires id in s.rows && s.rows[id].node in s.nodes
    requires path in FilesOf(Settle(env, s, id, redeploy, calls, now), n)
    ensures path in FilesOf(s, n) || FiledUnder(env, s, n, path, id)
  {
    hide DeployRow, TeardownRow, FilesOf, FiledUnder;
    if s.rows[id].status.Disabled? {
      TeardownAddsNone(env, s, id, calls.teardown, n, path);
    } else if redeploy {
      DeployAdds(env, s, id, calls.deploy, now, n, path);
    }
  }

  lemma LeavingKeepsBut(env: Env, s: State, s': State, id: string)
    requires NoOrphans(env, s) && id in s.rows && s'.files == s.files
    requires forall i :: i in s.rows && i != id ==> i in s'.rows && s'.rows[i] == s.rows[i]
    ensures NoOrphansBut(env, s', s.rows[id].node, s.rows[id].asn, id)
  {
    hide Named, Accounted;
    forall n, path | path in FilesOf(s', n)
      ensures Accounted(env, s', n, path) || (n == s.rows[id].node && Named(env.hosts(n), s.rows[id].asn, id, path))
    {
      AccountedBut(env, s, s', id, n, path);
    }
  }

  lemma SettleKeepsBut(env: Env, s: State, id: string, redeploy: bool, calls: Calls, now: Time, from: NodeId)
    requires id in s.rows && s.rows[id].node in s.nodes && NoOrphansBut(env, s, from, s.rows[id].asn, id)
    ensures NoOrphansBut(env, Settle(env, s, id, redeploy, calls, now), from, s.rows[id].asn, id)
  {
    var s' := Settle(env, s, id, redeploy, calls, now);
    hide Settle, Named, FilesOf, Accounted;
    forall n, path | path in FilesOf(s', n)
      ensures Accounted(env, s', n, path) || (n == from && Named(env.hosts(n), s.rows[id].asn, id, path))
    {
      SettleAccounts(env, s, id, redeploy, calls, now, from, n, path);
    }
  }

  lemma SettleAccounts(env: Env, s: State, id: string, redeploy: bool, calls: Calls, now: Time, from: NodeId, n: NodeId, path: string)
    requires id in s.rows && s.rows[id].node in s.nodes && NoOrphansBut(env, s, from, s.rows[id].asn, id)
    requires path in FilesOf(Settle(env, s, id, redeploy, calls, now), n)
    ensures Accounted(env, Settle(env, s, id, redeploy, calls, now), n, path) || (n == from && Named(env.hosts(n), s.rows[id].asn, id, path))
  {
    hide Settle, Named, FilesOf, Accounted, FiledUnder;
    var s' := Settle(env, s, id, redeploy, calls, now);
    SettleAdds(env, s, id, redeploy, calls, now, n, path);
    if path !in FilesOf(s, n) {
      SomeoneAccounts(env, s, n, path, id);
    }
    hide NoOrphansBut;
    SettleChangesRow(env, s, id, redeploy, calls, now);
    if Accounted(env, s, n, path) {
      AccountedStays(env, s, s', n, path);
    }
  }

  lemma SomeoneAccounts(env: Env, s: State, n: NodeId, path: string, i: string)
    requires FiledUnder(env, s, n, path, i)
    ensures Accounted(env, s, n, path)
  {
    hide FiledUnder;
  }

  lemma RemovalSettlesDebt(env: Env, s: State, id: string, asn: string, n: NodeId, call: Call<RemoveLuck>)
    requires n in s.nodes && s.nodes[n].enabled && Works(call) && id != "" && NoOrphansBut(env, s, n, asn, id)
    ensures NoOrphans(env, RemoveFrom(env, s, id, asn, n, call))
  {
    var s' := RemoveFrom(env, s, id, asn, n, call);
    assert s'.rows == s.rows;
    hide RemoveFrom, Named, FilesOf, Works, Accounted;
    forall m, path | path in FilesOf(s', m)
      ensures Accounted(env, s', m, path)
    {
      RemoveFromClears(env, s, id, asn, n, call, m, path);
      AccountedStays(env, s, s', m, path);
    }
  }

  // A row that stays where it is owes nothing: what it left is still under its name.
  lemma StayingOwesNothing(env: Env, s: State, id: string)
    requires id in s.rows && NoOrphansBut(env, s, s.rows[id].node, s.rows[id].asn, id)
    ensures NoOrphans(env, s)
  {
    hide Named, FilesOf;
    forall n, path | path in FilesOf(s, n)
      ensures Accounted(env, s, n, path)
    {
      if n == s.rows[id].node && Named(env.hosts(n), s.rows[id].asn, id, path) {
        assert FiledUnder(env, s, n, path, id);
      }
    }
  }

  // Every removal sent because a row leaves a node takes effect there.
  ghost predicate Removed(env: Env, s: State, op: Op)
    requires Enabled(s, op)
  {
    match op
    case Update(id, change, calls, _) =>
      Edited(env, s, id, change).Ok? && change.node != s.rows[id].node ==> s.nodes[s.rows[id].node].enabled && Works(calls.orphan)
    case Delete(id, call) => s.nodes[s.rows[id].node].enabled && Works(call)
    case _ => true
  }

  lemma UpdateKeepsNoOrphans(env: Env, s: State, id: string, change: Change, calls: Calls, now: Time)
    requires Enabled(s, Op.Update(id, change, calls, now)) && id != "" && NoOrphans(env, s)
    requires Removed(env, s, Op.Update(id, change, calls, now))
    ensures NoOrphans(env, UpdatePeer(env, s, id, change, calls, now).0)
  {
    hide Settle, Edited, RemoveFrom, Works, NoOrphans, NoOrphansBut;
    if Edited(env, s, id, change).Ok? {
      var row := s.rows[id];
      var edited := WithEdit(s, id, change.node, Edited(env, s, id, change).value, change.status);
      var settled := Settle(env, edited, id, change.redeploy, calls, now);
      LeavingKeepsBut(env, s, edited, id);
      SettleKeepsBut(env, edited, id, change.redeploy, calls, now, row.node);
      SettleChangesRow(env, edited, id, change.redeploy, calls, now);
      if row.node == change.node {
        StayingOwesNothing(env, settled, id);
      } else {
        RemovalSettlesDebt(env, settled, id, row.asn, row.node, calls.orphan);
      }
    }
  }

  lemma DeployKeepsNoOrphans(env: Env, s: State, id: string, call: Call<DeployLuck>, now: Time)
    requires id in s.rows && s.rows[id].node in s.nodes && NoOrphans(env, s)
    ensures NoOrphans(env, DeployRow(env, s, id, call, now))
  {
    var s' := DeployRow(env, s, id, call, now);
    DeployChangesRow(env, s, id, call, now);
    hide DeployRow, FilesOf, Accounted;
    forall n, path | path in FilesOf(s', n)
      ensures Accounted(env, s', n, path)
    {
      DeployAccounts(env, s, id, call, now, n, path);
    }
  }

  lemma DeployAccounts(env: Env, s: State, id: string, call: Call<DeployLuck>, now: Time, n: NodeId, path: string)
    requires id in s.rows && s.rows[id].node in s.nodes && NoOrphans(env, s)
    requires path in FilesOf(DeployRow(env, s, id, call, now), n)
    ensures Accounted(env, DeployRow(env, s, id, call, now), n, path)
  {
    hide DeployRow, FilesOf, Accounted, FiledUnder;
    var s' := DeployRow(env, s, id, call, now);
    DeployAdds(env, s, id, call, now, n, path);
    if path !in FilesOf(s, n) {
      SomeoneAccounts(env, s, n, path, id);
    }
    hide NoOrphans;
    DeployChangesRow(env, s, id, call, now);
    AccountedStays(env, s, s', n, path);
  }

  lemma SameFilesKeepNoOrphans(env: Env, s: State, s': State)
    requires NoOrphans(env, s) && forall n :: FilesOf(s', n) == FilesOf(s, n)
    requires forall i :: i in s.rows ==> i in s'.rows && s'.rows[i].asn == s.rows[i].asn && s'.rows[i].node == s.rows[i].node
    ensures NoOrphans(env, s')
  {
    hide Named, Accounted, FilesOf;
    forall n, path | path in FilesOf(s', n)
      ensures Accounted(env, s', n, path)
    {
      AccountedStays(env, s, s', n, path);
    }
  }

  lemma CreateKeepsNoOrphans(env: Env, s: State, id: string, asn: string, n: NodeId, input: Input, call: Call<DeployLuck>, now: Time)
    requires Enabled(s, Op.Create(id, asn, n, input, call, now)) && NoOrphans(env, s)
    ensures NoOrphans(env, CreatePeer(env, s, id, asn, n, input, call, now).0)
  {
    hide Normalize, Taken, DeployRow, NoOrphans;
    if CreatePeer(env, s, id, asn, n, input, call, now).1.Done? {
      var config := Normalize(Context(asn, s.nodes[n].asn, env.localAsn, env.rules), input).value;
      var added := s.(rows := s.rows[id := Row(asn, n, config, Approved, Deploying, Never)]);
      SameFilesKeepNoOrphans(env, s, added);
      DeployKeepsNoOrphans(env, added, id, call, now);
    }
  }

  lemma DeleteKeepsNoOrphans(env: Env, s: State, id: string, call: Call<RemoveLuck>)
    requires Enabled(s, Op.Delete(id, call)) && id != "" && NoOrphans(env, s)
    requires Removed(env, s, Op.Delete(id, call))
    ensures NoOrphans(env, DeletePeer(env, s, id, call))
  {
    hide Works, NoOrphans, NoOrphansBut, CallRemove;
    var without := s.(rows := s.rows - {id}, stale := s.stale - {id});
    LeavingKeepsBut(env, s, without, id);
    RemovalSettlesDebt(env, without, id, s.rows[id].asn, s.rows[id].node, call);
    assert DeletePeer(env, s, id, call) == RemoveFrom(env, without, id, s.rows[id].asn, s.rows[id].node, call);
  }

  lemma StepKeepsNoOrphans(env: Env, s: State, op: Op)
    requires Enabled(s, op) && Placed(s) && NoOrphans(env, s) && Removed(env, s, op)
    ensures NoOrphans(env, Step(env, s, op))
  {
    hide CreatePeer, UpdatePeer, DeployRow, DeletePeer, NoOrphans, OnePerNode, Works;
    match op
    case Create(id, asn, n, input, call, now) => CreateKeepsNoOrphans(env, s, id, asn, n, input, call, now);
    case Update(id, change, calls, now) => UpdateKeepsNoOrphans(env, s, id, change, calls, now);
    case Redeploy(id, call, now) => if s.rows[id].status.Approved? { DeployKeepsNoOrphans(env, s, id, call, now); }
    case Delete(id, call) => DeleteKeepsNoOrphans(env, s, id, call);
    case _ => SameFilesKeepNoOrphans(env, s, Step(env, s, op));
  }

  // ----- runs -----

  ghost predicate AlwaysRemoved(env: Env, ops: seq<Op>)
    requires Exec(env, ops).Reached?
  {
    ops != [] ==>
      AlwaysRemoved(env, ops[..|ops| - 1]) && Removed(env, Exec(env, ops[..|ops| - 1]).state, ops[|ops| - 1])
  }

  // Every file on every router is named after a row that points at it.
  lemma {:induction false} RunLeavesNoOrphans(env: Env, ops: seq<Op>, s: State)
    requires Exec(env, ops) == Reached(s) && AlwaysRemoved(env, ops)
    ensures NoOrphans(env, s)
  {
    if ops != [] {
      var n := |ops| - 1;
      var before := Exec(env, ops[..n]).state;
      RunLeavesNoOrphans(env, ops[..n], before);
      RunKeepsPlaced(env, ops[..n]);
      hide NoOrphans, Placed, Step, Enabled, Removed;
      StepKeepsNoOrphans(env, before, ops[n]);
    }
  }

  // So a node that may be deleted has a clean router.
  lemma DeletedNodeIsClean(env: Env, ops: seq<Op>, s: State, n: NodeId)
    requires Exec(env, ops) == Reached(s) && AlwaysRemoved(env, ops)
    requires DeleteNode(s, n).1.Done?
    ensures FilesOf(s, n) == map[]
  {
    RunLeavesNoOrphans(env, ops, s);
    hide Exec, Named, FilesOf, AlwaysRemoved;
    assert forall path :: !Accounted(env, s, n, path);
    assert FilesOf(s, n).Keys == {};
  }
}
