/**
The files on the routers over whole runs: peers of one node never touch each other's files, and no
file outlives the row it belongs to as long as removals reach the router.
*/
module RouterFiles {
  import opened Text
  import opened PeerNames
  import opened PeerInput
  import opened Runner
  import opened Lifecycle
  import opened PeerState
  import opened DeployedRows

  // ----- neighbours -----

  // The row an operation is about.
  predicate About(op: Op, id: string) {
    match op
    case Create(i, _, _, _, _, _) => i == id
    case Update(i, _, _, _) => i == id
    case Redeploy(i, _, _) => i == id
    case Delete(i, _) => i == id
    case _ => false
  }

  // Every file of this name reads as before.
  ghost predicate Kept(before: Files, after: Files, name: string) {
    forall dir ::
      && (FilePath(dir, name) in after <==> FilePath(dir, name) in before)
      && (FilePath(dir, name) in after ==> after[FilePath(dir, name)] == before[FilePath(dir, name)])
  }

  lemma UntouchedKept(before: Files, after: Files, other: string, name: string)
    requires OthersUntouched(before, after, other) && SafeName(name) && name != other
    ensures Kept(before, after, name)
  {
    hide FilePath, SafeName;
  }

  lemma KeptThenKept(first: Files, second: Files, third: Files, name: string)
    requires Kept(first, second, name) && Kept(second, third, name)
    ensures Kept(first, third, name)
  {
    hide FilePath;
  }

  // The files of a row's name on its node read as before.
  ghost predicate RowKept(s: State, s': State, row: Row, j: string) {
    NameOf(row.asn, j).Ok? && SafeName(NameOf(row.asn, j).value) ==>
      Kept(FilesOf(s, row.node), FilesOf(s', row.node), NameOf(row.asn, j).value)
  }

  lemma SameFilesKept(s: State, s': State, row: Row, j: string)
    requires FilesOf(s', row.node) == FilesOf(s, row.node)
    ensures RowKept(s, s', row, j)
  {
    hide FilesOf, FilePath, SafeName, NameOf;
  }

  lemma CommandSparesRow(s: State, s': State, n: NodeId, asn: string, id: string, row: Row, j: string)
    requires FileChange(s, s', n, asn, id) && (row.node == n ==> !Clash(asn, id, row, j))
    ensures RowKept(s, s', row, j)
  {
    hide FilesOf, OthersUntouched, SafeName, Kept, ProtocolName;
    if row.node == n && NameOf(asn, id).Ok? {
      if NameOf(row.asn, j).Ok? && SafeName(NameOf(row.asn, j).value) {
        UntouchedKept(FilesOf(s, n), FilesOf(s', n), NameOf(asn, id).value, NameOf(row.asn, j).value);
      }
    } else {
      SameFilesKept(s, s', row, j);
    }
  }

  lemma RowKeptThenKept(s0: State, s1: State, s2: State, row: Row, j: string)
    requires RowKept(s0, s1, row, j) && RowKept(s1, s2, row, j)
    ensures RowKept(s0, s2, row, j)
  {
    hide FilesOf, Kept, SafeName, NameOf;
    if NameOf(row.asn, j).Ok? && SafeName(NameOf(row.asn, j).value) {
      KeptThenKept(FilesOf(s0, row.node), FilesOf(s1, row.node), FilesOf(s2, row.node), NameOf(row.asn, j).value);
    }
  }

  lemma SettleSparesRow(env: Env, s: State, id: string, redeploy: bool, calls: Calls, now: Time, j: string)
    requires id in s.rows && s.rows[id].node in s.nodes && DirectoriesDistinct(env) && NamesDistinct(s)
    requires j in s.rows && j != id
    ensures RowKept(s, Settle(env, s, id, redeploy, calls, now), s.rows[j], j)
  {
    hide DeployRow, TeardownRow, FileChange, RowKept, DirectoriesDistinct, Clash, RowHeld;
    var s' := Settle(env, s, id, redeploy, calls, now);
    if s.rows[id].status.Disabled? {
      TeardownFileChange(env, s, id, calls.teardown);
      CommandSparesRow(s, s', s.rows[id].node, s.rows[id].asn, id, s.rows[j], j);
    } else if redeploy {
      DeployFileChange(env, s, id, calls.deploy, now);
      CommandSparesRow(s, s', s.rows[id].node, s.rows[id].asn, id, s.rows[j], j);
    } else {
      SameFilesKept(s, s', s.rows[j], j);
    }
  }

  lemma UpdateSparesRow(env: Env, s: State, id: string, change: Change, calls: Calls, now: Time, j: string)
    requires Enabled(s, Op.Update(id, change, calls, now)) && DirectoriesDistinct(env) && j in s.rows && j != id
    requires NamesDistinct(s) && NamesDistinct(UpdatePeer(env, s, id, change, calls, now).0)
    ensures RowKept(s, UpdatePeer(env, s, id, change, calls, now).0, s.rows[j], j)
  {
    hide Settle, Clash, Edited, DirectoriesDistinct, CallRemove, RowKept, FilesOf;
    var s' := UpdatePeer(env, s, id, change, calls, now).0;
    var row := s.rows[j];
    if Edited(env, s, id, change).Ok? {
      var edited := WithEdit(s, id, change.node, Edited(env, s, id, change).value, change.status);
      var settled := Settle(env, edited, id, change.redeploy, calls, now);
      SettleChangesRow(env, edited, id, change.redeploy, calls, now);
      assert s'.rows == settled.rows && settled.rows[j] == row && edited.rows[j] == row;
      assert OneRowChanged(s, settled, id, change.node);
      SamePlacement(s', edited);
      SameFiles(s, edited, row, j);
      SettleSparesRow(env, edited, id, change.redeploy, calls, now, j);
      hide WithEdit;
      RowKeptThenKept(s, edited, settled, row, j);
      if s.rows[id].node != change.node {
        hide NamesDistinct, RemoveFrom, Settle, UpdatePeer;
        LeavingSparesRow(env, s, settled, id, change.node, calls.orphan, j);
        RowKeptThenKept(s, settled, s', row, j);
      }
    } else {
      SameFiles(s, s', row, j);
    }
  }

  lemma LeavingSparesRow(env: Env, s: State, settled: State, id: string, n: NodeId, call: Call<RemoveLuck>, j: string)
    requires NamesDistinct(s) && OneRowChanged(s, settled, id, n) && s.rows[id].node != n && s.rows[id].node in settled.nodes
    requires j in s.rows && j != id
    ensures RowKept(settled, RemoveFrom(env, settled, id, s.rows[id].asn, s.rows[id].node, call), s.rows[j], j)
  {
    hide Clash, RowKept, FileChange, RemoveFrom;
    FormerNeighbours(s, settled, id, n);
    hide NamesDistinct;
    RemoveFromFileChange(env, settled, id, s.rows[id].asn, s.rows[id].node, call);
    CommandSparesRow(settled, RemoveFrom(env, settled, id, s.rows[id].asn, s.rows[id].node, call), s.rows[id].node, s.rows[id].asn, id, s.rows[j], j);
  }

  lemma SameFiles(s: State, s': State, row: Row, j: string)
    requires s'.files == s.files
    ensures RowKept(s, s', row, j)
  {
    hide RowKept;
    SameFilesKept(s, s', row, j);
  }

  lemma CreateSparesRow(env: Env, s: State, id: string, asn: string, n: NodeId, input: Input, call: Call<DeployLuck>, now: Time, j: string)
    requires Enabled(s, Op.Create(id, asn, n, input, call, now)) && DirectoriesDistinct(env) && j in s.rows
    requires NamesDistinct(CreatePeer(env, s, id, asn, n, input, call, now).0)
    ensures RowKept(s, CreatePeer(env, s, id, asn, n, input, call, now).0, s.rows[j], j)
  {
    hide Normalize, Taken, DeployRow, RowKept, Clash, DirectoriesDistinct, FileChange, FilesOf;
    var (s', answer) := CreatePeer(env, s, id, asn, n, input, call, now);
    if answer.Done? {
      var config := Normalize(Context(asn, s.nodes[n].asn, env.localAsn, env.rules), input).value;
      var added := s.(rows := s.rows[id := Row(asn, n, config, Approved, Deploying, Never)]);
      DeployChangesRow(env, added, id, call, now);
      SamePlacement(s', added);
      SameFiles(s, added, s.rows[j], j);
      DeployFileChange(env, added, id, call, now);
      assert added.rows[id].asn == asn && added.rows[j] == s.rows[j];
      CommandSparesRow(added, s', n, asn, id, s.rows[j], j);
      RowKeptThenKept(s, added, s', s.rows[j], j);
    } else {
      SameFiles(s, s', s.rows[j], j);
    }
  }

  // Whatever is done to one peer, and however it ends, the files of every other peer read as before.
  lemma NeighboursUntouched(env: Env, s: State, op: Op, j: string)
    requires Enabled(s, op) && DirectoriesDistinct(env) && j in s.rows && !About(op, j)
    requires NamesDistinct(s) && NamesDistinct(Step(env, s, op))
    ensures RowKept(s, Step(env, s, op), s.rows[j], j)
  {
    hide CreatePeer, UpdatePeer, DeployRow, RowKept, DirectoriesDistinct, FileChange, CallRemove, FilesOf, Clash, RowHeld;
    var s' := Step(env, s, op);
    match op
    case Create(id, asn, n, input, call, now) => CreateSparesRow(env, s, id, asn, n, input, call, now, j);
    case Update(id, change, calls, now) => UpdateSparesRow(env, s, id, change, calls, now, j);
    case Redeploy(id, call, now) =>
      if s.rows[id].status.Approved? {
        DeployFileChange(env, s, id, call, now);
        CommandSparesRow(s, s', s.rows[id].node, s.rows[id].asn, id, s.rows[j], j);
      } else {
        SameFiles(s, s', s.rows[j], j);
      }
    case Delete(id, call) =>
      var removed := RemoveFrom(env, s, id, s.rows[id].asn, s.rows[id].node, call);
      RemoveFromFileChange(env, s, id, s.rows[id].asn, s.rows[id].node, call);
      CommandSparesRow(s, removed, s.rows[id].node, s.rows[id].asn, id, s.rows[j], j);
      SameFiles(removed, s', s.rows[j], j);
      RowKeptThenKept(s, removed, s', s.rows[j], j);
    case AddNode(n, _) => NewNodeSparesRow(env, s, op, j);
    case _ => SameFiles(s, s', s.rows[j], j);
  }

  lemma NewNodeSparesRow(env: Env, s: State, op: Op, j: string)
    requires op.AddNode? && Enabled(s, op) && j in s.rows
    ensures RowKept(s, Step(env, s, op), s.rows[j], j)
  {
    hide RowKept;
    SameFilesKept(s, Step(env, s, op), s.rows[j], j);
  }

  // ----- the dn42 block -----

  // A peer with a ten-digit 424242xxxx ASN and a generated id.
  predicate Dn42Peer(asn: string, id: string) { Dn42Asn(asn) && PeerNames.PeerId(id) }

  predicate Dn42Create(op: Op) { op.Create? ==> Dn42Peer(op.asn, op.id) }

  ghost predicate AllDn42(s: State) {
    forall i :: i in s.rows ==> Dn42Peer(s.rows[i].asn, i)
  }

  lemma SafeNameIsTrimmed(name: string)
    requires SafeName(name)
    ensures TrimSpace(name) == name
  {
    var n := |name| - 1;
    assert NameChar(name[0]) && (n > 0 ==> NameChar(name[n]) || name[n] == '-');
    TrimKeepsTrimmed(name);
  }

  lemma Dn42Name(asn: string, id: string)
    requires Dn42Peer(asn, id)
    ensures ProtocolName(asn, id).Ok? && NameOf(asn, id) == ProtocolName(asn, id)
    ensures SafeName(NameOf(asn, id).value) && |NameOf(asn, id).value| <= 15
  {
    DigitsStandAlone(asn);
    hide TrimSpace, AllDigits, SafeName, PeerNames.PeerId;
    DerivedNameIsSafe(asn, id);
    SafeNameIsTrimmed(ProtocolName(asn, id).value);
  }

  lemma Dn42NoClash(asn: string, id: string, row: Row, j: string)
    requires Dn42Peer(asn, id) && Dn42Peer(row.asn, j) && asn != row.asn
    ensures !Clash(asn, id, row, j)
  {
    Dn42Name(asn, id);
    Dn42Name(row.asn, j);
    Dn42Names(asn, id, row.asn, j);
    hide ProtocolName, NameOf;
  }

  lemma Dn42NamesDistinct(s: State)
    requires Placed(s) && AllDn42(s)
    ensures NamesDistinct(s)
  {
    hide Clash, Dn42Peer;
    forall i, j | i in s.rows && j in s.rows && i != j && s.rows[i].node == s.rows[j].node
      ensures !Clash(s.rows[i].asn, i, s.rows[j], j)
    {
      Dn42NoClash(s.rows[i].asn, i, s.rows[j], j);
    }
  }

  lemma StepKeepsDn42(env: Env, s: State, op: Op)
    requires Enabled(s, op) && AllDn42(s) && Dn42Create(op)
    ensures AllDn42(Step(env, s, op))
  {
    hide CreatePeer, UpdatePeer, DeployRow, CallRemove, Dn42Peer, Taken, TakenByOther, Edited;
    match op
    case Create(id, asn, n, input, call, now) => CreateAddsRow(env, s, id, asn, n, input, call, now);
    case Update(id, change, calls, now) => UpdateChangesRow(env, s, id, change, calls, now);
    case Redeploy(id, call, now) => DeployChangesRow(env, s, id, call, now);
    case _ =>
  }

  lemma {:induction false} Dn42RunIsDistinct(env: Env, ops: seq<Op>)
    requires Exec(env, ops).Reached? && forall k :: 0 <= k < |ops| ==> Dn42Create(ops[k])
    ensures AllDn42(Exec(env, ops).state) && AlwaysDistinct(env, ops)
  {
    RunKeepsPlaced(env, ops);
    if ops != [] {
      var n := |ops| - 1;
      Dn42RunIsDistinct(env, ops[..n]);
      hide Placed, Step, Enabled, AllDn42, NamesDistinct, Dn42Create;
      StepKeepsDn42(env, Exec(env, ops[..n]).state, ops[n]);
      Dn42NamesDistinct(Exec(env, ops).state);
    } else {
      Dn42NamesDistinct(Exec(env, ops).state);
    }
  }

  // Different ports of 20000-29999, different names that fit an interface and pass the node's rule,
  // and no file path in common.
  ghost predicate Apart(a: string, i: string, b: string, j: string) {
    && ListenPort(a).Ok? && 20000 <= ListenPort(a).value <= 29999 && ListenPort(a) != ListenPort(b)
    && NameOf(a, i).Ok? && NameOf(b, j).Ok? && NameOf(a, i).value != NameOf(b, j).value
    && SafeName(NameOf(a, i).value) && |NameOf(a, i).value| <= 15
    && forall dir, other :: FilePath(dir, NameOf(a, i).value) != FilePath(other, NameOf(b, j).value)
  }

  lemma Dn42Apart(a: string, i: string, b: string, j: string)
    requires Dn42Peer(a, i) && Dn42Peer(b, j) && a != b
    ensures Apart(a, i, b, j)
  {
    hide NameOf, ListenPort, ProtocolName, SafeName, FilePath, Dn42Asn, PeerNames.PeerId;
    Dn42Ports(a, b);
    Dn42Name(a, i);
    Dn42Name(b, j);
    Dn42Names(a, i, b, j);
    forall dir, other
      ensures FilePath(dir, NameOf(a, i).value) != FilePath(other, NameOf(b, j).value)
    {
      PathInjective(dir, NameOf(a, i).value, other, NameOf(b, j).value);
    }
  }

  // When every peer is of the dn42 block, any two peers of one node are apart in this sense.
  lemma Dn42NeighboursApart(env: Env, ops: seq<Op>, s: State, i: string, j: string)
    requires Exec(env, ops) == Reached(s) && forall k :: 0 <= k < |ops| ==> Dn42Create(ops[k])
    requires i in s.rows && j in s.rows && i != j && s.rows[i].node == s.rows[j].node
    ensures Apart(s.rows[i].asn, i, s.rows[j].asn, j)
  {
    RunKeepsPlaced(env, ops);
    Dn42RunIsDistinct(env, ops);
    hide Exec, AlwaysDistinct, NodesExist, Dn42Create, Dn42Peer, Apart;
    assert Dn42Peer(s.rows[i].asn, i) && Dn42Peer(s.rows[j].asn, j);
    Dn42Apart(s.rows[i].asn, i, s.rows[j].asn, j);
  }
}
