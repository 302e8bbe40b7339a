/**
The life of a peer: database rows on one side, the routers' configuration files on the other.
Operations run one at a time. Each commits, sends the node a command, and commits again; the command
may fail, or take effect while its reply is lost.
*/
module Lifecycle {
  import opened Text
  import opened PeerNames
  import opened PeerInput
  import opened TunnelAddress
  import opened Runner

  type NodeId = nat
  type Time = nat

  datatype Moment = Never | At(time: Time)

  datatype Status = Approved | Disabled | Other(text: string)

  datatype Deployment = NotDeployed | Deploying | Deployed | Failed | Removed

  datatype Row = Row(asn: string, node: NodeId, config: Values, status: Status, deployment: Deployment, deployedAt: Moment)

  datatype Node = Node(name: string, asn: string, enabled: bool)

  // The backend's settings, the routers' own, and the two text templates.
  datatype Env = Env(
    localAsn: string,
    rules: HostRules,
    hosts: NodeId -> Host,
    wireGuardText: (string, string, Values, string, nat) -> string,
    birdText: (string, string, Values, string, string) -> string)

  // What was sent when a peer was last deployed, and from which values.
  datatype Sent = Sent(node: NodeId, snapshot: Node, config: Values, request: DeployRequest)

  // `sent` and `stale` are history: they record what happened and decide nothing. A row is stale
  // from an edit that changed its values or node until it is next deployed or torn down.
  datatype State = State(rows: map<string, Row>, nodes: map<NodeId, Node>, files: map<NodeId, Files>,
                         sent: map<string, Sent>, stale: set<string>)

  const EMPTY := State(map[], map[], map[], map[], {})

  // How a command to a node ends, besides what the node itself reports.
  datatype Call<Luck> = Unreached | ReplyLost(luck: Luck) | Replied(luck: Luck)

  datatype DeployError = NoLocalAsn | BadLocalAsn | BadPeerAsn

  datatype Refusal = BadStatus | Duplicate | BadInput(error: InputError) | NotApproved | NodeInUse

  datatype Answer = Done | Refused(why: Refusal)

  // ----- commands to a node -----

  function BuildPayload(env: Env, id: string, asn: string, config: Values, node: Node): (r: Result<DeployRequest, DeployError>)
    ensures r.Ok? ==> ProtocolName(asn, id) == Ok(r.value.name)
  {
    var local := EffectiveAsn(node.asn, env.localAsn);
    if local == "" then Err(NoLocalAsn)
    else
      match NormalizeAsn(local)
      case Err(_) => Err(BadLocalAsn)
      case Ok(number) =>
        match (ProtocolName(asn, id), ListenPort(asn))
        case (Ok(name), Ok(port)) =>
          Ok(DeployRequest(id, asn, node.name, name, env.wireGuardText(id, asn, config, node.name, port),
                           env.birdText(id, asn, config, name, number)))
        case _ => Err(BadPeerAsn)
  }

  function FilesOf(s: State, n: NodeId): Files {
    if n in s.files then s.files[n] else map[]
  }

  function CallDeploy(host: Host, files: Files, request: DeployRequest, call: Call<DeployLuck>): (Files, bool) {
    match call
    case Unreached => (files, false)
    case ReplyLost(luck) => (DeployFiles(host, files, request, luck).0, false)
    case Replied(luck) => var (after, result) := DeployFiles(host, files, request, luck); (after, result.ok)
  }

  // A removal is sent only under a derivable name and to an enabled node.
  function CallRemove(host: Host, files: Files, id: string, asn: string, node: Node, call: Call<RemoveLuck>): (Files, bool) {
    match ProtocolName(asn, id)
    case Err(_) => (files, false)
    case Ok(name) =>
      if !node.enabled then (files, false)
      else
        match call
        case Unreached => (files, false)
        case ReplyLost(luck) => (RemoveFiles(host, files, RemoveRequest(id, name), luck).0, false)
        case Replied(luck) => var (after, result) := RemoveFiles(host, files, RemoveRequest(id, name), luck); (after, result.ok)
  }

  // ----- the operations -----

  predicate Taken(s: State, n: NodeId, asn: string) {
    exists i :: i in s.rows && s.rows[i].node == n && s.rows[i].asn == asn
  }

  predicate TakenByOther(s: State, n: NodeId, asn: string, id: string) {
    exists i :: i in s.rows && s.rows[i].node == n && s.rows[i].asn == asn && i != id
  }

  function DeployResult(row: Row, ok: bool, now: Time): Row {
    row.(deployment := if ok then Deployed else Failed, deployedAt := if ok then At(now) else Never)
  }

  function DeployRow(env: Env, s: State, id: string, call: Call<DeployLuck>, now: Time): State
    requires id in s.rows && s.rows[id].node in s.nodes
  {
    var row := s.rows[id];
    var node := s.nodes[row.node];
    var request := BuildPayload(env, id, row.asn, row.config, node);
    if !node.enabled || request.Err? then
      s.(rows := s.rows[id := DeployResult(row, false, now)], stale := s.stale - {id})
    else
      var (files, ok) := CallDeploy(env.hosts(row.node), FilesOf(s, row.node), request.value, call);
      s.(rows := s.rows[id := DeployResult(row, ok, now)],
         files := s.files[row.node := files],
         sent := s.sent[id := Sent(row.node, node, row.config, request.value)],
         stale := s.stale - {id})
  }

  function TeardownRow(env: Env, s: State, id: string, call: Call<RemoveLuck>): State
    requires id in s.rows && s.rows[id].node in s.nodes
  {
    var row := s.rows[id];
    var (files, ok) := CallRemove(env.hosts(row.node), FilesOf(s, row.node), id, row.asn, s.nodes[row.node], call);
    s.(rows := s.rows[id := if ok then row.(deployment := Removed, deployedAt := Never) else row.(deployment := Failed)],
       files := s.files[row.node := files],
       stale := s.stale - {id})
  }

  // Best effort: whatever comes of it, only the node's files can change.
  function RemoveFrom(env: Env, s: State, id: string, asn: string, n: NodeId, call: Call<RemoveLuck>): State
    requires n in s.nodes
  {
    s.(files := s.files[n := CallRemove(env.hosts(n), FilesOf(s, n), id, asn, s.nodes[n], call).0])
  }

  function CreatePeer(env: Env, s: State, id: string, asn: string, n: NodeId, input: Input, call: Call<DeployLuck>, now: Time): (State, Answer)
    requires id !in s.rows && n in s.nodes
  {
    if Taken(s, n, asn) then (s, Refused(Duplicate))
    else
      match Normalize(Context(asn, s.nodes[n].asn, env.localAsn, env.rules), input)
      case Err(e) => (s, Refused(BadInput(e)))
      case Ok(config) =>
        (DeployRow(env, s.(rows := s.rows[id := Row(asn, n, config, Approved, Deploying, Never)]), id, call, now), Done)
  }

  datatype Change = Change(node: NodeId, input: Input, status: Status, redeploy: bool)

  datatype Calls = Calls(deploy: Call<DeployLuck>, teardown: Call<RemoveLuck>, orphan: Call<RemoveLuck>)

  // The edited values, or why there are none.
  function Edited(env: Env, s: State, id: string, change: Change): Result<Values, Refusal>
    requires id in s.rows && change.node in s.nodes
  {
    var row := s.rows[id];
    if change.status.Other? then Err(BadStatus)
    else if TakenByOther(s, change.node, row.asn, id) then Err(Duplicate)
    else
      var input := change.input.(mtu := if change.input.mtu.NoMtu? then MtuNumber(row.config.mtu) else change.input.mtu);
      match Normalize(Context(row.asn, s.nodes[change.node].asn, env.localAsn, env.rules), input)
      case Err(e) => Err(BadInput(e))
      case Ok(config) => Ok(config)
  }

  function WithEdit(s: State, id: string, n: NodeId, config: Values, status: Status): State
    requires id in s.rows
  {
    var row := s.rows[id];
    s.(rows := s.rows[id := row.(node := n, config := config, status := status)],
       stale := if row.node == n && row.config == config then s.stale else s.stale + {id})
  }

  // The edited row is torn down, deployed, or left alone.
  function Settle(env: Env, s: State, id: string, redeploy: bool, calls: Calls, now: Time): State
    requires id in s.rows && s.rows[id].node in s.nodes
  {
    if s.rows[id].status.Disabled? then TeardownRow(env, s, id, calls.teardown)
    else if redeploy then DeployRow(env, s, id, calls.deploy, now)
    else s
  }

  function UpdatePeer(env: Env, s: State, id: string, change: Change, calls: Calls, now: Time): (State, Answer)
    requires id in s.rows && change.node in s.nodes && s.rows[id].node in s.nodes
  {
    match Edited(env, s, id, change)
    case Err(why) => (s, Refused(why))
    case Ok(config) =>
      var was := s.rows[id];
      var settled := Settle(env, WithEdit(s, id, change.node, config, change.status), id, change.redeploy, calls, now);
      (if was.node == change.node then settled else RemoveFrom(env, settled, id, was.asn, was.node, calls.orphan), Done)
  }

  function RedeployPeer(env: Env, s: State, id: string, call: Call<DeployLuck>, now: Time): (State, Answer)
    requires id in s.rows && s.rows[id].node in s.nodes
  {
    if !s.rows[id].status.Approved? then (s, Refused(NotApproved)) else (DeployRow(env, s, id, call, now), Done)
  }

  function DeletePeer(env: Env, s: State, id: string, call: Call<RemoveLuck>): State
    requires id in s.rows && s.rows[id].node in s.nodes
  {
    var removed := RemoveFrom(env, s, id, s.rows[id].asn, s.rows[id].node, call);
    removed.(rows := removed.rows - {id}, stale := removed.stale - {id})
  }

  function DeleteNode(s: State, n: NodeId): (State, Answer) {
    if exists i :: i in s.rows && s.rows[i].node == n then (s, Refused(NodeInUse)) else (s.(nodes := s.nodes - {n}), Done)
  }

  // ----- runs -----

  datatype Op =
    | AddNode(node: NodeId, values: Node)
    | EditNode(node: NodeId, values: Node)
    | DropNode(node: NodeId)
    | Create(id: string, asn: string, node: NodeId, input: Input, call: Call<DeployLuck>, now: Time)
    | Update(id: string, change: Change, calls: Calls, now: Time)
    | Redeploy(id: string, call: Call<DeployLuck>, now: Time)
    | Delete(id: string, remove: Call<RemoveLuck>)

  // New ids are unused and non-empty, and operations name rows and nodes that exist.
  predicate Enabled(s: State, op: Op) {
    match op
    case AddNode(n, _) => n !in s.nodes && n !in s.files
    case EditNode(n, _) => n in s.nodes
    case DropNode(n) => n in s.nodes
    case Create(id, _, n, _, _, _) => id != "" && id !in s.rows && n in s.nodes
    case Update(id, change, _, _) => id in s.rows && change.node in s.nodes && s.rows[id].node in s.nodes
    case Redeploy(id, _, _) => id in s.rows && s.rows[id].node in s.nodes
    case Delete(id, _) => id in s.rows && s.rows[id].node in s.nodes
  }

  function Step(env: Env, s: State, op: Op): State
    requires Enabled(s, op)
  {
    match op
    case AddNode(n, values) => s.(nodes := s.nodes[n := values], files := s.files[n := map[]])
    case EditNode(n, values) => s.(nodes := s.nodes[n := values])
    case DropNode(n) => DeleteNode(s, n).0
    case Create(id, asn, n, input, call, now) => CreatePeer(env, s, id, asn, n, input, call, now).0
    case Update(id, change, calls, now) => UpdatePeer(env, s, id, change, calls, now).0
    case Redeploy(id, call, now) => RedeployPeer(env, s, id, call, now).0
    case Delete(id, call) => DeletePeer(env, s, id, call)
  }

  datatype Execution = Stuck | Reached(state: State)

  function Exec(env: Env, ops: seq<Op>): Execution {
    if ops == [] then Reached(EMPTY)
    else
      match Exec(env, ops[..|ops| - 1])
      case Stuck => Stuck
      case Reached(before) =>
        if Enabled(before, ops[|ops| - 1]) then Reached(Step(env, before, ops[|ops| - 1])) else Stuck
  }
}
