/**
Hub and nodes together: per connection a channel in each direction and any number of concurrent
workers on the node, each of which runs one command and writes one reply. Channels may lose what
they hold at any time; replies come back in any order.
*/
module EndToEnd {
  import opened Hub
  import HubRuns

  datatype Envelope = Envelope(id: RequestId, command: string, payload: Json)

  datatype Reply = ReplyOk(result: Json) | ReplyErr(text: string)

  datatype Worker = Running(envelope: Envelope) | Ran(envelope: Envelope, reply: Reply)

  datatype Link = Link(toNode: seq<Envelope>, workers: map<RequestId, Worker>, toHub: seq<Message>)

  // A command a node has run, with the reply it gave.
  datatype Execution = Execution(node: NodeId, envelope: Envelope, reply: Reply)

  datatype System = System(hub: State, links: map<ConnId, Link>, sent: set<RequestId>, log: map<RequestId, Execution>)

  const START := System(EMPTY, map[], {}, map[])

  function ToMessage(id: RequestId, reply: Reply): Message {
    match reply
    case ReplyOk(result) => Response(Some(id), None, Some(result))
    case ReplyErr(text) => Response(Some(id), Some(text), None)
  }

  datatype SystemEvent =
    | AtHub(event: Event)
    | Transmit(id: RequestId)
    | NodeReads(conn: ConnId)
    | Execute(conn: ConnId, id: RequestId, reply: Reply)
    | Respond(conn: ConnId, id: RequestId, ok: bool)
    | Heartbeat(conn: ConnId, system: Option<Json>, key: Option<string>)
    | Lose(conn: ConnId)

  // The hub handles the messages of a connection in the order its channel delivers them; a request
  // goes out at most once, while its send is under way.
  predicate CanHappen(s: System, e: SystemEvent) {
    match e
    case AtHub(event) =>
      && Enabled(s.hub, event)
      && (event.Deliver? ==> event.conn in s.links && s.links[event.conn].toHub != [] && s.links[event.conn].toHub[0] == event.message)
    case Transmit(id) =>
      id in s.hub.requests && s.hub.requests[id].phase.Sending? && id !in s.sent && s.hub.requests[id].conn in s.links
    case NodeReads(c) => c in s.links && s.links[c].toNode != []
    case Execute(c, id, _) => c in s.hub.conns && c in s.links && id in s.links[c].workers && s.links[c].workers[id].Running?
    case Respond(c, id, _) => c in s.links && id in s.links[c].workers && s.links[c].workers[id].Ran?
    case Heartbeat(c, _, _) => c in s.links
    case Lose(c) => c in s.links
  }

  function Next(s: System, e: SystemEvent): System
    requires CanHappen(s, e)
  {
    match e
    case AtHub(event) =>
      var stepped := s.(hub := Step(s.hub, event));
      if event.Dial? then stepped.(links := s.links[event.conn := Link([], map[], [])])
      else if event.Deliver? then
        var link := s.links[event.conn];
        stepped.(links := s.links[event.conn := link.(toHub := link.toHub[1..])])
      else stepped
    case Transmit(id) =>
      var r := s.hub.requests[id];
      var link := s.links[r.conn];
      s.(sent := s.sent + {id}, links := s.links[r.conn := link.(toNode := link.toNode + [Envelope(id, r.command, r.payload)])])
    case NodeReads(c) =>
      var link := s.links[c];
      s.(links := s.links[c := link.(toNode := link.toNode[1..], workers := link.workers[link.toNode[0].id := Running(link.toNode[0])])])
    case Execute(c, id, reply) =>
      var link := s.links[c];
      var envelope := link.workers[id].envelope;
      s.(links := s.links[c := link.(workers := link.workers[id := Ran(envelope, reply)])],
         log := s.log[id := Execution(s.hub.conns[c].node, envelope, reply)])
    case Respond(c, id, ok) =>
      var link := s.links[c];
      var message := ToMessage(link.workers[id].envelope.id, link.workers[id].reply);
      s.(links := s.links[c := link.(workers := link.workers - {id}, toHub := if ok then link.toHub + [message] else link.toHub)])
    case Heartbeat(c, system, key) =>
      s.(links := s.links[c := s.links[c].(toHub := s.links[c].toHub + [Status(system, key)])])
    case Lose(c) =>
      s.(links := s.links[c := s.links[c].(toNode := [], toHub := [])])
  }

  // ----- what a hub step does to a request -----

  // A settled future stays; an open one may be settled, by an answer only if that is delivered on
  // the request's own connection.
  predicate FutureMoves(before: Request, after: Request, id: RequestId, e: Event) {
    || after.future == before.future
    || (before.future.Open?
        && (|| after.future.Failed? || after.future.Cancelled?
            || (e.Deliver? && e.conn == before.conn && e.message.Response? && e.message.id == Some(id) && after.future == Resolved(e.message))))
  }

  predicate PhaseMoves(before: Request, after: Request) {
    || after.phase == before.phase
    || after.phase.Awaiting?
    || (after.phase.Finished?
        && (|| after.phase.outcome == Offline || after.phase.outcome == TimedOut
            || (before.future.Resolved? && after.phase.outcome == OutcomeOf(before.future.message))))
  }

  predicate SameRequest(before: Request, after: Request) {
    before.node == after.node && before.conn == after.conn && before.command == after.command && before.payload == after.payload
  }

  predicate RequestMoves(before: Request, after: Request, id: RequestId, e: Event) {
    SameRequest(before, after) && FutureMoves(before, after, id, e) && PhaseMoves(before, after)
  }

  // The request is what this event asks for, word for word, and nothing has happened to it yet.
  predicate IsAsked(r: Request, id: RequestId, e: Event) {
    e == Ask(r.node, id, r.command, r.payload) && r.future.Open? && r.phase.Sending?
  }

  ghost predicate HubMoves(h: State, e: Event, h': State) {
    && h.requests.Keys <= h'.requests.Keys
    && (forall r :: r in h.requests ==> RequestMoves(h.requests[r], h'.requests[r], r, e))
    && (forall r :: r in h'.requests && r !in h.requests ==> IsAsked(h'.requests[r], r, e))
    && (e.Ask? ==> e.id !in h.requests && e.id in h'.requests)
    && h'.conns.Keys == (if e.Dial? then h.conns.Keys + {e.conn} else h.conns.Keys)
    && (forall c :: c in h.conns ==> h'.conns[c].node == h.conns[c].node)
  }

  lemma RegistrationMoves(h: State, e: Event, id: RequestId)
    requires Enabled(h, e) && (e.Dial? || e.Ready? || e.Hangup?) && id in h.requests
    ensures id in Step(h, e).requests && RequestMoves(h.requests[id], Step(h, e).requests[id], id, e)
  {
    hide RuntimeOf;
  }

  lemma WaitMoves(h: State, e: Event, id: RequestId)
    requires Enabled(h, e) && (e.Ask? || e.Sent? || e.Timeout?) && id in h.requests
    ensures id in Step(h, e).requests && RequestMoves(h.requests[id], Step(h, e).requests[id], id, e)
  {
  }

  lemma MessageMoves(h: State, e: Event, id: RequestId)
    requires PendingKnown(h) && Enabled(h, e) && e.Deliver? && id in h.requests
    ensures id in Step(h, e).requests && RequestMoves(h.requests[id], Step(h, e).requests[id], id, e)
  {
    hide RuntimeOf, NeedsPersist;
  }

  lemma WakeMoves(h: State, e: Event, id: RequestId)
    requires Enabled(h, e) && e.Wake? && id in h.requests
    ensures id in Step(h, e).requests && RequestMoves(h.requests[id], Step(h, e).requests[id], id, e)
  {
    hide RuntimeOf, OutcomeOf;
  }

  lemma NewRequestsOpen(h: State, e: Event, id: RequestId)
    requires Enabled(h, e) && id !in h.requests && id in Step(h, e).requests
    ensures IsAsked(Step(h, e).requests[id], id, e)
  {
    hide RuntimeOf, OutcomeOf, NeedsPersist;
  }

  lemma AskStores(h: State, e: Event)
    requires Enabled(h, e) && e.Ask?
    ensures e.id !in h.requests && e.id in Step(h, e).requests
  {
  }

  lemma ConnsMove(h: State, e: Event)
    requires Enabled(h, e)
    ensures Step(h, e).conns.Keys == if e.Dial? then h.conns.Keys + {e.conn} else h.conns.Keys
    ensures forall c :: c in h.conns ==> Step(h, e).conns[c].node == h.conns[c].node
  {
    hide RuntimeOf, OutcomeOf, NeedsPersist;
    match e
    case Dial(n, c, at) => assert Step(h, e).conns.Keys == h.conns.Keys + {c};
    case Ready(c) => assert Step(h, e).conns.Keys == h.conns.Keys;
    case Hangup(c) => assert Step(h, e).conns.Keys == h.conns.Keys;
    case Ask(n, _, _, _) => assert Step(h, e).conns.Keys == h.conns.Keys;
    case Sent(id, _) => assert Step(h, e).conns.Keys == h.conns.Keys;
    case Deliver(c, m, _) => assert Step(h, e).conns == h.conns;
    case Timeout(id) => assert Step(h, e).conns.Keys == h.conns.Keys;
    case Wake(id, _) => assert Step(h, e).conns.Keys == h.conns.Keys;
  }

  lemma AllMoves(h: State, e: Event, id: RequestId)
    requires PendingKnown(h) && Enabled(h, e) && id in h.requests
    ensures id in Step(h, e).requests && RequestMoves(h.requests[id], Step(h, e).requests[id], id, e)
  {
    hide Step, Enabled, RequestMoves, PendingKnown;
    match e
    case Deliver(_, _, _) => MessageMoves(h, e, id);
    case Wake(_, _) => WakeMoves(h, e, id);
    case Dial(_, _, _) => RegistrationMoves(h, e, id);
    case Ready(_) => RegistrationMoves(h, e, id);
    case Hangup(_) => RegistrationMoves(h, e, id);
    case _ => WaitMoves(h, e, id);
  }

  lemma StepMoves(h: State, e: Event)
    requires PendingKnown(h) && Enabled(h, e)
    ensures HubMoves(h, e, Step(h, e))
  {
    hide Step, Enabled, RequestMoves, PendingKnown;
    ConnsMove(h, e);
    forall id | id in h.requests
      ensures id in Step(h, e).requests && RequestMoves(h.requests[id], Step(h, e).requests[id], id, e)
    {
      AllMoves(h, e, id);
    }
    forall id | id in Step(h, e).requests && id !in h.requests
      ensures IsAsked(Step(h, e).requests[id], id, e)
    {
      NewRequestsOpen(h, e, id);
    }
    if e.Ask? {
      AskStores(h, e);
    }
  }

  // ----- the invariant -----

  // The envelope repeats a request that was sent on this connection.
  predicate Genuine(s: System, c: ConnId, envelope: Envelope) {
    && envelope.id in s.sent && envelope.id in s.hub.requests
    && s.hub.requests[envelope.id].conn == c
    && s.hub.requests[envelope.id].command == envelope.command && s.hub.requests[envelope.id].payload == envelope.payload
  }

  // The message is the logged reply to its request, which belongs to this connection.
  predicate Logged(s: System, m: Message) {
    m.Response? ==> m.id.Some? && m.id.value in s.log && m == ToMessage(m.id.value, s.log[m.id.value].reply)
  }

  ghost predicate QueueOk(s: System, c: ConnId) {
    && c in s.links
    && var q := s.links[c].toNode;
    && (forall i :: 0 <= i < |q| ==> Genuine(s, c, q[i]) && q[i].id !in s.links[c].workers && q[i].id !in s.log)
    && (forall i, j :: 0 <= i < j < |q| ==> q[i].id != q[j].id)
  }

  ghost predicate WorkersOk(s: System, c: ConnId) {
    && c in s.links
    && forall id :: id in s.links[c].workers ==>
      var w := s.links[c].workers[id];
      && w.envelope.id == id && Genuine(s, c, w.envelope)
      && (if w.Running? then id !in s.log else id in s.log && s.log[id].reply == w.reply)
  }

  ghost predicate AnswersOk(s: System, c: ConnId) {
    c in s.links && forall i :: 0 <= i < |s.links[c].toHub| ==> Logged(s, s.links[c].toHub[i])
  }

  ghost predicate LogOk(s: System) {
    forall id :: id in s.log ==>
      && s.log[id].envelope.id == id && id in s.hub.requests
      && Genuine(s, s.hub.requests[id].conn, s.log[id].envelope)
      && s.log[id].node == s.hub.requests[id].node
  }

  // A settled or finished request agrees with what the node logged for it.
  predicate OutcomeOk(s: System, id: RequestId)
    requires id in s.hub.requests
  {
    var r := s.hub.requests[id];
    && (r.future.Resolved? ==> id in s.log && r.future.message == ToMessage(id, s.log[id].reply))
    && (r.phase.Finished? ==>
        match r.phase.outcome
        case Answered(result) => id in s.log && s.log[id].reply == ReplyOk(result)
        case NodeError(text) => id in s.log && s.log[id].reply == ReplyErr(text)
        case InvalidResponse => false
        case _ => true)
  }

  ghost predicate LinkOk(s: System, c: ConnId) {
    QueueOk(s, c) && WorkersOk(s, c) && AnswersOk(s, c)
  }

  ghost predicate LinksOk(s: System) {
    forall c :: c in s.links ==> LinkOk(s, c)
  }

  ghost predicate OutcomesOk(s: System) {
    forall id :: id in s.hub.requests ==> OutcomeOk(s, id)
  }

  ghost predicate TablesOk(s: System) {
    Inv(s.hub) && s.links.Keys == s.hub.conns.Keys && s.sent <= s.hub.requests.Keys
  }

  ghost predicate SystemInv(s: System) {
    TablesOk(s) && LinksOk(s) && LogOk(s) && OutcomesOk(s)
  }

  // ----- hub steps -----

  lemma HubStepLinks(s: System, event: Event, c: ConnId)
    requires LinksOk(s) && CanHappen(s, AtHub(event)) && c in Next(s, AtHub(event)).links
    requires HubMoves(s.hub, event, Step(s.hub, event))
    ensures LinkOk(Next(s, AtHub(event)), c)
  {
    var s' := Next(s, AtHub(event));
    if event.Dial? && c == event.conn {
      assert s'.links[c] == Link([], map[], []);
      hide Step, Enabled, Genuine, HubMoves;
    } else {
      assert LinkOk(s, c);
      HubStepKeepsGenuine(s, event);
      HubStepLinkFrame(s, event, c);
      hide Next, CanHappen, Step, Enabled, Genuine, HubMoves, Logged, LinksOk;
      LinkStays(s, s', c);
    }
  }

  // A hub step takes at most the first message off a link.
  lemma HubStepLinkFrame(s: System, event: Event, c: ConnId)
    requires CanHappen(s, AtHub(event)) && c in s.links && !(event.Dial? && c == event.conn)
    ensures var s' := Next(s, AtHub(event));
      && c in s'.links && s'.sent == s.sent && s'.log == s.log
      && s'.links[c].toNode == s.links[c].toNode && s'.links[c].workers == s.links[c].workers
      && (s'.links[c].toHub == s.links[c].toHub || (s.links[c].toHub != [] && s'.links[c].toHub == s.links[c].toHub[1..]))
  {
    hide Step, Enabled;
  }

  lemma LinkStays(s: System, s': System, c: ConnId)
    requires LinkOk(s, c) && c in s'.links && s'.sent == s.sent && s'.log == s.log
    requires s'.links[c].toNode == s.links[c].toNode && s'.links[c].workers == s.links[c].workers
    requires s'.links[c].toHub == s.links[c].toHub || (s.links[c].toHub != [] && s'.links[c].toHub == s.links[c].toHub[1..])
    requires forall d, envelope :: Genuine(s, d, envelope) ==> Genuine(s', d, envelope)
    ensures LinkOk(s', c)
  {
    hide Genuine;
  }

  lemma HubStepKeepsGenuine(s: System, event: Event)
    requires CanHappen(s, AtHub(event)) && HubMoves(s.hub, event, Step(s.hub, event))
    ensures forall c, envelope :: Genuine(s, c, envelope) ==> Genuine(Next(s, AtHub(event)), c, envelope)
  {
    hide Step, Enabled, FutureMoves, PhaseMoves;
  }

  lemma HubStepFrame(s: System, event: Event)
    requires CanHappen(s, AtHub(event))
    ensures var s' := Next(s, AtHub(event));
      && s'.hub == Step(s.hub, event) && s'.sent == s.sent && s'.log == s.log
      && s'.links.Keys == if event.Dial? then s.links.Keys + {event.conn} else s.links.Keys
  {
    hide Step, Enabled;
  }

  lemma HubStepTables(s: System, event: Event)
    requires SystemInv(s) && CanHappen(s, AtHub(event)) && HubMoves(s.hub, event, Step(s.hub, event))
    ensures TablesOk(Next(s, AtHub(event)))
  {
    StepKeepsInv(s.hub, event);
    HubStepFrame(s, event);
    hide Next, CanHappen, Inv, Step, Enabled, LinksOk, OutcomesOk, LogOk, RequestMoves;
  }

  lemma HubStepLog(s: System, event: Event)
    requires LogOk(s) && CanHappen(s, AtHub(event)) && HubMoves(s.hub, event, Step(s.hub, event))
    ensures LogOk(Next(s, AtHub(event)))
  {
    HubStepKeepsGenuine(s, event);
    hide Step, Enabled, FutureMoves, PhaseMoves, Genuine;
  }

  lemma HubStepOutcome(s: System, event: Event, id: RequestId)
    requires SystemInv(s) && CanHappen(s, AtHub(event)) && id in s.hub.requests
    requires HubMoves(s.hub, event, Step(s.hub, event))
    ensures id in Step(s.hub, event).requests && OutcomeOk(Next(s, AtHub(event)), id)
  {
    hide Inv, Step, Enabled, QueueOk, WorkersOk, LogOk;
    assert OutcomeOk(s, id);
    if event.Deliver? {
      assert LinkOk(s, event.conn);
      assert Logged(s, event.message);
    }
  }

  lemma NewRequestOk(s: System, id: RequestId)
    requires id in s.hub.requests && s.hub.requests[id].future.Open? && s.hub.requests[id].phase.Sending?
    ensures OutcomeOk(s, id)
  {
  }

  lemma HubStepOutcomes(s: System, event: Event)
    requires SystemInv(s) && CanHappen(s, AtHub(event)) && HubMoves(s.hub, event, Step(s.hub, event))
    ensures OutcomesOk(Next(s, AtHub(event)))
  {
    var s' := Next(s, AtHub(event));
    hide SystemInv, Step, Enabled, OutcomeOk, RequestMoves;
    forall id | id in s'.hub.requests
      ensures OutcomeOk(s', id)
    {
      if id in s.hub.requests {
        HubStepOutcome(s, event, id);
      } else {
        NewRequestOk(s', id);
      }
    }
  }

  lemma HubStepKeepsInv(s: System, event: Event)
    requires SystemInv(s) && CanHappen(s, AtHub(event))
    ensures SystemInv(Next(s, AtHub(event)))
  {
    StepMoves(s.hub, event);
    HubStepTables(s, event);
    HubStepLog(s, event);
    HubStepOutcomes(s, event);
    hide TablesOk, LogOk, OutcomesOk, HubMoves, Step, Enabled, LinkOk;
    forall c | c in Next(s, AtHub(event)).links
      ensures LinkOk(Next(s, AtHub(event)), c)
    {
      HubStepLinks(s, event, c);
    }
  }

  // ----- channel and worker steps: the hub is untouched -----

  // A step that leaves hub and log alone keeps what is said about them.
  lemma QuietStep(s: System, s': System)
    requires SystemInv(s) && s'.hub == s.hub && s'.log == s.log && s'.links.Keys == s.links.Keys
    requires s.sent <= s'.sent <= s.hub.requests.Keys
    ensures TablesOk(s') && LogOk(s') && OutcomesOk(s')
    ensures forall c, envelope :: Genuine(s, c, envelope) ==> Genuine(s', c, envelope)
  {
    hide Inv, LinksOk;
    assert forall id :: id in s.hub.requests ==> OutcomeOk(s, id);
  }

  lemma LinkStepFrame(s: System, e: SystemEvent)
    requires CanHappen(s, e) && !e.AtHub? && !e.Execute? && s.sent <= s.hub.requests.Keys
    ensures var s' := Next(s, e);
      s'.hub == s.hub && s'.log == s.log && s'.links.Keys == s.links.Keys && s.sent <= s'.sent <= s.hub.requests.Keys
  {
  }

  lemma LinkStepKeepsInv(s: System, e: SystemEvent)
    requires SystemInv(s) && CanHappen(s, e) && !e.AtHub? && !e.Execute?
    ensures SystemInv(Next(s, e))
  {
    var s' := Next(s, e);
    LinkStepFrame(s, e);
    QuietStep(s, s');
    hide Next, CanHappen, TablesOk, LogOk, OutcomesOk, LinkOk, Genuine;
    forall c | c in s'.links
      ensures LinkOk(s', c)
    {
      LinkStep(s, e, c);
    }
  }

  lemma RespondLink(s: System, e: SystemEvent, c: ConnId)
    requires CanHappen(s, e) && (e.Respond? || e.Heartbeat? || e.Lose?) && c in s.links && LinkOk(s, c)
    requires forall d, envelope :: Genuine(s, d, envelope) ==> Genuine(Next(s, e), d, envelope)
    ensures LinkOk(Next(s, e), c)
  {
    hide Genuine;
  }

  lemma LinkStep(s: System, e: SystemEvent, c: ConnId)
    requires LinksOk(s) && LogOk(s) && CanHappen(s, e) && !e.AtHub? && !e.Execute? && c in Next(s, e).links
    requires forall d, envelope :: Genuine(s, d, envelope) ==> Genuine(Next(s, e), d, envelope)
    ensures LinkOk(Next(s, e), c)
  {
    assert c in s.links && LinkOk(s, c);
    hide LinkOk, Genuine;
    match e
    case Transmit(id) => TransmitLink(s, id, c);
    case NodeReads(c0) => NodeReadsLink(s, c0, c);
    case Respond(_, _, _) => RespondLink(s, e, c);
    case Heartbeat(_, _, _) => RespondLink(s, e, c);
    case Lose(_) => RespondLink(s, e, c);
  }

  lemma TransmitLink(s: System, id: RequestId, c: ConnId)
    requires LinksOk(s) && LogOk(s) && CanHappen(s, Transmit(id)) && c in s.links && LinkOk(s, c)
    ensures LinkOk(Next(s, Transmit(id)), c)
  {
    assert id !in s.log;
  }

  lemma NodeReadsLink(s: System, c0: ConnId, c: ConnId)
    requires LinksOk(s) && CanHappen(s, NodeReads(c0)) && c in s.links && LinkOk(s, c)
    ensures LinkOk(Next(s, NodeReads(c0)), c)
  {
    hide LinksOk;
  }

  lemma SameGenuine(s: System, s': System)
    requires s'.hub == s.hub && s'.sent == s.sent
    ensures forall d, envelope :: Genuine(s, d, envelope) <==> Genuine(s', d, envelope)
  {
  }

  lemma ExecuteOwnLink(s: System, c: ConnId, id: RequestId, reply: Reply)
    requires CanHappen(s, Execute(c, id, reply)) && LinkOk(s, c)
    requires forall d, envelope :: Genuine(s, d, envelope) <==> Genuine(Next(s, Execute(c, id, reply)), d, envelope)
    ensures LinkOk(Next(s, Execute(c, id, reply)), c)
  {
    hide Genuine;
  }

  lemma ExecuteOtherLink(s: System, c0: ConnId, id: RequestId, reply: Reply, c: ConnId)
    requires CanHappen(s, Execute(c0, id, reply)) && LinkOk(s, c) && LinkOk(s, c0) && c != c0
    requires forall d, envelope :: Genuine(s, d, envelope) <==> Genuine(Next(s, Execute(c0, id, reply)), d, envelope)
    ensures LinkOk(Next(s, Execute(c0, id, reply)), c)
  {
    assert Genuine(s, c0, s.links[c0].workers[id].envelope) && s.hub.requests[id].conn == c0;
    assert forall envelope: Envelope :: Genuine(s, c, envelope) ==> envelope.id != id;
    hide Genuine;
  }

  lemma ExecuteLink(s: System, c0: ConnId, id: RequestId, reply: Reply, c: ConnId)
    requires LinksOk(s) && CanHappen(s, Execute(c0, id, reply)) && c in s.links
    ensures LinkOk(Next(s, Execute(c0, id, reply)), c)
  {
    assert LinkOk(s, c0) && LinkOk(s, c);
    hide LinksOk, Genuine;
    var s' := Next(s, Execute(c0, id, reply));
    assert s'.hub == s.hub && s'.sent == s.sent;
    SameGenuine(s, s');
    if c == c0 {
      ExecuteOwnLink(s, c0, id, reply);
    } else {
      ExecuteOtherLink(s, c0, id, reply, c);
    }
  }

  lemma ExecuteLog(s: System, c0: ConnId, id: RequestId, reply: Reply)
    requires SystemInv(s) && CanHappen(s, Execute(c0, id, reply))
    ensures id !in s.log && LogOk(Next(s, Execute(c0, id, reply)))
  {
    RunningWorker(s, c0, id);
    hide SystemInv, Inv, LinksOk, OutcomesOk, QueueOk, AnswersOk, WorkersOk;
    LogGrows(s, c0, id, reply);
  }

  // A running worker's request is a genuine one of its connection's node, and not yet logged.
  lemma RunningWorker(s: System, c: ConnId, id: RequestId)
    requires SystemInv(s) && c in s.links && c in s.hub.conns && id in s.links[c].workers && s.links[c].workers[id].Running?
    ensures LogOk(s) && id !in s.log && s.links[c].workers[id].envelope.id == id && Genuine(s, c, s.links[c].workers[id].envelope)
    ensures s.hub.conns[c].node == s.hub.requests[id].node
  {
    assert LinkOk(s, c);
    hide OutcomesOk, LogOk, QueueOk, AnswersOk, LinksOk;
    RequestsNode(s.hub, id);
  }

  lemma RequestsNode(h: State, id: RequestId)
    requires Inv(h) && id in h.requests
    ensures h.requests[id].conn in h.conns && h.conns[h.requests[id].conn].node == h.requests[id].node
  {
    hide CurrentKnown, PendingKnown, SupersededEmpty, NoneDangling, OnlineExact, AnswersMatch;
  }

  lemma LogGrows(s: System, c: ConnId, id: RequestId, reply: Reply)
    requires CanHappen(s, Execute(c, id, reply)) && LogOk(s) && id !in s.log
    requires s.links[c].workers[id].envelope.id == id && Genuine(s, c, s.links[c].workers[id].envelope)
    requires s.hub.conns[c].node == s.hub.requests[id].node
    ensures LogOk(Next(s, Execute(c, id, reply)))
  {
    var s' := Next(s, Execute(c, id, reply));
    assert s'.hub == s.hub && s'.sent == s.sent;
    assert s'.log == s.log[id := Execution(s.hub.conns[c].node, s.links[c].workers[id].envelope, reply)];
    hide Next, CanHappen;
  }

  lemma ExecuteOutcomes(s: System, s': System, id: RequestId)
    requires OutcomesOk(s) && s'.hub == s.hub && id !in s.log && id in s'.log && s'.log == s.log[id := s'.log[id]]
    ensures OutcomesOk(s')
  {
    assert forall r :: r in s.hub.requests ==> OutcomeOk(s, r);
  }

  lemma ExecuteFrame(s: System, c0: ConnId, id: RequestId, reply: Reply)
    requires TablesOk(s) && CanHappen(s, Execute(c0, id, reply))
    ensures var s' := Next(s, Execute(c0, id, reply));
      && TablesOk(s') && s'.hub == s.hub && s'.links.Keys == s.links.Keys
      && id in s'.log && s'.log == s.log[id := s'.log[id]]
  {
    hide Inv;
  }

  lemma ExecuteKeepsInv(s: System, c0: ConnId, id: RequestId, reply: Reply)
    requires SystemInv(s) && CanHappen(s, Execute(c0, id, reply))
    ensures SystemInv(Next(s, Execute(c0, id, reply)))
  {
    var s' := Next(s, Execute(c0, id, reply));
    ExecuteLog(s, c0, id, reply);
    ExecuteFrame(s, c0, id, reply);
    ExecuteOutcomes(s, s', id);
    hide Next, TablesOk, LogOk, OutcomesOk, LinkOk;
    forall c | c in s'.links
      ensures LinkOk(s', c)
    {
      ExecuteLink(s, c0, id, reply, c);
    }
  }

  lemma NextKeepsInv(s: System, e: SystemEvent)
    requires SystemInv(s) && CanHappen(s, e)
    ensures SystemInv(Next(s, e))
  {
    hide SystemInv, Next, CanHappen;
    match e
    case AtHub(event) => HubStepKeepsInv(s, event);
    case Execute(c, id, reply) => ExecuteKeepsInv(s, c, id, reply);
    case _ => LinkStepKeepsInv(s, e);
  }

  // ----- runs -----

  function Run(events: seq<SystemEvent>): Option<System> {
    if events == [] then Some(START)
    else
      var n := |events| - 1;
      match Run(events[..n])
      case None => None
      case Some(before) => if CanHappen(before, events[n]) then Some(Next(before, events[n])) else None
  }

  lemma {:induction false} RunInv(events: seq<SystemEvent>)
    requires Run(events).Some?
    ensures SystemInv(Run(events).value)
  {
    if events != [] {
      var n := |events| - 1;
      RunInv(events[..n]);
      NextKeepsInv(Run(events[..n]).value, events[n]);
    }
  }

  // ----- what the callers asked for -----

  predicate Asks(e: SystemEvent, id: RequestId) {
    e.AtHub? && e.event.Ask? && e.event.id == id
  }

  // Event `k` asked for exactly this request, and no other event asked for one of its id.
  ghost predicate AskedAt(events: seq<SystemEvent>, k: nat, id: RequestId, r: Request) {
    && k < |events| && events[k] == AtHub(Ask(r.node, id, r.command, r.payload))
    && forall j :: 0 <= j < |events| && j != k ==> !Asks(events[j], id)
  }

  // What an event of the hub, or any other, does to the requests asked for.
  ghost predicate AsksFor(h: State, e: SystemEvent, h': State, id: RequestId) {
    && (id in h.requests ==> id in h'.requests && SameRequest(h.requests[id], h'.requests[id]) && !Asks(e, id))
    && (id !in h.requests ==>
          (id in h'.requests <==> Asks(e, id))
          && (id in h'.requests ==> var r := h'.requests[id]; e == AtHub(Ask(r.node, id, r.command, r.payload))))
  }

  lemma MovesAsk(h: State, e: Event, h': State, id: RequestId)
    requires HubMoves(h, e, h')
    ensures AsksFor(h, AtHub(e), h', id)
  {
    hide FutureMoves, PhaseMoves;
  }

  lemma OthersAskNothing(h: State, e: SystemEvent, id: RequestId)
    requires !e.AtHub?
    ensures AsksFor(h, e, h, id)
  {
  }

  // How one event of the system changes what is asked.
  lemma AskStep(s: System, e: SystemEvent, id: RequestId)
    requires SystemInv(s) && CanHappen(s, e)
    ensures AsksFor(s.hub, e, Next(s, e).hub, id)
  {
    hide *;
    InvOfHub(s);
    HubAfter(s, e);
    PendingOf(s.hub);
    if e.AtHub? {
      StepMoves(s.hub, e.event);
      MovesAsk(s.hub, e.event, Step(s.hub, e.event), id);
    } else {
      OthersAskNothing(s.hub, e, id);
    }
  }

  lemma PendingOf(h: State)
    requires Inv(h)
    ensures PendingKnown(h)
  {
    hide CurrentKnown, RequestsKnown, SupersededEmpty, NoneDangling, OnlineExact, AnswersMatch;
  }

  // Every request stems from exactly one event of the run, and every asking event made one.
  lemma {:induction false} RequestsWereAsked(events: seq<SystemEvent>, s: System, id: RequestId)
    requires Run(events) == Some(s)
    ensures id in s.hub.requests <==> exists k :: 0 <= k < |events| && Asks(events[k], id)
    ensures id in s.hub.requests ==> exists k :: AskedAt(events, k, id, s.hub.requests[id])
  {
    if events != [] {
      var n := |events| - 1;
      var before := Run(events[..n]).value;
      RequestsWereAsked(events[..n], before, id);
      RunInv(events[..n]);
      hide Run, SystemInv, Next, CanHappen;
      AskStep(before, events[n], id);
      AskedExtends(events, before.hub, s.hub, id);
    }
  }

  lemma AskedExtends(events: seq<SystemEvent>, h: State, h': State, id: RequestId)
    requires events != []
    requires var n := |events| - 1;
      && (id in h.requests <==> exists k :: 0 <= k < n && Asks(events[..n][k], id))
      && (id in h.requests ==> exists k :: AskedAt(events[..n], k, id, h.requests[id]))
      && AsksFor(h, events[n], h', id)
    ensures id in h'.requests <==> exists k :: 0 <= k < |events| && Asks(events[k], id)
    ensures id in h'.requests ==> exists k :: AskedAt(events, k, id, h'.requests[id])
  {
    var n := |events| - 1;
    assert forall j :: 0 <= j < n ==> events[..n][j] == events[j];
    if id in h.requests {
      var k: nat :| AskedAt(events[..n], k, id, h.requests[id]);
      assert Asks(events[k], id);
      assert AskedAt(events, k, id, h'.requests[id]);
    } else if id in h'.requests {
      assert AskedAt(events, n, id, h'.requests[id]);
    }
  }

  lemma AskedIs(events: seq<SystemEvent>, s: System, node: NodeId, id: RequestId, command: string, payload: Json)
    requires Run(events) == Some(s) && AtHub(Ask(node, id, command, payload)) in events
    ensures id in s.hub.requests
    ensures var r := s.hub.requests[id]; r.node == node && r.command == command && r.payload == payload
  {
    hide Run;
    var j :| 0 <= j < |events| && events[j] == AtHub(Ask(node, id, command, payload));
    assert Asks(events[j], id);
    RequestsWereAsked(events, s, id);
    var k: nat :| AskedAt(events, k, id, s.hub.requests[id]);
    assert j == k;
  }

  // In every run, whatever overtakes or loses what: once the request a caller made of a node has
  // ended, a result is that node's own answer to that very command and payload, an error is its own
  // error, and no response is ever malformed.
  lemma AnswersAreTheNodes(events: seq<SystemEvent>, s: System, node: NodeId, id: RequestId, command: string, payload: Json)
    requires Run(events) == Some(s) && AtHub(Ask(node, id, command, payload)) in events
    ensures id in s.hub.requests
    ensures s.hub.requests[id].phase.Finished? ==>
      match s.hub.requests[id].phase.outcome
      case Answered(result) => id in s.log && s.log[id] == Execution(node, Envelope(id, command, payload), ReplyOk(result))
      case NodeError(text) => id in s.log && s.log[id] == Execution(node, Envelope(id, command, payload), ReplyErr(text))
      case InvalidResponse => false
      case TimedOut => true
      case Offline => true
  {
    RunInv(events);
    AskedIs(events, s, node, id, command, payload);
    hide Run, Inv, LinksOk;
    assert OutcomeOk(s, id);
  }

  lemma WorkerOf(s: System, e: SystemEvent)
    requires CanHappen(s, e) && e.Execute?
    ensures e.conn in s.links && e.conn in s.hub.conns && e.id in s.links[e.conn].workers && s.links[e.conn].workers[e.id].Running?
  {
  }

  lemma LogKept(s: System, e: SystemEvent, id: RequestId)
    requires CanHappen(s, e) && id in s.log && (e.Execute? ==> e.id != id)
    ensures id in Next(s, e).log && Next(s, e).log[id] == s.log[id]
  {
    hide Step, Enabled;
  }

  // No node runs a request twice: when it runs one, the request is not in the log, and log entries
  // never change.
  lemma ExecutedAtMostOnce(events: seq<SystemEvent>, s: System, e: SystemEvent, id: RequestId)
    requires Run(events) == Some(s) && CanHappen(s, e)
    ensures e.Execute? ==> e.id !in s.log
    ensures id in s.log ==> id in Next(s, e).log && Next(s, e).log[id] == s.log[id]
  {
    RunInv(events);
    hide Run, SystemInv;
    if e.Execute? {
      WorkerOf(s, e);
      hide CanHappen;
      RunningWorker(s, e.conn, e.id);
    }
    hide Next, CanHappen;
    if id in s.log {
      LogKept(s, e, id);
    }
  }

  lemma HubAfter(s: System, e: SystemEvent)
    requires CanHappen(s, e)
    ensures e.AtHub? ==> Enabled(s.hub, e.event) && Next(s, e).hub == Step(s.hub, e.event)
    ensures !e.AtHub? ==> Next(s, e).hub == s.hub
  {
    hide Step, Enabled;
  }

  lemma InvOfHub(s: System)
    requires SystemInv(s)
    ensures Inv(s.hub)
  {
    hide LinksOk, LogOk, OutcomesOk, Inv;
  }

  // One request, one outcome: once finished, no event of the whole system changes it.
  lemma OneOutcome(events: seq<SystemEvent>, s: System, e: SystemEvent, id: RequestId)
    requires Run(events) == Some(s) && CanHappen(s, e)
    requires id in s.hub.requests && s.hub.requests[id].phase.Finished?
    ensures id in Next(s, e).hub.requests && Next(s, e).hub.requests[id] == s.hub.requests[id]
  {
    RunInv(events);
    HubAfter(s, e);
    InvOfHub(s);
    hide Run, SystemInv, Next, CanHappen, Inv, Step, Enabled;
    if e.AtHub? {
      HubRuns.OutcomeIsFinal(s.hub, e.event, id);
    }
  }
}
