/**
The node hub as a state machine. A step is the code between two suspension points of one of the
hub's coroutines, so every interleaving of coroutines is a sequence of steps.

Timestamps are microseconds; ids are plain numbers and JSON values plain text.
*/
module Hub {

  datatype Option<+T> = None | Some(value: T)

  type NodeId = nat
  type ConnId = nat
  type RequestId = nat
  type Json = string
  type Time = int

  const PERSIST_INTERVAL: Time := 60_000_000

  // What a node may send. An empty error or system status counts as none, and so does a result that
  // is not an object; an id that is no request's, or missing, is none as well.
  datatype Message =
    | Response(id: Option<RequestId>, error: Option<string>, result: Option<Json>)
    | Status(system: Option<Json>, key: Option<string>)
    | Unknown

  datatype FutureState = Open | Resolved(message: Message) | Failed | Cancelled

  datatype Outcome = Answered(result: Json) | NodeError(text: string) | InvalidResponse | TimedOut | Offline

  datatype Phase = Sending | Awaiting | Finished(outcome: Outcome)

  datatype Request = Request(node: NodeId, conn: ConnId, command: string, payload: Json, future: FutureState, phase: Phase)

  datatype Conn = Conn(node: NodeId, startedAt: Time, ready: bool, pending: set<RequestId>)

  datatype Runtime = Runtime(online: bool, connectedAt: Option<Time>, lastSeenAt: Option<Time>, system: Option<Json>,
                             persistedAt: Option<Time>, persistedSystem: Option<Json>, persistedKey: Option<string>)

  const NEW_RUNTIME := Runtime(false, None, None, None, None, None, None)

  // `conns` and `requests` remember every connection and request there ever was.
  datatype State = State(current: map<NodeId, ConnId>, conns: map<ConnId, Conn>, requests: map<RequestId, Request>,
                         runtime: map<NodeId, Runtime>)

  const EMPTY := State(map[], map[], map[], map[])

  predicate IsCurrent(h: State, c: ConnId) {
    c in h.conns && h.conns[c].node in h.current && h.current[h.conns[c].node] == c
  }

  function RuntimeOf(h: State, n: NodeId): Runtime {
    if n in h.runtime then h.runtime[n] else NEW_RUNTIME
  }

  function SettleFuture(r: Request, future: FutureState): Request {
    if r.future.Open? then r.(future := future) else r
  }

  function Finish(r: Request, outcome: Outcome): Request { r.(phase := Finished(outcome)) }

  // ----- the steps -----

  // Every open future of a connection fails, and its pending table is emptied.
  function FailPending(h: State, c: ConnId): State
    requires c in h.conns
  {
    h.(conns := h.conns[c := h.conns[c].(pending := {})],
       requests := map r | r in h.requests :: if r in h.conns[c].pending then SettleFuture(h.requests[r], Failed) else h.requests[r])
  }

  // A node dials in: it becomes the node's connection and the previous one loses its requests.
  function BeginRegister(h: State, n: NodeId, c: ConnId, now: Time): State {
    var state := RuntimeOf(h, n).(online := true, connectedAt := Some(now), lastSeenAt := Some(now));
    var swapped := h.(current := h.current[n := c], conns := h.conns[c := Conn(n, now, false, {})], runtime := h.runtime[n := state]);
    if n in h.current && h.current[n] in h.conns && h.current[n] != c then FailPending(swapped, h.current[n]) else swapped
  }

  // The registration's database write is done, under the time it began.
  function FinishRegister(h: State, c: ConnId): State
    requires c in h.conns
  {
    var n := h.conns[c].node;
    h.(conns := h.conns[c := h.conns[c].(ready := true)],
       runtime := h.runtime[n := RuntimeOf(h, n).(persistedAt := Some(h.conns[c].startedAt))])
  }

  function Unregister(h: State, c: ConnId): State
    requires c in h.conns
  {
    var n := h.conns[c].node;
    if !IsCurrent(h, c) then h
    else FailPending(h.(current := h.current - {n}, runtime := h.runtime[n := RuntimeOf(h, n).(online := false)]), c)
  }

  // A request finds the node's connection and opens a future in its pending table.
  function BeginRequest(h: State, n: NodeId, id: RequestId, command: string, payload: Json): State
    requires n in h.current && h.current[n] in h.conns
  {
    var c := h.current[n];
    h.(conns := h.conns[c := h.conns[c].(pending := h.conns[c].pending + {id})],
       requests := h.requests[id := Request(n, c, command, payload, Open, Sending)])
  }

  // A request ends: its entry leaves the pending table.
  function End(h: State, id: RequestId, outcome: Outcome): State
    requires id in h.requests && h.requests[id].conn in h.conns
  {
    var c := h.requests[id].conn;
    h.(conns := h.conns[c := h.conns[c].(pending := h.conns[c].pending - {id})],
       requests := h.requests[id := Finish(h.requests[id], outcome)])
  }

  function SendReturns(h: State, id: RequestId, ok: bool): State
    requires id in h.requests && h.requests[id].conn in h.conns
  {
    if ok then h.(requests := h.requests[id := h.requests[id].(phase := Awaiting)]) else End(h, id, Offline)
  }

  function MarkOnline(h: State, c: ConnId, system: Option<Json>, now: Time): State
    requires c in h.conns
  {
    var n := h.conns[c].node;
    if !IsCurrent(h, c) then h
    else
      var state := RuntimeOf(h, n).(online := true, lastSeenAt := Some(now));
      h.(runtime := h.runtime[n := if system.Some? then state.(system := system) else state])
  }

  predicate NeedsPersist(state: Runtime, key: Option<string>, now: Time) {
    || state.persistedAt.None?
    || now - state.persistedAt.value >= PERSIST_INTERVAL
    || KeyChanged(state, key)
  }

  predicate KeyChanged(state: Runtime, key: Option<string>) {
    key.Some? && key != state.persistedKey
  }

  function Persist(h: State, n: NodeId, system: Option<Json>, key: Option<string>, now: Time): State {
    var state := RuntimeOf(h, n);
    if !NeedsPersist(state, key, now) then h
    else
      var stamped := state.(persistedAt := Some(now));
      var withSystem := if system.Some? then stamped.(persistedSystem := system) else stamped;
      h.(runtime := h.runtime[n := if key.Some? then withSystem.(persistedKey := key) else withSystem])
  }

  function HandleMessage(h: State, c: ConnId, m: Message, now: Time): State
    requires c in h.conns
  {
    match m
    case Response(id, _, _) =>
      if id.Some? && id.value in h.conns[c].pending && id.value in h.requests then
        h.(requests := h.requests[id.value := SettleFuture(h.requests[id.value], Resolved(m))])
      else h
    case Status(system, key) =>
      if IsCurrent(h, c) then Persist(MarkOnline(h, c, system, now), h.conns[c].node, system, key, now) else h
    case Unknown => h
  }

  // The wait times out: the future is cancelled if still open, even if an answer is just in.
  function Expire(h: State, id: RequestId): State
    requires id in h.requests && h.requests[id].conn in h.conns
  {
    End(h.(requests := h.requests[id := SettleFuture(h.requests[id], Cancelled)]), id, TimedOut)
  }

  function OutcomeOf(m: Message): Outcome {
    match m
    case Response(_, error, result) =>
      if error.Some? then NodeError(error.value) else if result.None? then InvalidResponse else Answered(result.value)
    case _ => InvalidResponse
  }

  // The wait ends because the future is settled.
  function Resume(h: State, id: RequestId, now: Time): State
    requires id in h.requests && h.requests[id].conn in h.conns
  {
    var r := h.requests[id];
    if r.future.Resolved? then
      var outcome := OutcomeOf(r.future.message);
      var ended := End(h, id, outcome);
      if outcome.Answered? then MarkOnline(ended, r.conn, None, now) else ended
    else End(h, id, Offline)
  }

  // ----- events and runs -----

  datatype Event =
    | Dial(node: NodeId, conn: ConnId, at: Time)
    | Ready(conn: ConnId)
    | Hangup(conn: ConnId)
    | Ask(node: NodeId, id: RequestId, command: string, payload: Json)
    | Sent(id: RequestId, ok: bool)
    | Deliver(conn: ConnId, message: Message, at: Time)
    | Timeout(id: RequestId)
    | Wake(id: RequestId, at: Time)

  // When a step can happen: ids are fresh, messages and hang-ups come from connections whose
  // registration is complete, and a wait wakes only on a settled future.
  predicate Enabled(h: State, e: Event) {
    match e
    case Dial(_, c, _) => c !in h.conns
    case Ready(c) => c in h.conns && !h.conns[c].ready
    case Hangup(c) => c in h.conns && h.conns[c].ready
    case Ask(n, id, _, _) => id !in h.requests && n in h.current && h.current[n] in h.conns
    case Sent(id, _) => id in h.requests && h.requests[id].phase.Sending? && h.requests[id].conn in h.conns
    case Deliver(c, _, _) => c in h.conns && h.conns[c].ready
    case Timeout(id) => id in h.requests && h.requests[id].phase.Awaiting? && h.requests[id].conn in h.conns
    case Wake(id, _) =>
      && id in h.requests && h.requests[id].phase.Awaiting? && h.requests[id].conn in h.conns
      && (h.requests[id].future.Resolved? || h.requests[id].future.Failed?)
  }

  function Step(h: State, e: Event): State
    requires Enabled(h, e)
  {
    match e
    case Dial(n, c, at) => BeginRegister(h, n, c, at)
    case Ready(c) => FinishRegister(h, c)
    case Hangup(c) => Unregister(h, c)
    case Ask(n, id, command, payload) => BeginRequest(h, n, id, command, payload)
    case Sent(id, ok) => SendReturns(h, id, ok)
    case Deliver(c, m, at) => HandleMessage(h, c, m, at)
    case Timeout(id) => Expire(h, id)
    case Wake(id, at) => Resume(h, id, at)
  }

  // The state after a run of events, if each could happen in its turn.
  function Exec(h: State, events: seq<Event>): Option<State> {
    if events == [] then Some(h)
    else
      var n := |events| - 1;
      match Exec(h, events[..n])
      case None => None
      case Some(before) => if Enabled(before, events[n]) then Some(Step(before, events[n])) else None
  }

  // ----- the invariant -----

  ghost predicate CurrentKnown(h: State) {
    forall n :: n in h.current ==> h.current[n] in h.conns && h.conns[h.current[n]].node == n && n in h.runtime
  }

  ghost predicate PendingKnown(h: State) {
    forall c, r :: c in h.conns && r in h.conns[c].pending ==>
      r in h.requests && h.requests[r].conn == c && !h.requests[r].phase.Finished?
  }

  ghost predicate RequestsKnown(h: State) {
    forall r :: r in h.requests ==>
      h.requests[r].conn in h.conns && h.conns[h.requests[r].conn].node == h.requests[r].node
  }

  // A connection that is no longer its node's holds no request.
  ghost predicate SupersededEmpty(h: State) {
    forall c :: c in h.conns && !IsCurrent(h, c) ==> h.conns[c].pending == {}
  }

  // A request that still waits for an answer can be reached by one.
  ghost predicate NoneDangling(h: State) {
    forall r :: r in h.requests && !h.requests[r].phase.Finished? && h.requests[r].future.Open? ==>
      h.requests[r].conn in h.conns && r in h.conns[h.requests[r].conn].pending
  }

  ghost predicate OnlineExact(h: State) {
    forall n :: n in h.runtime ==> (h.runtime[n].online <==> n in h.current)
  }

  ghost predicate AnswersMatch(h: State) {
    forall r :: r in h.requests && h.requests[r].future.Resolved? ==>
      h.requests[r].future.message.Response? && h.requests[r].future.message.id == Some(r)
  }

  ghost predicate Inv(h: State) {
    && CurrentKnown(h) && PendingKnown(h) && RequestsKnown(h) && SupersededEmpty(h)
    && NoneDangling(h) && OnlineExact(h) && AnswersMatch(h)
  }

  // What failing a connection's requests does, request by request and connection by connection.
  ghost predicate Failing(h: State, h': State, c: ConnId)
    requires c in h.conns
  {
    && h'.current == h.current && h'.runtime == h.runtime
    && h'.conns.Keys == h.conns.Keys && h'.requests.Keys == h.requests.Keys
    && (forall d :: d in h.conns ==> h'.conns[d] == if d == c then h.conns[c].(pending := {}) else h.conns[d])
    && (forall r :: r in h.requests ==>
          h'.requests[r] == if r in h.conns[c].pending then SettleFuture(h.requests[r], Failed) else h.requests[r])
  }

  lemma FailEffect(h: State, c: ConnId)
    requires c in h.conns
    ensures Failing(h, FailPending(h, c), c)
  {
  }

  lemma FailKeepsTables(h: State, c: ConnId)
    requires Inv(h) && c in h.conns
    ensures var h' := FailPending(h, c); CurrentKnown(h') && RequestsKnown(h') && SupersededEmpty(h') && OnlineExact(h')
  {
    FailEffect(h, c);
    hide FailPending, PendingKnown, NoneDangling, AnswersMatch;
    assert forall d :: IsCurrent(FailPending(h, c), d) <==> IsCurrent(h, d);
  }

  lemma FailKeepsRequests(h: State, c: ConnId)
    requires Inv(h) && c in h.conns
    ensures var h' := FailPending(h, c); PendingKnown(h') && NoneDangling(h') && AnswersMatch(h')
  {
    FailEffect(h, c);
    hide Inv, FailPending, CurrentKnown, SupersededEmpty, OnlineExact;
    FailKeepsPending(h, FailPending(h, c), c);
    FailLeavesNoneDangling(h, FailPending(h, c), c);
    assert AnswersMatch(FailPending(h, c)) by { assert Inv(h); FailKeepsAnswers(h, FailPending(h, c), c); }
  }

  lemma FailKeepsPending(h: State, h': State, c: ConnId)
    requires Inv(h) && c in h.conns && Failing(h, h', c)
    ensures PendingKnown(h')
  {
    hide CurrentKnown, RequestsKnown, SupersededEmpty, NoneDangling, OnlineExact, AnswersMatch;
  }

  lemma FailLeavesNoneDangling(h: State, h': State, c: ConnId)
    requires Inv(h) && c in h.conns && Failing(h, h', c)
    ensures NoneDangling(h')
  {
    hide CurrentKnown, SupersededEmpty, PendingKnown, OnlineExact, AnswersMatch;
  }

  lemma FailKeepsAnswers(h: State, h': State, c: ConnId)
    requires Inv(h) && c in h.conns && Failing(h, h', c)
    ensures AnswersMatch(h')
  {
    hide CurrentKnown, RequestsKnown, SupersededEmpty, PendingKnown, OnlineExact, NoneDangling;
  }

  lemma FailKeepsInv(h: State, c: ConnId)
    requires Inv(h) && c in h.conns
    ensures Inv(FailPending(h, c))
  {
    hide FailPending, CurrentKnown, SupersededEmpty, OnlineExact, PendingKnown, NoneDangling, AnswersMatch, RequestsKnown;
    FailKeepsTables(h, c);
    FailKeepsRequests(h, c);
  }

  // Installing a connection for a node, once the node's previous one has nothing pending.
  function Install(h: State, n: NodeId, c: ConnId, now: Time): State {
    h.(current := h.current[n := c], conns := h.conns[c := Conn(n, now, false, {})],
       runtime := h.runtime[n := RuntimeOf(h, n).(online := true, connectedAt := Some(now), lastSeenAt := Some(now))])
  }

  lemma InstallLeavesEmpty(h: State, n: NodeId, c: ConnId, now: Time)
    requires SupersededEmpty(h) && CurrentKnown(h) && c !in h.conns
    requires n in h.current ==> h.conns[h.current[n]].pending == {}
    ensures SupersededEmpty(Install(h, n, c, now))
  {
    var h' := Install(h, n, c, now);
    forall d | d in h'.conns && !IsCurrent(h', d)
      ensures h'.conns[d].pending == {}
    {
      if d != c && !(n in h.current && d == h.current[n]) {
        assert !IsCurrent(h, d);
      }
    }
  }

  lemma InstallKeepsRequests(h: State, n: NodeId, c: ConnId, now: Time)
    requires PendingKnown(h) && RequestsKnown(h) && NoneDangling(h) && AnswersMatch(h) && c !in h.conns
    ensures var h' := Install(h, n, c, now); PendingKnown(h') && RequestsKnown(h') && NoneDangling(h') && AnswersMatch(h')
  {
  }

  lemma InstallKeepsInv(h: State, n: NodeId, c: ConnId, now: Time)
    requires Inv(h) && c !in h.conns
    requires n in h.current ==> h.conns[h.current[n]].pending == {}
    ensures Inv(Install(h, n, c, now))
  {
    var h' := Install(h, n, c, now);
    InstallLeavesEmpty(h, n, c, now);
    InstallKeepsRequests(h, n, c, now);
    hide SupersededEmpty, PendingKnown, RequestsKnown, NoneDangling, AnswersMatch;
  }

  lemma DialKeepsInv(h: State, n: NodeId, c: ConnId, now: Time)
    requires Inv(h) && c !in h.conns
    ensures Inv(BeginRegister(h, n, c, now))
  {
    if n in h.current {
      FailKeepsInv(h, h.current[n]);
      var failed := FailPending(h, h.current[n]);
      InstallKeepsInv(failed, n, c, now);
      hide Inv;
      var h' := BeginRegister(h, n, c, now);
      assert h'.conns == Install(failed, n, c, now).conns;
      assert h' == Install(failed, n, c, now);
    } else {
      InstallKeepsInv(h, n, c, now);
    }
  }

  // Taking a connection out of the table of registered ones.
  function Drop(h: State, c: ConnId): State
    requires c in h.conns
  {
    var n := h.conns[c].node;
    h.(current := h.current - {n}, runtime := h.runtime[n := RuntimeOf(h, n).(online := false)])
  }

  lemma DropKeepsInv(h: State, c: ConnId)
    requires Inv(h) && IsCurrent(h, c) && h.conns[c].pending == {}
    ensures Inv(Drop(h, c))
  {
    var h' := Drop(h, c);
    forall d | d in h'.conns && !IsCurrent(h', d)
      ensures h'.conns[d].pending == {}
    {
      if d != c {
        assert !IsCurrent(h, d);
      }
    }
  }

  lemma HangupKeepsInv(h: State, c: ConnId)
    requires Inv(h) && c in h.conns
    ensures Inv(Unregister(h, c))
  {
    if IsCurrent(h, c) {
      FailKeepsInv(h, c);
      var failed := FailPending(h, c);
      DropKeepsInv(failed, c);
      hide Inv;
      assert Unregister(h, c) == Drop(failed, c);
    }
  }

  lemma AskKeepsInv(h: State, n: NodeId, id: RequestId, command: string, payload: Json)
    requires Inv(h) && id !in h.requests && n in h.current
    ensures Inv(BeginRequest(h, n, id, command, payload))
  {
    var h' := BeginRequest(h, n, id, command, payload);
    assert IsCurrent(h, h.current[n]);
    assert forall d :: IsCurrent(h', d) <==> IsCurrent(h, d);
  }

  lemma EndKeepsInv(h: State, id: RequestId, outcome: Outcome)
    requires Inv(h) && id in h.requests
    ensures Inv(End(h, id, outcome))
  {
    var h' := End(h, id, outcome);
    assert forall d :: IsCurrent(h', d) <==> IsCurrent(h, d);
    EndKeepsRequests(h, id, outcome);
    hide IsCurrent, NoneDangling, AnswersMatch, PendingKnown, RequestsKnown;
  }

  lemma EndKeepsRequests(h: State, id: RequestId, outcome: Outcome)
    requires PendingKnown(h) && RequestsKnown(h) && NoneDangling(h) && AnswersMatch(h) && id in h.requests
    ensures var h' := End(h, id, outcome); PendingKnown(h') && RequestsKnown(h') && NoneDangling(h') && AnswersMatch(h')
  {
  }

  lemma MarkOnlineKeepsInv(h: State, c: ConnId, system: Option<Json>, now: Time)
    requires Inv(h) && c in h.conns
    ensures Inv(MarkOnline(h, c, system, now))
  {
    var h' := MarkOnline(h, c, system, now);
    assert forall d :: IsCurrent(h', d) <==> IsCurrent(h, d);
  }

  lemma SettleKeepsInv(h: State, id: RequestId, future: FutureState)
    requires Inv(h) && id in h.requests && !future.Open?
    requires future.Resolved? ==> future.message.Response? && future.message.id == Some(id)
    ensures Inv(h.(requests := h.requests[id := SettleFuture(h.requests[id], future)]))
  {
    var h' := h.(requests := h.requests[id := SettleFuture(h.requests[id], future)]);
    assert forall d :: IsCurrent(h', d) <==> IsCurrent(h, d);
    SettleKeepsRequests(h, h', id, future);
    hide IsCurrent, SettleFuture, NoneDangling, AnswersMatch, PendingKnown, RequestsKnown;
  }

  lemma SettleKeepsRequests(h: State, h': State, id: RequestId, future: FutureState)
    requires PendingKnown(h) && RequestsKnown(h) && NoneDangling(h) && AnswersMatch(h) && id in h.requests && !future.Open?
    requires future.Resolved? ==> future.message.Response? && future.message.id == Some(id)
    requires h' == h.(requests := h.requests[id := SettleFuture(h.requests[id], future)])
    ensures PendingKnown(h') && RequestsKnown(h') && NoneDangling(h') && AnswersMatch(h')
  {
  }

  lemma MessageKeepsInv(h: State, c: ConnId, m: Message, now: Time)
    requires Inv(h) && c in h.conns
    ensures Inv(HandleMessage(h, c, m, now))
  {
    if m.Response? && m.id.Some? && m.id.value in h.conns[c].pending {
      SettleKeepsInv(h, m.id.value, Resolved(m));
      assert PendingKnown(h);
      hide Inv, SettleFuture;
    } else if m.Status? && IsCurrent(h, c) {
      StatusKeepsInv(h, c, m, now);
    }
  }

  lemma StatusKeepsInv(h: State, c: ConnId, m: Message, now: Time)
    requires Inv(h) && c in h.conns && m.Status? && IsCurrent(h, c)
    ensures Inv(HandleMessage(h, c, m, now))
  {
    var marked := MarkOnline(h, c, m.system, now);
    MarkOnlineKeepsInv(h, c, m.system, now);
    hide MarkOnline;
    PersistKeepsInv(marked, h.conns[c].node, m.system, m.key, now);
  }

  lemma PersistKeepsInv(h: State, n: NodeId, system: Option<Json>, key: Option<string>, now: Time)
    requires Inv(h) && n in h.runtime
    ensures Inv(Persist(h, n, system, key, now))
  {
    hide NeedsPersist, PendingKnown, RequestsKnown, NoneDangling, AnswersMatch;
    var h' := Persist(h, n, system, key, now);
    assert h'.current == h.current && h'.conns == h.conns && h'.requests == h.requests;
    SameTables(h, h');
    assert forall d :: IsCurrent(h', d) <==> IsCurrent(h, d);
  }

  lemma SameTables(h: State, h': State)
    requires h'.conns == h.conns && h'.requests == h.requests
    ensures PendingKnown(h) == PendingKnown(h') && RequestsKnown(h) == RequestsKnown(h')
    ensures NoneDangling(h) == NoneDangling(h') && AnswersMatch(h) == AnswersMatch(h')
  {
  }

  lemma ReadyKeepsRequests(h: State, c: ConnId)
    requires PendingKnown(h) && RequestsKnown(h) && NoneDangling(h) && AnswersMatch(h) && c in h.conns
    ensures var h' := FinishRegister(h, c); PendingKnown(h') && RequestsKnown(h') && NoneDangling(h') && AnswersMatch(h')
  {
  }

  lemma ReadyKeepsInv(h: State, c: ConnId)
    requires Inv(h) && c in h.conns
    ensures Inv(FinishRegister(h, c))
  {
    var h' := FinishRegister(h, c);
    assert forall d :: IsCurrent(h', d) <==> IsCurrent(h, d);
    ReadyKeepsRequests(h, c);
    hide IsCurrent, NoneDangling, AnswersMatch, PendingKnown, RequestsKnown;
  }

  lemma AwaitKeepsInv(h: State, id: RequestId)
    requires Inv(h) && id in h.requests && h.requests[id].phase.Sending?
    ensures Inv(SendReturns(h, id, true))
  {
    var h' := SendReturns(h, id, true);
    assert forall d :: IsCurrent(h', d) <==> IsCurrent(h, d);
  }

  lemma InvConns(h: State)
    requires Inv(h)
    ensures RequestsKnown(h) && AnswersMatch(h) && CurrentKnown(h)
  {
  }

  lemma StepKeepsInv(h: State, e: Event)
    requires Inv(h) && Enabled(h, e)
    ensures Inv(Step(h, e))
  {
    hide Inv;
    InvConns(h);
    match e
    case Dial(n, c, at) => DialKeepsInv(h, n, c, at);
    case Ready(c) => ReadyKeepsInv(h, c);
    case Hangup(c) => HangupKeepsInv(h, c);
    case Ask(n, id, command, payload) => AskKeepsInv(h, n, id, command, payload);
    case Sent(id, ok) =>
      if ok {
        AwaitKeepsInv(h, id);
      } else {
        EndKeepsInv(h, id, Offline);
      }
    case Deliver(c, m, at) => MessageKeepsInv(h, c, m, at);
    case Timeout(id) =>
      SettleKeepsInv(h, id, Cancelled);
      EndKeepsInv(h.(requests := h.requests[id := SettleFuture(h.requests[id], Cancelled)]), id, TimedOut);
    case Wake(id, at) =>
      var r := h.requests[id];
      var outcome := if r.future.Resolved? then OutcomeOf(r.future.message) else Offline;
      EndKeepsInv(h, id, outcome);
      MarkOnlineKeepsInv(End(h, id, outcome), r.conn, None, at);
  }

  // The invariant holds after every run, under every interleaving.
  lemma {:induction false} RunKeepsInv(h: State, events: seq<Event>)
    requires Inv(h) && Exec(h, events).Some?
    ensures Inv(Exec(h, events).value)
  {
    if events != [] {
      var n := |events| - 1;
      RunKeepsInv(h, events[..n]);
      StepKeepsInv(Exec(h, events[..n]).value, events[n]);
    }
  }
}
