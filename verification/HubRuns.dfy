/**
What holds over whole runs of the hub: where open requests live, that outcomes are final, which
connection a node's entry names, and how status reports are persisted.
*/
module HubRuns {
  import opened Hub

  // The states reachable from a freshly started backend.
  ghost predicate Reachable(events: seq<Event>, h: State) {
    Exec(EMPTY, events) == Some(h)
  }

  lemma ReachableInv(events: seq<Event>, h: State)
    requires Reachable(events, h)
    ensures Inv(h)
  {
    RunKeepsInv(EMPTY, events);
  }

  // ----- open requests -----

  predicate Waiting(h: State, id: RequestId) {
    id in h.requests && !h.requests[id].phase.Finished? && h.requests[id].future.Open?
  }

  // Every unresolved request sits in the pending table of its node's registered connection.
  lemma WaitingSitsOnCurrent(events: seq<Event>, h: State, id: RequestId)
    requires Reachable(events, h) && Waiting(h, id)
    ensures var r := h.requests[id];
      r.node in h.current && h.current[r.node] == r.conn && r.conn in h.conns && id in h.conns[r.conn].pending
  {
    ReachableInv(events, h);
    assert IsCurrent(h, h.requests[id].conn);
  }

  // Replacing a node's connection fails every request open on the old one and no other.
  lemma ReplacementFailsOpenRequests(events: seq<Event>, h: State, n: NodeId, c: ConnId, at: Time, id: RequestId)
    requires Reachable(events, h) && Enabled(h, Dial(n, c, at)) && Waiting(h, id)
    ensures var h' := Step(h, Dial(n, c, at));
      h'.requests[id] == if h.requests[id].node == n then h.requests[id].(future := Failed) else h.requests[id]
  {
    WaitingSitsOnCurrent(events, h, id);
    ReachableInv(events, h);
    var r := h.requests[id];
    if r.node != n && n in h.current {
      assert h.conns[h.current[n]].node == n;
      assert id !in h.conns[h.current[n]].pending;
    }
  }

  // So does losing it, unless it had been replaced before.
  lemma HangupFailsOpenRequests(events: seq<Event>, h: State, c: ConnId, id: RequestId)
    requires Reachable(events, h) && Enabled(h, Hangup(c)) && Waiting(h, id)
    ensures var h' := Step(h, Hangup(c));
      h'.requests[id] == if h.requests[id].conn == c then h.requests[id].(future := Failed) else h.requests[id]
    ensures h.requests[id].conn == c ==> IsCurrent(h, c)
  {
    WaitingSitsOnCurrent(events, h, id);
    ReachableInv(events, h);
  }

  // A request whose future failed can only end as offline, or by its timeout.
  lemma FailedEndsOffline(h: State, e: Event, id: RequestId)
    requires Inv(h) && Enabled(h, e)
    requires id in h.requests && !h.requests[id].phase.Finished? && h.requests[id].future.Failed?
    ensures id in Step(h, e).requests
    ensures var r := Step(h, e).requests[id];
      r.future.Failed? && (r.phase.Finished? ==> r.phase.outcome == Offline || r.phase.outcome == TimedOut)
  {
    hide RuntimeOf, NeedsPersist, AnswersMatch, CurrentKnown, OnlineExact, SupersededEmpty, NoneDangling;
    if e.Deliver? {
      hide Persist, MarkOnline;
    } else if e.Dial? || e.Hangup? || e.Ready? {
      hide PendingKnown, HandleMessage;
    } else {
      hide PendingKnown, HandleMessage, FailPending, MarkOnline;
    }
  }

  // ----- outcomes -----

  // A finished request never changes again, in any step.
  lemma OutcomeIsFinal(h: State, e: Event, id: RequestId)
    requires Inv(h) && Enabled(h, e)
    requires id in h.requests && h.requests[id].phase.Finished?
    ensures id in Step(h, e).requests && Step(h, e).requests[id] == h.requests[id]
  {
    hide RuntimeOf, NeedsPersist, AnswersMatch, CurrentKnown, OnlineExact, SupersededEmpty, NoneDangling;
  }

  lemma {:induction false} OutcomeIsFinalInRun(h: State, events: seq<Event>, id: RequestId)
    requires Inv(h) && Exec(h, events).Some?
    requires id in h.requests && h.requests[id].phase.Finished?
    ensures id in Exec(h, events).value.requests && Exec(h, events).value.requests[id] == h.requests[id]
  {
    if events != [] {
      var n := |events| - 1;
      OutcomeIsFinalInRun(h, events[..n], id);
      RunKeepsInv(h, events[..n]);
      OutcomeIsFinal(Exec(h, events[..n]).value, events[n], id);
    }
  }

  // The steps a request takes itself: its send returns, then its wait times out or is woken.
  predicate Own(e: Event, id: RequestId) {
    (e.Sent? && e.id == id) || (e.Timeout? && e.id == id) || (e.Wake? && e.id == id)
  }

  function StepsLeft(phase: Phase): nat {
    match phase
    case Sending => 2
    case Awaiting => 1
    case Finished(_) => 0
  }

  function OwnSteps(events: seq<Event>, id: RequestId): nat {
    if events == [] then 0
    else OwnSteps(events[..|events| - 1], id) + if Own(events[|events| - 1], id) then 1 else 0
  }

  // No step but its own moves a request on, and each of its own does.
  lemma OwnStepsMoveOn(h: State, e: Event, id: RequestId)
    requires Inv(h) && Enabled(h, e) && id in h.requests
    ensures id in Step(h, e).requests
    ensures var before, after := StepsLeft(h.requests[id].phase), StepsLeft(Step(h, e).requests[id].phase);
      if Own(e, id) then after < before else after == before
  {
    hide RuntimeOf, NeedsPersist, CurrentKnown, OnlineExact, SupersededEmpty, NoneDangling, PendingKnown, AnswersMatch;
  }

  // Whatever else happens in between, a request takes at most two steps of its own, and it is
  // finished once it has taken those it has left.
  lemma {:induction false} WaitIsBounded(h: State, events: seq<Event>, id: RequestId)
    requires Inv(h) && Exec(h, events).Some? && id in h.requests
    ensures id in Exec(h, events).value.requests
    ensures OwnSteps(events, id) + StepsLeft(Exec(h, events).value.requests[id].phase) <= StepsLeft(h.requests[id].phase)
  {
    if events != [] {
      var n := |events| - 1;
      WaitIsBounded(h, events[..n], id);
      RunKeepsInv(h, events[..n]);
      hide Inv, Step, Enabled, StepsLeft, Own;
      OwnStepsMoveOn(Exec(h, events[..n]).value, events[n], id);
    }
  }

  // And until it is finished it always has one of those steps to take.
  lemma EveryWaitCanEnd(h: State, id: RequestId)
    requires Inv(h) && id in h.requests
    ensures (exists e :: Own(e, id) && Enabled(h, e)) <==> !h.requests[id].phase.Finished?
  {
    if h.requests[id].phase.Sending? {
      assert Own(Sent(id, false), id) && Enabled(h, Sent(id, false));
    } else if h.requests[id].phase.Awaiting? {
      assert Own(Timeout(id), id) && Enabled(h, Timeout(id));
    }
  }

  // A response that is wanted resolves its request, and the wait then ends with what it says: the
  // error if there is one, else the result if it is an object.
  lemma WantedResponseAnswers(h: State, c: ConnId, id: RequestId, error: Option<string>, result: Option<Json>, at: Time, later: Time)
    requires Inv(h) && Waiting(h, id) && h.requests[id].phase.Awaiting? && h.requests[id].conn == c
    requires Enabled(h, Deliver(c, Response(Some(id), error, result), at))
    ensures var h1 := Step(h, Deliver(c, Response(Some(id), error, result), at));
      && h1.requests == h.requests[id := h.requests[id].(future := Resolved(Response(Some(id), error, result)))]
      && Enabled(h1, Wake(id, later))
      && Step(h1, Wake(id, later)).requests[id].phase
         == Finished(if error.Some? then NodeError(error.value) else if result.Some? then Answered(result.value) else InvalidResponse)
  {
    hide CurrentKnown, PendingKnown, RequestsKnown, SupersededEmpty, OnlineExact, AnswersMatch;
    assert id in h.conns[c].pending;
    hide Inv, NoneDangling, Persist, NeedsPersist, RuntimeOf;
  }

  // A request nobody answers ends by its cause: a failed send or a lost connection is "offline", an
  // expired wait is a timeout.
  lemma UnansweredEndsByCause(h: State, id: RequestId, at: Time)
    requires Inv(h) && id in h.requests
    ensures Enabled(h, Sent(id, false)) ==> Step(h, Sent(id, false)).requests[id].phase == Finished(Offline)
    ensures Enabled(h, Timeout(id)) ==> Step(h, Timeout(id)).requests[id].phase == Finished(TimedOut)
    ensures Enabled(h, Wake(id, at)) && h.requests[id].future.Failed? ==> Step(h, Wake(id, at)).requests[id].phase == Finished(Offline)
  {
    hide Inv, MarkOnline;
  }

  // A response that is late, repeated, misdirected or made up completes nothing.
  lemma StrayResponseIsInert(h: State, c: ConnId, m: Message, at: Time)
    requires Inv(h) && c in h.conns && m.Response?
    requires m.id.Some? ==> !(Waiting(h, m.id.value) && h.requests[m.id.value].conn == c)
    ensures HandleMessage(h, c, m, at) == h
  {
    if m.id.Some? && m.id.value in h.conns[c].pending {
      assert h.requests[m.id.value := h.requests[m.id.value]] == h.requests;
    }
  }

  // ----- superseded connections -----

  // Nothing a superseded connection sends, nor its end, changes anything.
  lemma SupersededIsInert(h: State, c: ConnId, m: Message, at: Time)
    requires Inv(h) && c in h.conns && !IsCurrent(h, c)
    ensures HandleMessage(h, c, m, at) == h && Unregister(h, c) == h
  {
  }

  // The position of an event that settles which connection a node's entry names.
  ghost predicate RegisteredLast(events: seq<Event>, n: NodeId, c: ConnId, i: nat) {
    && i < |events| && events[i].Dial? && events[i].node == n && events[i].conn == c
    && forall j :: i < j < |events| ==> !(events[j].Dial? && events[j].node == n) && events[j] != Hangup(c)
  }

  // The event after which `c` is registered for `n` stays that event unless the next one overrides it.
  lemma RegisteredLastExtends(events: seq<Event>, e: Event, n: NodeId, c: ConnId)
    ensures (exists i: nat :: RegisteredLast(events + [e], n, c, i))
       <==> (if e.Dial? && e.node == n then e.conn == c
             else (exists i: nat :: RegisteredLast(events, n, c, i)) && e != Hangup(c))
  {
    var longer, k := events + [e], |events|;
    if i: nat :| RegisteredLast(longer, n, c, i) && i < k {
      assert forall j :: i <= j < k ==> longer[j] == events[j];
      assert longer[k] == e;
      assert RegisteredLast(events, n, c, i);
    }
    if e.Dial? && e.node == n && e.conn == c {
      assert RegisteredLast(longer, n, c, k);
    }
    if i: nat :| RegisteredLast(events, n, c, i) && !(e.Dial? && e.node == n) && e != Hangup(c) {
      assert forall j :: i <= j < k ==> longer[j] == events[j];
      assert RegisteredLast(longer, n, c, i);
    }
  }

  // A node's entry is the connection registered last for it, until that one hangs up.
  lemma {:induction false} EntryIsLastRegistered(events: seq<Event>, h: State, n: NodeId, c: ConnId)
    requires Reachable(events, h)
    ensures n in h.current && h.current[n] == c <==> exists i: nat :: RegisteredLast(events, n, c, i)
  {
    if events != [] {
      var k := |events| - 1;
      var before := Exec(EMPTY, events[..k]).value;
      EntryIsLastRegistered(events[..k], before, n, c);
      ReachableInv(events[..k], before);
      hide Step, Enabled, RegisteredLast;
      EntryAfterStep(before, events[k], n, c);
      RegisteredLastExtends(events[..k], events[k], n, c);
      assert events == events[..k] + [events[k]];
    }
  }

  // How one step changes the table of registered connections.
  lemma CurrentAfterStep(h: State, e: Event)
    requires Enabled(h, e)
    ensures Step(h, e).current ==
      if e.Dial? then h.current[e.node := e.conn]
      else if e.Hangup? && IsCurrent(h, e.conn) then h.current - {h.conns[e.conn].node}
      else h.current
  {
    hide RuntimeOf, NeedsPersist, OutcomeOf;
  }

  lemma EntryAfterStep(h: State, e: Event, n: NodeId, c: ConnId)
    requires CurrentKnown(h) && Enabled(h, e)
    ensures var h' := Step(h, e);
      n in h'.current && h'.current[n] == c
      <==> (if e.Dial? && e.node == n then e.conn == c else n in h.current && h.current[n] == c && e != Hangup(c))
  {
    CurrentAfterStep(h, e);
    hide Step;
  }

  // ----- throttled persistence -----

  // The step is a status report of a node's registered connection that is written to the database.
  predicate WritesStatus(h: State, e: Event, n: NodeId) {
    && e.Deliver? && e.message.Status? && IsCurrent(h, e.conn) && h.conns[e.conn].node == n
    && NeedsPersist(RuntimeOf(h, n), e.message.key, e.at)
  }

  lemma WriteStamps(h: State, e: Event, n: NodeId)
    requires Inv(h) && Enabled(h, e) && WritesStatus(h, e, n)
    ensures RuntimeOf(Step(h, e), n).persistedAt == Some(e.at)
  {
  }

  lemma StampKept(h: State, e: Event, n: NodeId)
    requires Inv(h) && Enabled(h, e) && !WritesStatus(h, e, n)
    requires e.Ready? ==> h.conns[e.conn].node != n
    ensures RuntimeOf(Step(h, e), n).persistedAt == RuntimeOf(h, n).persistedAt
  {
    if e.Deliver? && e.message.Status? && IsCurrent(h, e.conn) && h.conns[e.conn].node == n {
      var marked := MarkOnline(h, e.conn, e.message.system, e.at);
      assert !NeedsPersist(RuntimeOf(marked, n), e.message.key, e.at);
    }
  }

  // A stretch of a run without a status write for the node.
  ghost predicate Quiet(h: State, events: seq<Event>, n: NodeId) {
    events != [] ==>
      var k := |events| - 1;
      Quiet(h, events[..k], n) && Exec(h, events[..k]).Some? && !WritesStatus(Exec(h, events[..k]).value, events[k], n)
  }

  // When the registration that completed last in a stretch had begun, or `start` if none completed.
  ghost function LastRegistration(h: State, events: seq<Event>, n: NodeId, start: Time): Time {
    if events == [] || Exec(h, events[..|events| - 1]).None? then start
    else
      var k := |events| - 1;
      var before := Exec(h, events[..k]).value;
      if events[k].Ready? && events[k].conn in before.conns && before.conns[events[k].conn].node == n
      then before.conns[events[k].conn].startedAt
      else LastRegistration(h, events[..k], n, start)
  }

  lemma ReadyStamps(h: State, c: ConnId)
    requires Enabled(h, Ready(c))
    ensures RuntimeOf(Step(h, Ready(c)), h.conns[c].node).persistedAt == Some(h.conns[c].startedAt)
  {
  }

  // Without status writes the time on record is that of the last registration.
  lemma {:induction false} StampIsLastRegistration(h: State, events: seq<Event>, n: NodeId, start: Time)
    requires Inv(h) && Exec(h, events).Some? && Quiet(h, events, n)
    requires RuntimeOf(h, n).persistedAt == Some(start)
    ensures RuntimeOf(Exec(h, events).value, n).persistedAt == Some(LastRegistration(h, events, n, start))
  {
    if events != [] {
      var k := |events| - 1;
      StampIsLastRegistration(h, events[..k], n, start);
      RunKeepsInv(h, events[..k]);
      var before := Exec(h, events[..k]).value;
      hide Inv, Step, WritesStatus, RuntimeOf;
      if events[k].Ready? && before.conns[events[k].conn].node == n {
        ReadyStamps(before, events[k].conn);
      } else {
        StampKept(before, events[k], n);
      }
    }
  }

  // A connection of the node is registered and may send.
  predicate CanReport(h: State, n: NodeId) {
    n in h.current && h.current[n] in h.conns && h.conns[h.current[n]].ready
  }

  // The next status write of a node, at `now` or later, keeps a minute's distance or brings a new key.
  ghost predicate Spaced(h: State, n: NodeId, first: Time, now: Time) {
    forall second :: Enabled(h, second) && WritesStatus(h, second, n) && second.at >= now ==>
      second.at - first >= PERSIST_INTERVAL || KeyChanged(RuntimeOf(h, n), second.message.key)
  }

  lemma SpacedExactly(h: State, n: NodeId, stamp: Time, first: Time, now: Time)
    requires Inv(h) && RuntimeOf(h, n).persistedAt == Some(stamp)
    ensures Spaced(h, n, first, now) <==> stamp >= first || now - first >= PERSIST_INTERVAL || !CanReport(h, n)
  {
    if stamp < first && now - first < PERSIST_INTERVAL && CanReport(h, n) {
      var at := if now < stamp + PERSIST_INTERVAL then stamp + PERSIST_INTERVAL else now;
      var second := Deliver(h.current[n], Status(None, None), at);
      assert Enabled(h, second) && WritesStatus(h, second, n);
      assert !(second.at - first >= PERSIST_INTERVAL || KeyChanged(RuntimeOf(h, n), second.message.key));
    }
  }

  // After a status write, and with the clock at `now`, the next one is a minute later or brings a
  // new key exactly when the registration that completed last in between had not begun before the
  // write, or the minute is over, or nobody is registered who could report.
  lemma WritesAreSpaced(h: State, first: Event, between: seq<Event>, h': State, n: NodeId, now: Time)
    requires Inv(h) && Enabled(h, first) && WritesStatus(h, first, n)
    requires Exec(Step(h, first), between) == Some(h') && Quiet(Step(h, first), between, n)
    ensures Spaced(h', n, first.at, now)
       <==> LastRegistration(Step(h, first), between, n, first.at) >= first.at
            || now - first.at >= PERSIST_INTERVAL || !CanReport(h', n)
  {
    assert first.Deliver?;
    hide Inv, Step, WritesStatus, Spaced, RuntimeOf, Enabled, Quiet;
    WriteStamps(h, first, n);
    StepKeepsInv(h, first);
    RunKeepsInv(Step(h, first), between);
    StampIsLastRegistration(Step(h, first), between, n, first.at);
    SpacedExactly(h', n, LastRegistration(Step(h, first), between, n, first.at), first.at, now);
  }

  // In particular a write and the next are spaced unless a registration completed in between.
  lemma {:induction false} NoRegistrationKeepsStart(h: State, events: seq<Event>, n: NodeId, start: Time)
    requires forall k :: 0 <= k < |events| ==> !events[k].Ready?
    ensures LastRegistration(h, events, n, start) == start
  {
    if events != [] && Exec(h, events[..|events| - 1]).Some? {
      NoRegistrationKeepsStart(h, events[..|events| - 1], n, start);
    }
  }

  // The last key a registered connection of the node reported in a run.
  ghost function LastKey(events: seq<Event>, n: NodeId): Option<string> {
    if events == [] || Exec(EMPTY, events[..|events| - 1]).None? then None
    else
      var k := |events| - 1;
      var before, e := Exec(EMPTY, events[..k]).value, events[k];
      if e.Deliver? && e.message.Status? && e.message.key.Some? && IsCurrent(before, e.conn) && before.conns[e.conn].node == n
      then e.message.key
      else LastKey(events[..k], n)
  }

  // Throttling loses no key: the recorded one is always the last one reported.
  lemma {:induction false} RecordedKeyIsLastReported(events: seq<Event>, h: State, n: NodeId)
    requires Reachable(events, h)
    ensures RuntimeOf(h, n).persistedKey == LastKey(events, n)
  {
    if events != [] {
      var k := |events| - 1;
      var before := Exec(EMPTY, events[..k]).value;
      RecordedKeyIsLastReported(events[..k], before, n);
      ReachableInv(events[..k], before);
      KeyAfterStep(before, events[k], n);
    }
  }

  lemma KeyAfterReport(h: State, c: ConnId, system: Option<Json>, key: Option<string>, at: Time, n: NodeId)
    requires c in h.conns
    ensures RuntimeOf(HandleMessage(h, c, Status(system, key), at), n).persistedKey ==
      if key.Some? && IsCurrent(h, c) && h.conns[c].node == n then key else RuntimeOf(h, n).persistedKey
  {
  }

  lemma KeyAfterStep(h: State, e: Event, n: NodeId)
    requires Inv(h) && Enabled(h, e)
    ensures RuntimeOf(Step(h, e), n).persistedKey ==
      if e.Deliver? && e.message.Status? && e.message.key.Some? && IsCurrent(h, e.conn) && h.conns[e.conn].node == n
      then e.message.key else RuntimeOf(h, n).persistedKey
  {
    hide Inv;
    if e.Deliver? && e.message.Status? {
      hide HandleMessage;
      KeyAfterReport(h, e.conn, e.message.system, e.message.key, e.at, n);
    } else {
      hide Persist, NeedsPersist, SettleFuture;
    }
  }

  // ----- what else is known of a node -----

  // A status report of the node's registered connection.
  predicate Reports(h: State, e: Event, n: NodeId) {
    e.Deliver? && e.message.Status? && IsCurrent(h, e.conn) && h.conns[e.conn].node == n
  }

  // A request on the node's registered connection ends with a result.
  predicate Answers(h: State, e: Event, n: NodeId) {
    && e.Wake? && e.id in h.requests && h.requests[e.id].future.Resolved? && OutcomeOf(h.requests[e.id].future.message).Answered?
    && IsCurrent(h, h.requests[e.id].conn) && h.conns[h.requests[e.id].conn].node == n
  }

  // A node is connected since it dialled in last; it was seen last then, or at its last status report
  // or answer; its status is the last one reported, and the stored one the last one written.
  lemma RuntimeAfterStep(h: State, e: Event, n: NodeId)
    requires Inv(h) && Enabled(h, e)
    ensures var r, r' := RuntimeOf(h, n), RuntimeOf(Step(h, e), n);
      var dialled := e.Dial? && e.node == n;
      && r'.connectedAt == (if dialled then Some(e.at) else r.connectedAt)
      && r'.lastSeenAt == (if dialled || Reports(h, e, n) || Answers(h, e, n) then Some(e.at) else r.lastSeenAt)
      && r'.system == (if Reports(h, e, n) && e.message.system.Some? then e.message.system else r.system)
      && r'.persistedSystem == (if WritesStatus(h, e, n) && e.message.system.Some? then e.message.system else r.persistedSystem)
  {
    hide Inv;
    match e
    case Dial(_, _, _) =>
    case Deliver(c, m, at) =>
      if m.Status? {
        hide HandleMessage;
        ReportSeen(h, c, m.system, m.key, at, n);
      } else {
        hide Persist, MarkOnline;
      }
    case Wake(id, at) => WakeSeen(h, id, at, n);
    case _ => hide Persist, MarkOnline, HandleMessage;
  }

  lemma ReportSeen(h: State, c: ConnId, system: Option<Json>, key: Option<string>, at: Time, n: NodeId)
    requires c in h.conns
    ensures var r, r' := RuntimeOf(h, n), RuntimeOf(HandleMessage(h, c, Status(system, key), at), n);
      var reports := IsCurrent(h, c) && h.conns[c].node == n;
      && r'.connectedAt == r.connectedAt
      && r'.lastSeenAt == (if reports then Some(at) else r.lastSeenAt)
      && r'.system == (if reports && system.Some? then system else r.system)
      && r'.persistedSystem == (if reports && NeedsPersist(r, key, at) && system.Some? then system else r.persistedSystem)
  {
  }

  lemma WakeSeen(h: State, id: RequestId, at: Time, n: NodeId)
    requires Enabled(h, Wake(id, at))
    ensures var r, r' := RuntimeOf(h, n), RuntimeOf(Resume(h, id, at), n);
      r' == if Answers(h, Wake(id, at), n) then r.(online := true, lastSeenAt := Some(at)) else r
  {
    hide NeedsPersist;
  }

  // ----- a registration completing in between defeats the throttle -----

  const NODE: NodeId := 7
  const EARLY: Time := 0
  const LATE: Time := 61_000_000

  // Two status reports a second apart are both written, with the same key, when the registration of
  // an already replaced connection completes between them: it puts back its own older timestamp.
  lemma StaleRegistrationDefeatsThrottle(key: string) returns (h3: State, h5: State)
    ensures Exec(EMPTY, [Dial(NODE, 0, EARLY), Dial(NODE, 1, LATE), Ready(1)]) == Some(h3)
    ensures Enabled(h3, Deliver(1, Status(None, Some(key)), LATE)) && WritesStatus(h3, Deliver(1, Status(None, Some(key)), LATE), NODE)
    ensures Exec(h3, [Deliver(1, Status(None, Some(key)), LATE), Ready(0)]) == Some(h5)
    ensures WritesStatus(h5, Deliver(1, Status(None, Some(key)), LATE + 1_000_000), NODE)
    ensures !KeyChanged(RuntimeOf(h5, NODE), Some(key))
  {
    var d0, d1, r1 := Dial(NODE, 0, EARLY), Dial(NODE, 1, LATE), Ready(1);
    var status, r0 := Deliver(1, Status(None, Some(key)), LATE), Ready(0);
    var h1 := Step(EMPTY, d0);
    var h2 := Step(h1, d1);
    h3 := Step(h2, r1);
    ExecThree(EMPTY, d0, d1, r1);
    var h4 := Step(h3, status);
    h5 := Step(h4, r0);
    ExecTwo(h3, status, r0);
  }

  lemma ExecTwo(h: State, a: Event, b: Event)
    requires Enabled(h, a) && Enabled(Step(h, a), b)
    ensures Exec(h, [a, b]) == Some(Step(Step(h, a), b))
  {
    assert [a, b][..1] == [a] && [a][..0] == [];
    assert Exec(h, []) == Some(h);
    assert Exec(h, [a]) == Some(Step(h, a));
  }

  lemma ExecThree(h: State, a: Event, b: Event, c: Event)
    requires Enabled(h, a) && Enabled(Step(h, a), b) && Enabled(Step(Step(h, a), b), c)
    ensures Exec(h, [a, b, c]) == Some(Step(Step(Step(h, a), b), c))
  {
    ExecTwo(h, a, b);
    assert [a, b, c][..2] == [a, b];
  }
}
