/**
The hub as an object: its dictionaries are fields, and each method is one uninterrupted segment of
the coroutines that share it, written statement by statement. Connections and futures are named by
their ids, so the future in a pending table and the one a request waits on are one entry.
*/
module NodeHub {
  import opened Hub

  class NodeHub {
    var connections: map<NodeId, ConnId>
    var conns: map<ConnId, Conn>
    var requests: map<RequestId, Request>
    var runtime: map<NodeId, Runtime>

    // The state of the step machine this object is in.
    function AsState(): State
      reads this
    {
      State(connections, conns, requests, runtime)
    }

    ghost predicate Valid()
      reads this
    {
      Inv(AsState())
    }

    constructor ()
      ensures Valid() && AsState() == EMPTY
    {
      connections, conns, requests, runtime := map[], map[], map[], map[];
    }

    // Fails every open future of a connection and empties its pending table.
    method FailPending(c: ConnId)
      requires c in conns
      modifies `conns, `requests
      ensures AsState() == Hub.FailPending(old(AsState()), c)
    {
      var todo := conns[c].pending;
      while todo != {}
        invariant conns == old(conns) && todo <= conns[c].pending
        invariant connections == old(connections) && runtime == old(runtime)
        invariant requests.Keys == old(requests).Keys
        invariant forall r :: r in requests ==>
          requests[r] == if r in conns[c].pending - todo then SettleFuture(old(requests)[r], Failed) else old(requests)[r]
      {
        var r :| r in todo;
        if r in requests && requests[r].future.Open? {
          requests := requests[r := requests[r].(future := Failed)];
        }
        todo := todo - {r};
      }
      conns := conns[c := conns[c].(pending := {})];
      assert requests == Hub.FailPending(old(AsState()), c).requests;
    }

    method Register(n: NodeId, c: ConnId, now: Time)
      requires Valid() && Enabled(AsState(), Dial(n, c, now))
      modifies this
      ensures Valid() && AsState() == Step(old(AsState()), Dial(n, c, now))
    {
      DialKeepsInv(AsState(), n, c, now);
      hide Inv, Hub.FailPending;
      var previous := if n in connections then Some(connections[n]) else None;
      connections := connections[n := c];
      conns := conns[c := Conn(n, now, false, {})];
      var state := if n in runtime then runtime[n] else NEW_RUNTIME;
      state := state.(online := true);
      state := state.(connectedAt := Some(now));
      state := state.(lastSeenAt := Some(now));
      runtime := runtime[n := state];
      if previous.Some? && previous.value in conns && previous.value != c {
        FailPending(previous.value);
      }
    }

    method CompleteRegistration(c: ConnId)
      requires Valid() && Enabled(AsState(), Ready(c))
      modifies this
      ensures Valid() && AsState() == Step(old(AsState()), Ready(c))
    {
      ReadyKeepsInv(AsState(), c);
      hide Inv;
      var n := conns[c].node;
      var state := if n in runtime then runtime[n] else NEW_RUNTIME;
      state := state.(persistedAt := Some(conns[c].startedAt));
      runtime := runtime[n := state];
      conns := conns[c := conns[c].(ready := true)];
    }

    method Unregister(c: ConnId)
      requires Valid() && Enabled(AsState(), Hangup(c))
      modifies this
      ensures Valid() && AsState() == Step(old(AsState()), Hangup(c))
    {
      HangupKeepsInv(AsState(), c);
      hide Inv, Hub.FailPending;
      var n := conns[c].node;
      if n !in connections || connections[n] != c {
        return;
      }
      connections := connections - {n};
      var state := if n in runtime then runtime[n] else NEW_RUNTIME;
      state := state.(online := false);
      runtime := runtime[n := state];
      FailPending(c);
    }

    // First segment of a request. None when the node is disabled or offline, and nothing has changed then.
    method OpenRequest(n: NodeId, enabled: bool, id: RequestId, command: string, payload: Json) returns (connection: Option<ConnId>)
      requires Valid() && id !in requests
      modifies this
      ensures Valid()
      ensures connection == if enabled && n in old(connections) then Some(old(connections)[n]) else None
      ensures AsState() == if connection.Some? then Step(old(AsState()), Ask(n, id, command, payload)) else old(AsState())
      ensures connection.Some? ==> Enabled(old(AsState()), Ask(n, id, command, payload))
    {
      assert CurrentKnown(AsState());
      if n in connections {
        AskKeepsInv(AsState(), n, id, command, payload);
      }
      hide Inv;
      if !enabled {
        return None;
      }
      if n !in connections {
        return None;
      }
      var c := connections[n];
      requests := requests[id := Request(n, c, command, payload, Open, Sending)];
      conns := conns[c := conns[c].(pending := conns[c].pending + {id})];
      return Some(c);
    }

    // The end of every request: its entry leaves the pending table.
    method Close(id: RequestId, outcome: Outcome)
      requires id in requests && requests[id].conn in conns
      modifies this
      ensures AsState() == End(old(AsState()), id, outcome)
    {
      var c := requests[id].conn;
      conns := conns[c := conns[c].(pending := conns[c].pending - {id})];
      requests := requests[id := Finish(requests[id], outcome)];
    }

    method SendReturned(id: RequestId, ok: bool)
      requires Valid() && Enabled(AsState(), Sent(id, ok))
      modifies this
      ensures Valid() && AsState() == Step(old(AsState()), Sent(id, ok))
    {
      StepKeepsInv(AsState(), Sent(id, ok));
      hide Inv, End;
      if ok {
        requests := requests[id := requests[id].(phase := Awaiting)];
      } else {
        Close(id, Offline);
      }
    }

    method TimedOut(id: RequestId)
      requires Valid() && Enabled(AsState(), Timeout(id))
      modifies this
      ensures Valid() && AsState() == Step(old(AsState()), Timeout(id))
    {
      StepKeepsInv(AsState(), Timeout(id));
      hide Inv, End;
      if requests[id].future.Open? {
        requests := requests[id := requests[id].(future := Cancelled)];
      } else {
        assert requests[id := requests[id]] == requests;
      }
      Close(id, Outcome.TimedOut);
    }

    method Woke(id: RequestId, now: Time) returns (outcome: Outcome)
      requires Valid() && Enabled(AsState(), Wake(id, now))
      modifies this
      ensures Valid() && AsState() == Step(old(AsState()), Wake(id, now))
      ensures AsState().requests[id].phase == Finished(outcome)
    {
      StepKeepsInv(AsState(), Wake(id, now));
      hide Inv, End;
      var r := requests[id];
      if r.future.Failed? {
        outcome := Offline;
        Close(id, outcome);
      } else {
        outcome := OutcomeOf(r.future.message);
        Close(id, outcome);
        EndKeepsConns(old(AsState()), id, outcome);
        if outcome.Answered? {
          var current := RefreshLiveness(r.conn, None, now);
        }
      }
    }

    // Refreshes the liveness of a connection that is still its node's; false once it is not.
    method RefreshLiveness(c: ConnId, system: Option<Json>, now: Time) returns (current: bool)
      requires c in conns
      modifies `runtime
      ensures AsState() == MarkOnline(old(AsState()), c, system, now)
      ensures current == IsCurrent(AsState(), c)
    {
      var n := conns[c].node;
      if n !in connections || connections[n] != c {
        return false;
      }
      var state := if n in runtime then runtime[n] else NEW_RUNTIME;
      state := state.(online := true);
      state := state.(lastSeenAt := Some(now));
      if system.Some? {
        state := state.(system := system);
      }
      runtime := runtime[n := state];
      return true;
    }

    // Decides whether a status report goes to the database, and stamps it if so.
    method PersistIfNeeded(n: NodeId, system: Option<Json>, key: Option<string>, now: Time) returns (written: bool)
      modifies `runtime
      ensures AsState() == Persist(old(AsState()), n, system, key, now)
      ensures written == NeedsPersist(RuntimeOf(old(AsState()), n), key, now)
    {
      var state := if n in runtime then runtime[n] else NEW_RUNTIME;
      var intervalElapsed := state.persistedAt.None? || now - state.persistedAt.value >= PERSIST_INTERVAL;
      var keyChanged := key.Some? && key != state.persistedKey;
      if !(intervalElapsed || keyChanged) {
        return false;
      }
      state := state.(persistedAt := Some(now));
      if system.Some? {
        state := state.(persistedSystem := system);
      }
      if key.Some? {
        state := state.(persistedKey := key);
      }
      runtime := runtime[n := state];
      return true;
    }

    method Handle(c: ConnId, m: Message, now: Time)
      requires Valid() && Enabled(AsState(), Deliver(c, m, now))
      modifies this
      ensures Valid() && AsState() == Step(old(AsState()), Deliver(c, m, now))
    {
      MessageKeepsInv(AsState(), c, m, now);
      hide Inv, Persist, MarkOnline;
      match m
      case Response(id, _, _) =>
        if id.Some? && id.value in conns[c].pending && id.value in requests {
          if requests[id.value].future.Open? {
            requests := requests[id.value := requests[id.value].(future := Resolved(m))];
          } else {
            assert requests[id.value := requests[id.value]] == requests;
          }
        }
      case Status(system, key) =>
        MarkKeepsCurrent(AsState(), c, system, now);
        var current := RefreshLiveness(c, system, now);
        if current {
          var written := PersistIfNeeded(conns[c].node, system, key, now);
        }
      case Unknown =>
    }
  }

  lemma EndKeepsConns(h: State, id: RequestId, outcome: Outcome)
    requires id in h.requests && h.requests[id].conn in h.conns
    ensures var h' := End(h, id, outcome);
      h'.conns.Keys == h.conns.Keys && id in h'.requests && h'.requests[id].phase == Finished(outcome)
  {
  }

  lemma MarkKeepsCurrent(h: State, c: ConnId, system: Option<Json>, now: Time)
    requires c in h.conns
    ensures var h' := MarkOnline(h, c, system, now);
      h'.current == h.current && h'.conns == h.conns && (!IsCurrent(h, c) ==> h' == h)
  {
  }
}
