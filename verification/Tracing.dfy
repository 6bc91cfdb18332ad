/** When a request is traced to a connection, and when that connection is the live one. */
module Tracing {
  import opened Core
  import opened Tracker
  import opened EventStream
  import opened Correlator
  import opened Runtime
  import opened PipelineLaws

  /** The key of a TCP connection between two ends. */
  function KeyBetween(local: SocketAddr, remote: SocketAddr): ConnectionKey {
    ConnectionKey(TCP, local.ip, local.port, remote.ip, remote.port)
  }

  /** The key of the connection over which the request of a proxy input travels. */
  function KeyOfRequest(request: RuntimeInput): ConnectionKey
    requires request.Proxy?
  {
    KeyBetween(request.proxyEvent.clientAddress, request.proxyAddress)
  }

  /** The report was observed at most two seconds before or after the request. */
  predicate IsRecent(report: RuntimeInput, request: RuntimeInput)
    requires report.Net? && request.Proxy?
  {
    request.now - 2_000_000_000 <= report.observedAt <= request.now + 2_000_000_000
  }

  /** Before input `i`, input `j` last reported `id`, with a process, recently and under the request's key. */
  predicate ExplainsAt(inputs: seq<RuntimeInput>, i: nat, j: int, id: u64)
    requires i < |inputs| && inputs[i].Proxy?
  {
    && IsLastReport(inputs[..i], j, id)
    && KeyFor(inputs[j].event.connection) == KeyOfRequest(inputs[i])
    && inputs[j].event.connection.process.Some?
    && IsRecent(inputs[j], inputs[i])
  }

  /** The last report of `id` explains the request of input `i`. */
  ghost predicate Explains(inputs: seq<RuntimeInput>, i: nat, id: u64)
    requires i < |inputs| && inputs[i].Proxy?
  {
    exists j :: ExplainsAt(inputs, i, j, id)
  }

  /** A request is traced to a connection exactly when the last report of that connection alone explains it. */
  lemma TraceIsUniqueExplanation(inputs: seq<RuntimeInput>, i: nat, id: u64)
    requires i < |inputs| && ArrivesUncorrelated(inputs, i)
    ensures RequestAt(inputs, i).connectionId == Some(id)
       <==> Explains(inputs, i, id) && forall other | Explains(inputs, i, other) :: other == id
  {
    hide Contents, ObserveAll, ObservationsOf, UniqueIds, Correlated, HoldsLastReports, Explains;
    var store, input := ObserveAll(ObservationsOf(inputs[..i])), inputs[i];
    var e := input.proxyEvent;
    var ids := Candidates(Contents(store), TCP, e.clientAddress, input.proxyAddress, input.now, DEFAULT_WINDOW);
    CorrelatorHoldsLastReports(inputs[..i]);
    CorrelationIsUniqueMatch(
      store, e.request, TCP, e.clientAddress, input.proxyAddress, input.now, DEFAULT_WINDOW);
    forall other: u64 ensures other in ids <==> Explains(inputs, i, other) {
      CandidateExplains(Contents(store), inputs, i, other);
    }
    if Explains(inputs, i, id) && forall other | Explains(inputs, i, other) :: other == id {
      assert ids == {id};
    }
  }

  lemma CandidateExplains(contents: map<u64, ObservedConnection>, inputs: seq<RuntimeInput>, i: nat, id: u64)
    requires i < |inputs| && inputs[i].Proxy? && HoldsLastReports(contents, inputs[..i])
    ensures id in Candidates(contents, TCP, inputs[i].proxyEvent.clientAddress, inputs[i].proxyAddress, inputs[i].now,
                             DEFAULT_WINDOW)
       <==> Explains(inputs, i, id)
  {
    var input := inputs[i];
    if id in contents {
      var j :| IsLastReport(inputs[..i], j, id);
      assert inputs[..i][j] == inputs[j];
      if Fits(contents[id], TCP, input.proxyEvent.clientAddress, input.proxyAddress, input.now, DEFAULT_WINDOW) {
        assert ExplainsAt(inputs, i, j, id);
      }
    }
    if j :| ExplainsAt(inputs, i, j, id) {
      assert inputs[..i][j] == inputs[j] && IsLastReport(inputs[..i], j, id);
    }
  }

  // ----- Live connections -----

  /** The last report of a live connection is its replayed value. */
  lemma {:induction false} LiveWasLastReported(inputs: seq<RuntimeInput>, id: u64) returns (j: nat)
    requires Accepted(NetEvents(inputs)) && id in Replay(NetEvents(inputs)).live
    ensures IsLastReport(inputs, j, id) && inputs[j].event.connection == Replay(NetEvents(inputs)).live[id]
  {
    hide Accepts, Deliver;
    var n := |inputs| - 1;
    var before, input := inputs[..n], inputs[n];
    if input.Net? {
      ReplaySnoc(EMPTY, NetEvents(before), input.event);
      DeliverKeepsLive(Replay(NetEvents(before)), input.event, id);
    } else {
      assert NetEvents(inputs) == NetEvents(before);
    }
    if ReportsAt(inputs, n, id) {
      j := n;
    } else {
      j := LiveWasLastReported(before, id);
      assert before[j] == inputs[j];
      forall q | j < q < |inputs| ensures !ReportsAt(inputs, q, id) {
        if q < n { assert before[q] == inputs[q] && !ReportsAt(before, q, id); }
      }
    }
  }

  lemma DeliverKeepsLive(r: Registry, e: NetworkEvent, id: u64)
    requires id in Deliver(r, e).live
    ensures if IsSnapshotOf(e, id) then Deliver(r, e).live[id] == e.connection
            else id in r.live && r.live[id] == Deliver(r, e).live[id]
  {
  }

  /** The last report of `id` before input `i` was observed within the window around the request. */
  ghost predicate WasRecent(inputs: seq<RuntimeInput>, i: nat, id: u64)
    requires i < |inputs| && inputs[i].Proxy?
  {
    exists j :: IsLastReport(inputs[..i], j, id) && IsRecent(inputs[j], inputs[i])
  }

  /**
   In any accepted log a request over a live connection is traced to it exactly when its process is known, it
   was last reported recently, and no other connection, live or closed, explains the request as well.
   */
  lemma LiveConnectionIsTraced(inputs: seq<RuntimeInput>, i: nat, id: u64)
    requires i < |inputs| && ArrivesUncorrelated(inputs, i) && Accepted(NetEvents(inputs[..i]))
    requires var live := Replay(NetEvents(inputs[..i])).live;
             id in live && KeyFor(live[id]) == KeyOfRequest(inputs[i])
    ensures RequestAt(inputs, i).connectionId == Some(id)
       <==> && Replay(NetEvents(inputs[..i])).live[id].process.Some?
            && WasRecent(inputs, i, id)
            && forall other | other != id :: !Explains(inputs, i, other)
  {
    hide Accepted, NetEvents, Replay, RequestAt, ReportsAt;
    TraceIsUniqueExplanation(inputs, i, id);
    LiveExplains(inputs, i, id);
  }

  /** A live connection explains a request exactly when it has the key, a process and a recent report. */
  lemma LiveExplains(inputs: seq<RuntimeInput>, i: nat, id: u64)
    requires i < |inputs| && inputs[i].Proxy? && Accepted(NetEvents(inputs[..i]))
    requires id in Replay(NetEvents(inputs[..i])).live
    ensures var c := Replay(NetEvents(inputs[..i])).live[id];
            Explains(inputs, i, id)
            <==> KeyFor(c) == KeyOfRequest(inputs[i]) && c.process.Some? && WasRecent(inputs, i, id)
  {
    hide Accepted, NetEvents, Replay;
    var last := LiveWasLastReported(inputs[..i], id);
    assert inputs[..i][last] == inputs[last];
    forall j | IsLastReport(inputs[..i], j, id) ensures j == last {}
    assert ExplainsAt(inputs, i, last, id) ==> Explains(inputs, i, id);
  }

  /**
   After a run of the tracker two live connections never have one key, so only a closed connection can stand
   in the way: one with the same key that was last reported recently, with a known process.
   */
  lemma OnlyClosedConnectionsInterfere(turns: seq<Turn>, inputs: seq<RuntimeInput>, i: nat)
    requires i < |inputs| && ArrivesUncorrelated(inputs, i)
    requires IsRun(turns) && StateAfter(turns).nextId < U64_MAX && NetEvents(inputs[..i]) == EventsOf(turns)
    requires KeyOfRequest(inputs[i]) in StateAfter(turns).connections
    ensures var c := StateAfter(turns).connections[KeyOfRequest(inputs[i])].connection;
            RequestAt(inputs, i).connectionId == Some(c.id)
            <==> c.process.Some? && WasRecent(inputs, i, c.id)
                 && forall other | other !in Replay(EventsOf(turns)).live :: !Explains(inputs, i, other)
  {
    hide Accepted, NetEvents, EventsOf, StateAfter, Replay, RequestAt, Explains, WasRecent;
    ReplayRebuildsTracker(turns);
    var c, live := StateAfter(turns).connections[KeyOfRequest(inputs[i])].connection, Replay(EventsOf(turns)).live;
    LiveConnectionIsTraced(inputs, i, c.id);
    forall other | other in live && other != c.id ensures !Explains(inputs, i, other) {
      LiveExplains(inputs, i, other);
    }
  }

  /** Once the tracker has closed a connection, a request over its ends can only be traced to a closed one. */
  lemma WithoutLiveConnection(turns: seq<Turn>, inputs: seq<RuntimeInput>, i: nat)
    requires i < |inputs| && ArrivesUncorrelated(inputs, i)
    requires IsRun(turns) && StateAfter(turns).nextId < U64_MAX && NetEvents(inputs[..i]) == EventsOf(turns)
    requires KeyOfRequest(inputs[i]) !in StateAfter(turns).connections
    ensures var traced := RequestAt(inputs, i).connectionId;
            traced.Some? ==> traced.value !in Replay(EventsOf(turns)).live
  {
    hide Accepted, NetEvents, EventsOf, StateAfter, Replay, RequestAt, Explains, WasRecent;
    ReplayRebuildsTracker(turns);
    var traced := RequestAt(inputs, i).connectionId;
    if traced.Some? && traced.value in Replay(EventsOf(turns)).live {
      TraceIsUniqueExplanation(inputs, i, traced.value);
      LiveExplains(inputs, i, traced.value);
      assert false;
    }
  }
}
