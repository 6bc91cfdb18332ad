/** Runs on which a promise fails.  The events handled are in each case those that the tracker itself emits. */
module FailingCases {
  import opened Core
  import opened Tracker
  import opened EventStream
  import opened Correlator
  import opened Storage
  import opened Runtime
  import opened PipelineLaws
  import opened Tracing
  import opened TableLaws

  // ----- Short runs of the tracker and the worker -----

  /** What a tracker reports when it opens its first connection. */
  function OpenedBy(p: CapturedPacket, id: u64): NetworkConnection
    requires FromPacket(p).Some?
  {
    Opened(id, FromPacket(p).value, p).connection
  }

  /** The turn that absorbs a packet while nothing is idle. */
  function Turns(p: CapturedPacket): seq<Turn> {
    [Turn(Packet(p), [])]
  }

  lemma FirstPacketOpens(p: CapturedPacket)
    requires FromPacket(p).Some?
    ensures IsRun(Turns(p)) && StateAfter(Turns(p)).nextId == 2
    ensures EventsOf(Turns(p)) == [PacketCaptured(p), ConnectionOpened(OpenedBy(p, 1))]
                                  + if IsClosing(p) then [ConnectionClosed(1)] else []
    ensures StateAfter(Turns(p)).connections
         == if IsClosing(p) then map[] else map[FromPacket(p).value := Opened(1, FromPacket(p).value, p)]
  {
    assert Turns(p)[..0] == [];
  }

  /** The worker handles the events with the clock standing at 0, except that saving reads `savedAt`. */
  function Handled(events: seq<NetworkEvent>, savedAt: Time): (inputs: seq<RuntimeInput>)
    ensures |inputs| == |events|
  {
    seq(|events|, n requires 0 <= n < |events| => Net(events[n], 0, savedAt))
  }

  /** The request of `e` over the connection, at time 0 and without an answer of the resolver. */
  function Over(e: ProxyEvent, c: NetworkConnection): RuntimeInput {
    Proxy(e, SocketAddr(c.remoteIp, c.remotePort), None, 0)
  }

  /** The proxy hands over a request that the database can store, coming from the connection's local end. */
  predicate ComesFrom(e: ProxyEvent, c: NetworkConnection) {
    && e.clientAddress == SocketAddr(c.localIp, c.localPort)
    && e.request.connectionId.None? && RequestConversion(e.request).Done?
  }

  lemma {:induction false} HandledNetEvents(events: seq<NetworkEvent>, savedAt: Time)
    ensures NetEvents(Handled(events, savedAt)) == events
  {
    if events != [] {
      var n := |events| - 1;
      assert Handled(events, savedAt)[..n] == Handled(events[..n], savedAt);
      HandledNetEvents(events[..n], savedAt);
    }
  }

  lemma RequestAddsNoEvent(events: seq<NetworkEvent>, savedAt: Time, request: RuntimeInput)
    requires request.Proxy?
    ensures var inputs := Handled(events, savedAt) + [request];
            NetEvents(inputs) == events && inputs[..|events|] == Handled(events, savedAt)
  {
    HandledNetEvents(events, savedAt);
    RunSnocInput(None, Handled(events, savedAt), request);
  }

  // ----- Closed connections -----

  /**
   The correlator never hears of a close: after a packet that opens and ends its connection in one turn, a
   request is still traced to that connection although nothing is live.
   */
  lemma ClosedConnectionIsTraced(p: CapturedPacket, e: ProxyEvent)
    requires p.protocol == TCP && p.tcpFin && p.process.Some? && FromPacket(p).Some?
    requires ComesFrom(e, OpenedBy(p, 1))
    ensures IsRun(Turns(p)) && StateAfter(Turns(p)).connections == map[]
    ensures var inputs := Handled(EventsOf(Turns(p)), 0) + [Over(e, OpenedBy(p, 1))];
            && NetEvents(inputs) == EventsOf(Turns(p)) && |inputs| == 4
            && RequestAt(inputs, 3).connectionId == Some(1)
  {
    hide RequestAt, NetEvents, EventsOf, IsRun, StateAfter, RequestConversion;
    FirstPacketOpens(p);
    var c, events := OpenedBy(p, 1), EventsOf(Turns(p));
    var inputs := Handled(events, 0) + [Over(e, c)];
    RequestAddsNoEvent(events, 0, Over(e, c));
    assert ExplainsAt(inputs, 3, 1, 1);
    TraceIsUniqueExplanation(inputs, 3, 1);
  }

  /**
   A connection that is closed and opened again inside the window leaves two observations that both explain a
   request, so the request is traced to neither although one of them is live.
   */
  lemma ReopenedConnectionIsMissed(p: CapturedPacket, e: ProxyEvent)
    requires p.protocol == TCP && p.tcpFin && p.process.Some? && FromPacket(p).Some?
    requires ComesFrom(e, OpenedBy(p, 1))
    ensures var again := p.(tcpFin := false, tcpRst := false);
            var turns := Turns(p) + Turns(again);
            && IsRun(turns) && FromPacket(p).value in StateAfter(turns).connections
            && var inputs := Handled(EventsOf(turns), 0) + [Over(e, OpenedBy(p, 1))];
               && NetEvents(inputs) == EventsOf(turns) && |inputs| == 6
               && RequestAt(inputs, 5).connectionId == None
  {
    hide RequestAt, NetEvents, RequestConversion, EventsOf, IsRun, StateAfter;
    var again := p.(tcpFin := false, tcpRst := false);
    SecondPacketReopens(p);
    var c, events := OpenedBy(p, 1), EventsOf(Turns(p) + Turns(again));
    var inputs := Handled(events, 0) + [Over(e, c)];
    RequestAddsNoEvent(events, 0, Over(e, c));
    BothExplain(inputs, c, OpenedBy(again, 2));
    var traced := RequestAt(inputs, 5).connectionId;
    if traced.Some? { TraceIsUniqueExplanation(inputs, 5, traced.value); }
  }

  /** Two connections of one key explain a request over it, when each was reported once. */
  lemma BothExplain(inputs: seq<RuntimeInput>, c: NetworkConnection, d: NetworkConnection)
    requires |inputs| == 6 && inputs[5].Proxy? && c.id == 1 && d.id == 2 && c.process.Some? && d.process.Some?
    requires KeyFor(c) == KeyFor(d) == KeyOfRequest(inputs[5]) && inputs[5].now == 0
    requires forall n | 0 <= n < 5 :: inputs[n].Net? && inputs[n].observedAt == 0
    requires Reported(inputs[1]) == Some(c) && Reported(inputs[4]) == Some(d)
    requires forall n | n in {0, 2, 3} :: Reported(inputs[n]) == None
    ensures Explains(inputs, 5, 1) && Explains(inputs, 5, 2)
  {
    assert ExplainsAt(inputs, 5, 1, 1);
    assert ExplainsAt(inputs, 5, 4, 2);
  }

  lemma SecondPacketReopens(p: CapturedPacket)
    requires IsClosing(p) && FromPacket(p).Some?
    ensures var again := p.(tcpFin := false, tcpRst := false);
            var turns := Turns(p) + Turns(again);
            && IsRun(turns) && FromPacket(p).value in StateAfter(turns).connections
            && EventsOf(turns) == [PacketCaptured(p), ConnectionOpened(OpenedBy(p, 1)), ConnectionClosed(1)]
                                  + [PacketCaptured(again), ConnectionOpened(OpenedBy(again, 2))]
  {
    FirstPacketOpens(p);
    var again := p.(tcpFin := false, tcpRst := false);
    var turn := Turn(Packet(again), []);
    assert CanTake(StateAfter(Turns(p)), turn);
    RunSnoc(Turns(p), turn);
  }

  // ----- Clocks before the epoch -----

  /** A packet of an open TCP connection of a known process, whose size fits the database. */
  predicate IsOrdinary(p: CapturedPacket) {
    FromPacket(p).Some? && p.protocol == TCP && !IsClosing(p) && p.process.Some? && p.packetSize <= I64_MAX
  }

  /** The worker handles the events of one packet, and then a request over the connection it opened. */
  ghost function OneRequest(p: CapturedPacket, savedAt: Time, e: ProxyEvent): (inputs: seq<RuntimeInput>)
    requires IsOrdinary(p)
    ensures |inputs| == 3 && inputs[0].Net? && inputs[1].Net? && inputs[2] == Over(e, OpenedBy(p, 1))
  {
    FirstPacketOpens(p);
    Handled(EventsOf(Turns(p)), savedAt) + [Over(e, OpenedBy(p, 1))]
  }

  lemma OnlyReportIsTraced(p: CapturedPacket, savedAt: Time, e: ProxyEvent)
    requires IsOrdinary(p) && ComesFrom(e, OpenedBy(p, 1))
    ensures var inputs := OneRequest(p, savedAt, e);
            && Accepted(NetEvents(inputs)) && NetEvents(inputs) == EventsOf(Turns(p))
            && ArrivesUncorrelated(inputs, 2)
            && RequestAt(inputs, 2).connectionId == Some(1) && RequestConversion(RequestAt(inputs, 2)).Done?
            && ReportsAt(inputs, 1, 1) && Reported(inputs[1]) == Some(OpenedBy(p, 1)) && inputs[1].savedAt == savedAt
            && !ReportsAt(inputs, 0, 1) && !ReportsAt(inputs, 2, 1)
  {
    hide NetEvents, EventsOf, IsRun, StateAfter, RequestConversion, RequestAt, Mirrors, Accepted;
    FirstPacketOpens(p);
    ReplayRebuildsTracker(Turns(p));
    var inputs, events := OneRequest(p, savedAt, e), EventsOf(Turns(p));
    RequestAddsNoEvent(events, savedAt, inputs[2]);
    assert ExplainsAt(inputs, 2, 1, 1);
    TraceIsUniqueExplanation(inputs, 2, 1);
    TracedRequestFits(inputs, 2);
  }

  lemma TracedRequestFits(inputs: seq<RuntimeInput>, i: nat)
    requires i < |inputs| && inputs[i].Proxy? && RequestAt(inputs, i).connectionId == Some(1)
    requires RequestConversion(inputs[i].proxyEvent.request).Done?
    ensures RequestConversion(RequestAt(inputs, i)).Done?
  {
    hide RequestConversion, ObserveAll, ObservationsOf;
    var r, input := RequestAt(inputs, i), inputs[i].proxyEvent.request;
    assert r == input.(connectionId := Some(1), process := r.process);
    NamingKeepsConversion(input, 1, r.process);
  }

  lemma NamingKeepsConversion(r: HttpRequestInfo, id: u64, process: Option<ProcessInfo>)
    requires id <= I64_MAX && RequestConversion(r).Done?
    ensures RequestConversion(r.(connectionId := Some(id), process := process)).Done?
  {
  }

  /**
   When the clock reads a time before the epoch, the only report of a connection is rejected, yet the
   correlator knows it, and the request that is traced to it breaks the foreign key.
   */
  lemma ReportBeforeEpochBreaksForeignKey(p: CapturedPacket, e: ProxyEvent)
    requires IsOrdinary(p) && ComesFrom(e, OpenedBy(p, 1))
    ensures var inputs := OneRequest(p, -1, e);
            && NetEvents(inputs) == EventsOf(Turns(p))
            && RequestAt(inputs, 2).connectionId == Some(1)
            && AnswerAt(NO_ROWS, inputs, 2) == Failed(ForeignKeyViolation)
  {
    hide AnswerAt, RequestAt, RequestConversion, Accepted, NetEvents, OneRequest;
    OnlyReportIsTraced(p, -1, e);
    ForeignKeyFailsExactly(NO_ROWS, OneRequest(p, -1, e), 2);
  }

  // ----- A second launch on the same file -----

  /** The tables that one packet and the request over its connection leave behind. */
  ghost function FirstLaunch(p: CapturedPacket, e: ProxyEvent): Tables
    requires IsOrdinary(p)
  {
    TablesAt(NO_ROWS, OneRequest(p, 0, e), 3)
  }

  /** The tables that a later launch leaves behind after one packet of its own. */
  ghost function SecondLaunch(found: Tables, q: CapturedPacket, savedAt: Time): Tables
    requires IsOrdinary(q)
  {
    FirstPacketOpens(q);
    TablesAt(found, Handled(EventsOf(Turns(q)), savedAt), 2)
  }

  /** The first launch stores the connection and the request, which refers to it. */
  lemma FirstLaunchIsStored(p: CapturedPacket, e: ProxyEvent)
    requires IsOrdinary(p) && ComesFrom(e, OpenedBy(p, 1))
    ensures var found, c, id := FirstLaunch(p, e), OpenedBy(p, 1), e.request.id;
            && Storage.Consistent(found)
            && 1 in found.connections && found.connections[1].startedAt == 0
            && id in found.requests && found.requests[id].connectionId == Some(1)
            && found.requests[id].startedAt == e.request.startedAt / 1_000_000
            && PointsHome(found, id, e.clientAddress, SocketAddr(c.remoteIp, c.remotePort))
  {
    hide Accepted, NetEvents, TablesAt, RequestAt, RequestConversion, PointsHome, AnswerAt, OneRequest;
    hide Storage.Consistent;
    var inputs := OneRequest(p, 0, e);
    OnlyReportIsTraced(p, 0, e);
    assert StoredAt(inputs, 1, 1);
    FittingRequestIsTaken(NO_ROWS, inputs);
    NothingIsConsistent();
    TablesOfPrefix(NO_ROWS, inputs, 3);
    RequestRowIsLastTaken(NO_ROWS, inputs, 2, e.request.id);
    RequestStartsAtFirstTaken(NO_ROWS, inputs, 2, e.request.id);
    ConnectionStartsAtFirstReport(NO_ROWS, inputs, 1, 1);
    StoredRequestPointsHome(NO_ROWS, inputs, 2, e.request.id);
  }

  lemma NothingIsConsistent()
    ensures Storage.Consistent(NO_ROWS)
  {
  }

  lemma FittingRequestIsTaken(found: Tables, inputs: seq<RuntimeInput>)
    requires |inputs| == 3 && ArrivesUncorrelated(inputs, 2) && StoredAt(inputs, 1, 1)
    requires RequestAt(inputs, 2).connectionId == Some(1) && RequestConversion(RequestAt(inputs, 2)).Done?
    ensures AnswerAt(found, inputs, 2).Done?
  {
    hide RequestAt, RequestConversion, TablesAt;
    ForeignKeyFailsExactly(found, inputs, 2);
  }

  /** The second launch overwrites the connection row of the first, and leaves the request alone. */
  lemma SecondLaunchOverwrites(found: Tables, q: CapturedPacket, savedAt: Time)
    requires Storage.Consistent(found) && IsOrdinary(q) && 0 <= savedAt && savedAt / 1_000_000 <= I64_MAX
    ensures var t, inputs := SecondLaunch(found, q, savedAt), Handled(EventsOf(Turns(q)), savedAt);
            && Accepted(NetEvents(inputs)) && NetEvents(inputs) == EventsOf(Turns(q)) && |inputs| == 2
            && inputs[0].Net? && inputs[1].Net? && inputs[1].savedAt == savedAt
            && IsFirstStored(inputs, 1, 1) && Reported(inputs[1]) == Some(OpenedBy(q, 1))
            && 1 in t.connections && ShowsConnection(t, t.connections[1], OpenedBy(q, 1))
  {
    hide NetEvents, EventsOf, IsRun, StateAfter, Accepted, Mirrors, ShowsConnection, TablesAt, Storage.Consistent;
    FirstPacketOpens(q);
    ReplayRebuildsTracker(Turns(q));
    HandledNetEvents(EventsOf(Turns(q)), savedAt);
    var inputs := Handled(EventsOf(Turns(q)), savedAt);
    assert IsLastStored(inputs, 1, 1);
    ConnectionRowIsLastReport(found, inputs, 1, 1);
  }

  /**
   Ids restart with each launch while the file stays: the first launch stores a request that points home, and
   after the second launch opened a connection between other ends, the old request refers to that one.
   */
  lemma NextLaunchMisdirectsRequest(p: CapturedPacket, q: CapturedPacket, e: ProxyEvent)
    requires IsOrdinary(p) && IsOrdinary(q) && ComesFrom(e, OpenedBy(p, 1))
    requires !Joins(OpenedBy(q, 1), Over(e, OpenedBy(p, 1)).proxyEvent.clientAddress,
                    Over(e, OpenedBy(p, 1)).proxyAddress)
    ensures var found, remote := FirstLaunch(p, e), Over(e, OpenedBy(p, 1)).proxyAddress;
            && PointsHome(found, e.request.id, e.clientAddress, remote)
            && !PointsHome(SecondLaunch(found, q, 0), e.request.id, e.clientAddress, remote)
  {
    hide Accepted, NetEvents, TablesAt, PointsHome, Joins, Storage.Consistent, FirstLaunch, EventsOf, ShowsConnection;
    var found, remote := FirstLaunch(p, e), Over(e, OpenedBy(p, 1)).proxyAddress;
    var inputs := Handled(EventsOf(Turns(q)), 0);
    FirstLaunchIsStored(p, e);
    SecondLaunchOverwrites(found, q, 0);
    OldRequestFollowsNewReports(found, inputs, e.request.id, 1, e.clientAddress, remote);
  }

  /** The overwritten connection row shows the new connection under the start time of the old one. */
  lemma NextLaunchKeepsOldStart(p: CapturedPacket, q: CapturedPacket, e: ProxyEvent, later: Time)
    requires IsOrdinary(p) && IsOrdinary(q) && ComesFrom(e, OpenedBy(p, 1))
    requires 1_000_000 <= later && later / 1_000_000 <= I64_MAX
    ensures var t := SecondLaunch(FirstLaunch(p, e), q, later);
            && 1 in t.connections && ShowsConnection(t, t.connections[1], OpenedBy(q, 1))
            && t.connections[1].startedAt == 0 && t.connections[1].startedAt != later / 1_000_000
  {
    hide Accepted, NetEvents, TablesAt, PointsHome, Storage.Consistent, FirstLaunch, EventsOf, ShowsConnection;
    FirstLaunchIsStored(p, e);
    SecondLaunchOverwrites(FirstLaunch(p, e), q, later);
    ConnectionStartsAtFirstReport(FirstLaunch(p, e), Handled(EventsOf(Turns(q)), later), 1, 1);
  }

  /** Likewise a request under a reused id replaces the old one but keeps its start time. */
  lemma NextLaunchKeepsOldRequestStart(p: CapturedPacket, e: ProxyEvent, f: ProxyEvent)
    requires IsOrdinary(p) && ComesFrom(e, OpenedBy(p, 1)) && ComesFrom(f, OpenedBy(p, 1))
    requires f.request.id == e.request.id
    requires f.request.startedAt / 1_000_000 != e.request.startedAt / 1_000_000
    ensures var inputs, id := OneRequest(p, 0, f), f.request.id;
            var t := TablesAt(FirstLaunch(p, e), inputs, 3);
            && id in t.requests && ShowsRequest(t.requests[id], RequestAt(inputs, 2))
            && t.requests[id].startedAt == e.request.startedAt / 1_000_000
  {
    hide Accepted, NetEvents, TablesAt, RequestAt, AnswerAt, PointsHome, OneRequest, FirstLaunch, ShowsRequest;
    hide RequestConversion, Storage.Consistent;
    var found, inputs := FirstLaunch(p, e), OneRequest(p, 0, f);
    FirstLaunchIsStored(p, e);
    OnlyReportIsTraced(p, 0, f);
    assert StoredAt(inputs, 1, 1);
    FittingRequestIsTaken(found, inputs);
    RequestRowIsLastTaken(found, inputs, 2, f.request.id);
    RequestStartsAtFirstTaken(found, inputs, 2, f.request.id);
  }
}
