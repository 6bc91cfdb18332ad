/** Agreement of the worker's packet counts, correlator and database with the tracker, over whole runs. */
module PipelineLaws {
  import opened Core
  import opened Tracker
  import opened Sessions
  import opened EventStream
  import opened Conservation
  import opened Correlator
  import opened Storage
  import opened Domain
  import opened Runtime
  import Text

  // ----- Packet counts -----

  /** There is one count per live id: the number of its snapshots so far, saturated. */
  ghost predicate CountsAgree(counts: map<u64, u64>, events: seq<NetworkEvent>) {
    && counts.Keys == Replay(events).live.Keys
    && forall id | id in counts :: counts[id] == Saturate(SnapshotCount(events, id))
  }

  lemma {:induction false} CountsFollowEvents(tables: Option<Tables>, inputs: seq<RuntimeInput>)
    requires Accepted(NetEvents(inputs))
    ensures CountsAgree(RunOf(tables, inputs).packetCounts, NetEvents(inputs))
  {
    hide AfterNetworkEvent, AfterProxyEvent, Accepts, Deliver;
    if inputs != [] {
      var before, input := inputs[..|inputs| - 1], inputs[|inputs| - 1];
      if input.Net? {
        ReplaySnoc(EMPTY, NetEvents(before), input.event);
        CountsFollowEvents(tables, before);
        EventKeepsCounts(RunOf(tables, before), NetEvents(before), input);
      } else {
        assert NetEvents(inputs) == NetEvents(before);
        CountsFollowEvents(tables, before);
        OthersKeepCounts(RunOf(tables, before), input);
      }
    }
  }

  lemma OthersKeepCounts(s: RuntimeState, input: RuntimeInput)
    requires !input.Net?
    ensures AfterInput(s, input).packetCounts == s.packetCounts
  {
  }

  lemma EventKeepsCounts(s: RuntimeState, events: seq<NetworkEvent>, input: RuntimeInput)
    requires CountsAgree(s.packetCounts, events) && input.Net? && Accepted(events + [input.event])
    ensures CountsAgree(AfterInput(s, input).packetCounts, events + [input.event])
  {
    hide Observe, Apply, ToUiConnection;
    var e := input.event;
    ReplaySnoc(EMPTY, events, e);
    forall id
      ensures SnapshotCount(events + [e], id) == SnapshotCount(events, id) + if IsSnapshotOf(e, id) then 1 else 0
    {
      assert (events + [e])[..|events|] == events;
    }
    if e.ConnectionOpened? {
      FreshIdIsUncounted(events, e.connection.id);
      LifeCycleGrammar(events, e.connection.id);
    }
  }

  /**
   Once a tracker run has been handled, the worker counts exactly the live connections, and each count is
   the number of packets in the connection's open session, saturated.
   */
  lemma PacketCountsMatchSessions(tables: Option<Tables>, turns: seq<Turn>, inputs: seq<RuntimeInput>)
    requires IsRun(turns) && StateAfter(turns).nextId < U64_MAX
    requires NetEvents(inputs) == EventsOf(turns)
    ensures var counts, connections := RunOf(tables, inputs).packetCounts, StateAfter(turns).connections;
            && counts.Keys == (set k | k in connections :: connections[k].connection.id)
            && forall k | k in connections ::
                 connections[k].connection.id in counts
                 && counts[connections[k].connection.id] == Saturate(|Session(turns, k)|)
  {
    hide RunOf, EventsOf, NetEvents, Session;
    ReplayRebuildsTracker(turns);
    CountsFollowEvents(tables, inputs);
    forall k | k in StateAfter(turns).connections { SnapshotsCountSession(turns, k); }
  }

  // ----- The correlator and the database -----

  /** The connection that the input is a snapshot of. */
  function Reported(input: RuntimeInput): Option<NetworkConnection> {
    if input.Net? && (input.event.ConnectionOpened? || input.event.ConnectionUpdated?)
    then Some(input.event.connection)
    else None
  }

  /** Input `i` is a snapshot of connection `id`. */
  predicate ReportsAt(inputs: seq<RuntimeInput>, i: int, id: u64) {
    0 <= i < |inputs| && Reported(inputs[i]).Some? && Reported(inputs[i]).value.id == id
  }

  /** Input `i` is a snapshot of `id` whose numbers all fit the database. */
  predicate StoredAt(inputs: seq<RuntimeInput>, i: int, id: u64) {
    ReportsAt(inputs, i, id) && ConnectionConversion(inputs[i].event.connection, inputs[i].savedAt).Done?
  }

  /** What the correlator and the connections table hold, read off the inputs. */
  ghost predicate HoldsReports(s: RuntimeState, found: Tables, inputs: seq<RuntimeInput>) {
    && UniqueIds(s.observed) && s.tables.Some?
    && (forall id: u64 :: id in Contents(s.observed) <==> exists i :: ReportsAt(inputs, i, id))
    && (forall id: u64 :: id in s.tables.value.connections
                          <==> id in found.connections || exists i :: StoredAt(inputs, i, id))
  }

  lemma {:induction false} WorkerHoldsReports(found: Tables, inputs: seq<RuntimeInput>)
    ensures HoldsReports(RunOf(Some(found), inputs), found, inputs)
  {
    hide AfterNetworkEvent, AfterProxyEvent, HoldsReports;
    if inputs == [] {
      NothingReported(found);
    } else {
      var before, input := inputs[..|inputs| - 1], inputs[|inputs| - 1];
      WorkerHoldsReports(found, before);
      InputAddsReport(RunOf(Some(found), before), found, before, input);
      assert inputs == before + [input];
    }
  }

  lemma NothingReported(found: Tables)
    ensures HoldsReports(RunOf(Some(found), []), found, [])
  {
  }

  lemma InputAddsReport(s: RuntimeState, found: Tables, before: seq<RuntimeInput>, input: RuntimeInput)
    requires HoldsReports(s, found, before)
    ensures HoldsReports(AfterInput(s, input), found, before + [input])
  {
    hide Contents, UniqueIds, Observe, Apply, AnnotatedRequest, ToUiConnection, ToUiHttp, ConnectionConversion;
    var inputs, after := before + [input], AfterInput(s, input);
    InputStoresAndObserves(s, input);
    forall id: u64
      ensures id in Contents(after.observed) <==> exists i :: ReportsAt(inputs, i, id)
      ensures id in after.tables.value.connections
              <==> id in found.connections || exists i :: StoredAt(inputs, i, id)
    {
      ReportsSnoc(before, input, id);
      assert ReportsAt(inputs, |before|, id) <==> Reported(input).Some? && Reported(input).value.id == id;
      assert id in Contents(after.observed).Keys
             <==> id in Contents(s.observed).Keys || ReportsAt(inputs, |before|, id);
      assert id in after.tables.value.connections.Keys
             <==> id in s.tables.value.connections.Keys || StoredAt(inputs, |before|, id);
    }
  }

  lemma ReportsSnoc(before: seq<RuntimeInput>, input: RuntimeInput, id: u64)
    ensures var inputs := before + [input];
            && ((exists i :: ReportsAt(inputs, i, id)) <==>
                (exists i :: ReportsAt(before, i, id)) || ReportsAt(inputs, |before|, id))
            && ((exists i :: StoredAt(inputs, i, id)) <==>
                (exists i :: StoredAt(before, i, id)) || StoredAt(inputs, |before|, id))
  {
    hide ConnectionConversion;
    var inputs := before + [input];
    if i :| ReportsAt(before, i, id) { assert ReportsAt(inputs, i, id); }
    if i :| StoredAt(before, i, id) { assert StoredAt(inputs, i, id); }
    if i :| ReportsAt(inputs, i, id) { assert i == |before| || ReportsAt(before, i, id); }
    if i :| StoredAt(inputs, i, id) { assert i == |before| || StoredAt(before, i, id); }
  }

  /** Every snapshot is observed, but stored only when its numbers fit; nothing else touches connections. */
  lemma InputStoresAndObserves(s: RuntimeState, input: RuntimeInput)
    requires UniqueIds(s.observed) && s.tables.Some?
    ensures var after, c := AfterInput(s, input), Reported(input);
            && UniqueIds(after.observed) && after.tables.Some?
            && Contents(after.observed).Keys
               == Contents(s.observed).Keys + (if c.Some? then {c.value.id} else {})
            && after.tables.value.connections.Keys
               == s.tables.value.connections.Keys
                  + (if c.Some? && ConnectionConversion(c.value, input.savedAt).Done? then {c.value.id as int} else {})
  {
    hide Contents, UniqueIds, Observe, ToUiConnection, ToUiHttp;
    if Reported(input).Some? {
      ObserveRefinesMapUpdate(s.observed, input.event.connection, input.observedAt);
    }
  }

  // ----- The foreign key from requests to connections -----

  /** The observations that the worker makes, in order. */
  function ObservationsOf(inputs: seq<RuntimeInput>): seq<ObservedConnection> {
    if inputs == [] then []
    else
      var before, input := inputs[..|inputs| - 1], inputs[|inputs| - 1];
      ObservationsOf(before)
      + if Reported(input).Some? then [ObservedConnection(input.event.connection, input.observedAt)] else []
  }

  /** The correlator is a function of the observations alone, with or without a database. */
  lemma {:induction false} CorrelatorFollowsInputs(tables: Option<Tables>, inputs: seq<RuntimeInput>)
    ensures RunOf(tables, inputs).observed == ObserveAll(ObservationsOf(inputs))
  {
    hide Observe, Apply, AnnotatedRequest, ToUiConnection, ToUiHttp;
    if inputs != [] {
      var before, input := inputs[..|inputs| - 1], inputs[|inputs| - 1];
      CorrelatorFollowsInputs(tables, before);
      if Reported(input).Some? {
        var history := ObservationsOf(inputs);
        assert history[..|history| - 1] == ObservationsOf(before);
      } else {
        assert ObservationsOf(inputs) == ObservationsOf(before);
      }
    }
  }

  /** Input `i` is the last snapshot of connection `id`. */
  predicate IsLastReport(inputs: seq<RuntimeInput>, i: int, id: u64) {
    ReportsAt(inputs, i, id) && forall j | i < j < |inputs| :: !ReportsAt(inputs, j, id)
  }

  /** The correlator knows exactly the reported connections, each as last reported. */
  ghost predicate HoldsLastReports(contents: map<u64, ObservedConnection>, inputs: seq<RuntimeInput>) {
    && (forall id | id in contents :: exists i :: IsLastReport(inputs, i, id))
    && (forall i, id | IsLastReport(inputs, i, id) ::
          id in contents
          && contents[id] == ObservedConnection(inputs[i].event.connection, inputs[i].observedAt))
  }

  lemma {:induction false} CorrelatorHoldsLastReports(inputs: seq<RuntimeInput>)
    ensures var store := ObserveAll(ObservationsOf(inputs));
            UniqueIds(store) && HoldsLastReports(Contents(store), inputs)
  {
    hide Contents, Observe, UniqueIds, HoldsLastReports;
    if inputs == [] {
      NothingObserved();
    } else {
      var before, input := inputs[..|inputs| - 1], inputs[|inputs| - 1];
      assert inputs == before + [input];
      CorrelatorHoldsLastReports(before);
      LastReportsSnoc(Contents(ObserveAll(ObservationsOf(before))), before, input);
      var history := ObservationsOf(inputs);
      if Reported(input).Some? {
        assert history[..|history| - 1] == ObservationsOf(before);
        ObserveRefinesMapUpdate(ObserveAll(ObservationsOf(before)), input.event.connection, input.observedAt);
      } else {
        assert history == ObservationsOf(before);
      }
    }
  }

  lemma NothingObserved()
    ensures UniqueIds([]) && HoldsLastReports(Contents([]), [])
  {
  }

  lemma LastReportsSnoc(contents: map<u64, ObservedConnection>, before: seq<RuntimeInput>, input: RuntimeInput)
    requires HoldsLastReports(contents, before)
    ensures HoldsLastReports(
              if Reported(input).Some?
              then contents[input.event.connection.id := ObservedConnection(input.event.connection, input.observedAt)]
              else contents,
              before + [input])
  {
    var inputs, last := before + [input], |before|;
    forall i, id: u64 | i != last
      ensures IsLastReport(inputs, i, id) <==> IsLastReport(before, i, id) && !ReportsAt(inputs, last, id)
    {
      forall j | j != last ensures ReportsAt(inputs, j, id) == ReportsAt(before, j, id) {
        if 0 <= j < last { assert inputs[j] == before[j]; }
      }
    }
    forall id: u64 ensures IsLastReport(inputs, last, id) == ReportsAt(inputs, last, id) {}
    forall id: u64 | id in contents ensures exists i :: IsLastReport(inputs, i, id) {
      var i :| IsLastReport(before, i, id);
      assert IsLastReport(inputs, i, id) || IsLastReport(inputs, last, id);
    }
    if Reported(input).Some? { assert IsLastReport(inputs, last, input.event.connection.id); }
    forall i, id | IsLastReport(inputs, i, id) && i != last
      ensures IsLastReport(before, i, id) && inputs[i] == before[i] && !ReportsAt(inputs, last, id)
    {
    }
  }

  /** The request that handling input `i` stores and shows. */
  ghost function RequestAt(inputs: seq<RuntimeInput>, i: nat): HttpRequestInfo
    requires i < |inputs| && inputs[i].Proxy?
  {
    var input := inputs[i];
    AnnotatedRequest(
      ObserveAll(ObservationsOf(inputs[..i])), input.proxyEvent, input.proxyAddress, input.resolved, input.now)
  }

  /** The tables that input `i` finds. */
  ghost function TablesAt(found: Tables, inputs: seq<RuntimeInput>, i: nat): Tables
    requires i <= |inputs|
  {
    WorkerHoldsReports(found, inputs[..i]);
    RunOf(Some(found), inputs[..i]).tables.value
  }

  /** What the database answers to the request of input `i`. */
  ghost function AnswerAt(found: Tables, inputs: seq<RuntimeInput>, i: nat): Outcome
    requires i < |inputs| && inputs[i].Proxy?
  {
    RequestOutcome(TablesAt(found, inputs, i), RequestAt(inputs, i))
  }

  /** The proxy hands requests over without a connection id. */
  predicate ArrivesUncorrelated(inputs: seq<RuntimeInput>, i: nat)
    requires i < |inputs|
  {
    inputs[i].Proxy? && inputs[i].proxyEvent.request.connectionId.None?
  }

  /**
   A request names a connection only after the tracker reported it, and breaks the foreign key exactly when
   every report of that connection so far was rejected and the database held no such row from before.
   */
  lemma ForeignKeyFailsExactly(found: Tables, inputs: seq<RuntimeInput>, i: nat)
    requires i < |inputs| && ArrivesUncorrelated(inputs, i)
    ensures var request := RequestAt(inputs, i);
            && (request.connectionId.Some? ==> exists j :: j < i && ReportsAt(inputs, j, request.connectionId.value))
            && (AnswerAt(found, inputs, i) == Failed(ForeignKeyViolation) <==>
                  && RequestConversion(request).Done? && request.connectionId.Some?
                  && request.connectionId.value !in found.connections
                  && forall j | j < i :: !StoredAt(inputs, j, request.connectionId.value))
  {
    hide Contents, Observe, AfterInput, UniqueIds, Correlated, RequestConversion, ConnectionConversion;
    var request, before := RequestAt(inputs, i), inputs[..i];
    var input, s := inputs[i], RunOf(Some(found), inputs[..i]);
    WorkerHoldsReports(found, before);
    CorrelatorFollowsInputs(Some(found), before);
    CorrelationIsUniqueMatch(
      s.observed, input.proxyEvent.request, TCP, input.proxyEvent.clientAddress, input.proxyAddress, input.now,
      DEFAULT_WINDOW);
    if request.connectionId.Some? {
      var id := request.connectionId.value;
      CandidatesAreKnown(s.observed, input, id);
      forall j | j < i
        ensures ReportsAt(inputs, j, id) == ReportsAt(before, j, id)
        ensures StoredAt(inputs, j, id) == StoredAt(before, j, id)
      {
        if 0 <= j { assert before[j] == inputs[j]; }
      }
      var j :| ReportsAt(before, j, id);
      assert ReportsAt(inputs, j, id);
      if q :| StoredAt(before, q, id) { assert StoredAt(inputs, q, id); }
      if q :| q < i && StoredAt(inputs, q, id) { assert StoredAt(before, q, id); }
    }
    ConversionIsNotForeignKey(request);
  }

  lemma CandidatesAreKnown(observed: seq<ObservedConnection>, input: RuntimeInput, id: u64)
    requires input.Proxy? && UniqueIds(observed)
    requires Candidates(Contents(observed), TCP, input.proxyEvent.clientAddress, input.proxyAddress, input.now,
                        DEFAULT_WINDOW) == {id}
    ensures id in Contents(observed)
  {
    hide Contents;
    assert id in Candidates(
        Contents(observed), TCP, input.proxyEvent.clientAddress, input.proxyAddress, input.now, DEFAULT_WINDOW);
  }

  lemma ConversionIsNotForeignKey(r: HttpRequestInfo)
    ensures RequestConversion(r) != Failed(ForeignKeyViolation)
  {
  }

  /**
   The worker annotates a request with the one observed connection that explains it and that connection's
   process; without a unique explanation it only fills in the process that the resolver found.
   */
  lemma AnnotationIsExact(observed: seq<ObservedConnection>, e: ProxyEvent, proxyAddress: SocketAddr,
                          resolved: Option<ProcessInfo>, now: Time)
    requires UniqueIds(observed)
    ensures var ids := Candidates(Contents(observed), TCP, e.clientAddress, proxyAddress, now, DEFAULT_WINDOW);
            var request := AnnotatedRequest(observed, e, proxyAddress, resolved, now);
            && (forall id | ids == {id} ::
                  request == e.request.(connectionId := Some(id), process := Contents(observed)[id].connection.process))
            && ((forall id :: ids != {id}) ==> request == e.request.(process := resolved))
  {
    hide Correlated, Contents, UniqueIds, Candidates;
    var ids := Candidates(Contents(observed), TCP, e.clientAddress, proxyAddress, now, DEFAULT_WINDOW);
    CorrelationIsUniqueMatch(observed, e.request, TCP, e.clientAddress, proxyAddress, now, DEFAULT_WINDOW);
    forall id | ids == {id} ensures id in Contents(observed) {
      CandidatesAreKnown(observed, Proxy(e, proxyAddress, resolved, now), id);
    }
  }

  /** Input `i` opens connection `id`. */
  predicate OpensAt(inputs: seq<RuntimeInput>, i: int, id: u64) {
    ReportsAt(inputs, i, id) && inputs[i].event.ConnectionOpened?
  }

  lemma {:induction false} ReportedWasOpened(inputs: seq<RuntimeInput>, id: u64)
    requires Accepted(NetEvents(inputs))
    ensures id in Replay(NetEvents(inputs)).seen ==> exists i :: OpensAt(inputs, i, id)
    ensures (exists i :: ReportsAt(inputs, i, id)) ==> id in Replay(NetEvents(inputs)).seen
  {
    if inputs != [] {
      var before, input := inputs[..|inputs| - 1], inputs[|inputs| - 1];
      if input.Net? {
        ReplaySnoc(EMPTY, NetEvents(before), input.event);
      } else {
        assert NetEvents(inputs) == NetEvents(before);
      }
      ReportedWasOpened(before, id);
      LifeCycleGrammar(NetEvents(before), id);
      if i :| OpensAt(before, i, id) { assert OpensAt(inputs, i, id); }
      if i :| ReportsAt(inputs, i, id) { assert i == |before| || ReportsAt(before, i, id); }
      assert OpensAt(inputs, |before|, id)
             <==> input.Net? && input.event.ConnectionOpened? && input.event.connection.id == id;
    }
  }

  /** If the first report of every connection fits the database, every connection a request names has a row. */
  lemma FirstReportSuffices(found: Tables, inputs: seq<RuntimeInput>, i: nat)
    requires i < |inputs| && ArrivesUncorrelated(inputs, i)
    requires Accepted(NetEvents(inputs[..i]))
    requires forall j, id | j < i && OpensAt(inputs, j, id) :: StoredAt(inputs, j, id)
    ensures var connectionId := RequestAt(inputs, i).connectionId;
            connectionId.Some? ==> connectionId.value in TablesAt(found, inputs, i).connections
    ensures AnswerAt(found, inputs, i) != Failed(ForeignKeyViolation)
  {
    hide ReportsAt, StoredAt, RequestConversion, Replay, Accepted;
    ForeignKeyFailsExactly(found, inputs, i);
    var request, before := RequestAt(inputs, i), inputs[..i];
    if request.connectionId.Some? {
      var id := request.connectionId.value;
      var j :| j < i && ReportsAt(inputs, j, id);
      PrefixReports(inputs, i, j, id);
      ReportedWasOpened(before, id);
      var first :| OpensAt(before, first, id);
      PrefixReports(inputs, i, first, id);
      WorkerHoldsReports(found, before);
    }
  }

  lemma PrefixReports(inputs: seq<RuntimeInput>, i: nat, j: int, id: u64)
    requires i <= |inputs|
    ensures ReportsAt(inputs[..i], j, id) <==> j < i && ReportsAt(inputs, j, id)
    ensures OpensAt(inputs[..i], j, id) <==> j < i && OpensAt(inputs, j, id)
    ensures StoredAt(inputs[..i], j, id) <==> j < i && StoredAt(inputs, j, id)
  {
  }

  /**
   Over a whole run whose ids and packet sizes fit a signed 64-bit integer and whose clock stays in the
   representable time after the epoch, every connection a request is correlated with has a row: no request
   breaks its foreign key, even when later byte counts grow too large to be stored.
   */
  lemma TrafficNeverBreaksForeignKey(found: Tables, turns: seq<Turn>, inputs: seq<RuntimeInput>, i: nat)
    requires IsRun(turns) && StateAfter(turns).nextId <= HTTP_TAG
    requires forall n | 0 <= n < |turns| && turns[n].input.Packet? :: turns[n].input.packet.packetSize <= I64_MAX
    requires NetEvents(inputs) == EventsOf(turns)
    requires forall n | 0 <= n < |inputs| && inputs[n].Net? ::
               0 <= inputs[n].savedAt && inputs[n].savedAt / 1_000_000 <= I64_MAX
    requires i < |inputs| && ArrivesUncorrelated(inputs, i)
    ensures var connectionId := RequestAt(inputs, i).connectionId;
            connectionId.Some? ==> connectionId.value in TablesAt(found, inputs, i).connections
    ensures AnswerAt(found, inputs, i) != Failed(ForeignKeyViolation)
  {
    hide RunOf, EventsOf, Mirrors, AnswerAt, RequestAt, TablesAt, IsRun, Step;
    ReplayRebuildsTracker(turns);
    NetEventsOfPrefix(inputs, i);
    var rest :| NetEvents(inputs) == NetEvents(inputs[..i]) + rest;
    ReplayConcat(EMPTY, NetEvents(inputs[..i]), rest);
    forall j, id | j < i && OpensAt(inputs, j, id) ensures StoredAt(inputs, j, id) {
      EventIsNet(inputs, j);
      OpenedFits(turns, inputs[j].event);
    }
    FirstReportSuffices(found, inputs, i);
  }

  lemma {:induction false} NetEventsOfPrefix(inputs: seq<RuntimeInput>, i: nat)
    requires i <= |inputs|
    ensures exists rest :: NetEvents(inputs) == NetEvents(inputs[..i]) + rest
  {
    if i == |inputs| {
      assert inputs[..i] == inputs;
      assert NetEvents(inputs) == NetEvents(inputs[..i]) + [];
    } else {
      var before, input := inputs[..|inputs| - 1], inputs[|inputs| - 1];
      NetEventsOfPrefix(before, i);
      assert before[..i] == inputs[..i];
      var rest :| NetEvents(before) == NetEvents(inputs[..i]) + rest;
      var last := if input.Net? then [input.event] else [];
      assert NetEvents(inputs) == NetEvents(inputs[..i]) + (rest + last);
    }
  }

  lemma {:induction false} EventIsNet(inputs: seq<RuntimeInput>, i: nat)
    requires i < |inputs| && inputs[i].Net?
    ensures inputs[i].event in NetEvents(inputs)
  {
    if i < |inputs| - 1 {
      assert inputs[..|inputs| - 1][i] == inputs[i];
      EventIsNet(inputs[..|inputs| - 1], i);
    }
  }

  /** The snapshot that opens a connection has an id below `nextId` and the bytes of one packet. */
  lemma {:induction false} OpenedFits(turns: seq<Turn>, e: NetworkEvent)
    requires IsRun(turns) && e.ConnectionOpened? && e in EventsOf(turns) && StateAfter(turns).nextId < U64_MAX
    requires forall n | 0 <= n < |turns| && turns[n].input.Packet? :: turns[n].input.packet.packetSize <= I64_MAX
    ensures e.connection.id < StateAfter(turns).nextId
    ensures e.connection.bytesSent <= I64_MAX && e.connection.bytesReceived <= I64_MAX
  {
    hide TurnEvents, Step;
    var before, turn := turns[..|turns| - 1], turns[|turns| - 1];
    NextIdGrows(turns, |turns| - 1);
    if e in EventsOf(before) {
      OpenedFits(before, e);
    } else {
      TurnOpens(StateAfter(before), turn, e);
    }
  }

  /** A turn can only open the connection of its own packet, under the next id. */
  lemma TurnOpens(s: TrackerState, turn: Turn, e: NetworkEvent)
    requires CanTake(s, turn) && e.ConnectionOpened? && e in TurnEvents(s, turn)
    requires Step(s, turn.input).nextId < U64_MAX
    ensures turn.input.Packet? && e.connection.id == s.nextId < Step(s, turn.input).nextId
    ensures e.connection.bytesSent <= turn.input.packet.packetSize
    ensures e.connection.bytesReceived <= turn.input.packet.packetSize
  {
    assert e !in ClosedEvents(s, turn.order);
  }

  // ----- The screen against the database -----

  /** The text of an address whose ip is stored as text. */
  predicate IsAddressText(text: string, ip: string, port: u16) {
    text == SocketText(SocketAddr(V4(ip), port)) || text == SocketText(SocketAddr(V6(ip), port))
  }

  predicate SameConnection(shown: Row, stored: ConnectionRow, processes: map<u32, ProcessRow>) {
    && shown.bytesSent == stored.bytesSent && shown.bytesReceived == stored.bytesReceived
    && shown.kind == KindOf(stored.protocol)
    && IsAddressText(shown.local, stored.localIp, stored.localPort)
    && IsAddressText(shown.remote, stored.remoteIp, stored.remotePort)
    && shown.host == (if stored.hostname.Some? then stored.hostname.value else stored.remoteIp)
    && match shown.pid
       case None => stored.processId == None && shown.process == UNKNOWN_PROCESS
       case Some(pid) =>
         pid in processes && stored.processId == Some(processes[pid].rowId) && shown.process == processes[pid].name
  }

  predicate SameRequest(shown: Row, stored: RequestRow) {
    && shown.method_ == stored.method_ && shown.host == stored.host && shown.path == stored.path
    && shown.status == stored.status && shown.ja4 == stored.ja4
    && (shown.kind == Https <==> Text.EqualsIgnoringCase(stored.scheme, "https"))
    && shown.durationMs.Some? == stored.durationMs.Some?
    && (shown.durationMs.Some? ==> shown.durationMs.value == stored.durationMs.value)
  }

  /** A snapshot that can be stored is stored as it is shown: the table row and the screen row say the same. */
  lemma ShownConnectionIsStored(t: Tables, c: NetworkConnection, now: Time, count: u64)
    requires ConnectionConversion(c, now).Done?
    ensures var after, shown := Apply(t, PutConnection(c, now)).0, ToUiConnection(c, count);
            shown.id in after.connections && SameConnection(shown, after.connections[shown.id], after.processes)
  {
    hide SocketText, NextRowId;
    assert IsAddressText(SocketText(SocketAddr(c.localIp, c.localPort)), c.localIp.text, c.localPort);
    assert IsAddressText(SocketText(SocketAddr(c.remoteIp, c.remotePort)), c.remoteIp.text, c.remotePort);
  }

  /** A request that can be stored is stored as it is shown, under its untagged id. */
  lemma ShownRequestIsStored(t: Tables, r: HttpRequestInfo, local: SocketAddr, remote: SocketAddr)
    requires r.id < HTTP_TAG && RequestOutcome(t, r).Done?
    ensures var after, shown := Apply(t, PutRequest(r)).0, ToUiHttp(r, local, remote);
            && shown.id - HTTP_TAG in after.requests
            && SameRequest(shown, after.requests[shown.id - HTTP_TAG])
  {
    hide SocketText, Text.Lower;
  }

  lemma RequestKeepsId(observed: seq<ObservedConnection>, e: ProxyEvent, proxyAddress: SocketAddr,
                       resolved: Option<ProcessInfo>, now: Time)
    ensures AnnotatedRequest(observed, e, proxyAddress, resolved, now).id == e.request.id
  {
  }
}
