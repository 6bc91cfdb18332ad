/** What the tables mean after a whole run of the worker, and after a launch that finds older tables. */
module TableLaws {
  import opened Core
  import opened Tracker
  import opened EventStream
  import opened Correlator
  import opened Storage
  import opened Domain
  import opened Runtime
  import opened PipelineLaws
  import opened Tracing

  // ----- The run as a history of calls on the store -----

  /** The calls on the store that handling some inputs makes, in order. */
  ghost function SavesOf(inputs: seq<RuntimeInput>): seq<Save> {
    if inputs == [] then [] else SavesOf(inputs[..|inputs| - 1]) + SavesAt(inputs, |inputs| - 1)
  }

  /** A snapshot and a request make one call each, everything else none. */
  ghost function SavesAt(inputs: seq<RuntimeInput>, i: nat): seq<Save>
    requires i < |inputs|
  {
    match inputs[i]
    case Net(e, _, savedAt) =>
      if e.ConnectionOpened? || e.ConnectionUpdated? then [PutConnection(e.connection, savedAt)] else []
    case Proxy(_, _, _, _) => [PutRequest(RequestAt(inputs, i))]
    case Notify(_) => []
  }

  /** Handling one input makes its calls on the tables it finds, and touches them in no other way. */
  lemma InputMakesItsCalls(found: Tables, inputs: seq<RuntimeInput>)
    requires inputs != []
    ensures var n := |inputs| - 1;
            var t, calls := TablesAt(found, inputs, n), SavesAt(inputs, n);
            TablesAt(found, inputs, |inputs|) == if calls == [] then t else Apply(t, calls[0]).0
    ensures |SavesAt(inputs, |inputs| - 1)| <= 1
  {
    hide Apply, Observe, AnnotatedRequest, ToUiConnection, ToUiHttp, ObserveAll, ObservationsOf, HoldsReports;
    CorrelatorFollowsInputs(Some(found), inputs[..|inputs| - 1]);
    assert inputs[..|inputs|] == inputs;
    WorkerHoldsReports(found, inputs[..|inputs| - 1]);
    TablesStayOpen(found, inputs);
  }

  lemma TablesStayOpen(found: Tables, inputs: seq<RuntimeInput>)
    ensures RunOf(Some(found), inputs).tables.Some?
  {
    WorkerHoldsReports(found, inputs);
  }

  /** The tables of the worker are those of its history of calls, so every law of histories holds for it. */
  lemma {:induction false} WorkerIsSaveHistory(found: Tables, inputs: seq<RuntimeInput>)
    ensures RunOf(Some(found), inputs).tables == Some(Storage.Run(found, SavesOf(inputs)))
  {
    hide Apply, AfterInput, SavesAt;
    if inputs != [] {
      var before, n := inputs[..|inputs| - 1], |inputs| - 1;
      WorkerIsSaveHistory(found, before);
      InputMakesItsCalls(found, inputs);
      TablesStayOpen(found, inputs);
      assert inputs[..|inputs|] == inputs;
      var saves, calls := SavesOf(before), SavesAt(inputs, n);
      if calls == [] {
        assert saves + calls == saves;
      } else {
        assert (saves + calls)[..|saves|] == saves;
      }
    }
  }

  /** Whatever is handled, every row and key survives and every foreign key keeps pointing at a row. */
  lemma WorkerKeepsIntegrity(found: Tables, inputs: seq<RuntimeInput>)
    requires Storage.Consistent(found)
    ensures RunOf(Some(found), inputs).tables.Some?
    ensures Storage.Consistent(RunOf(Some(found), inputs).tables.value)
    ensures Preserves(found, RunOf(Some(found), inputs).tables.value)
  {
    hide Storage.Consistent, RunOf, Preserves;
    WorkerIsSaveHistory(found, inputs);
    HistoryKeepsIntegrity(found, SavesOf(inputs), 0);
    assert SavesOf(inputs)[..0] == [];
  }

  // ----- The last report and the last request stored -----

  /** Input `i` is the last snapshot of connection `id` that fits the database. */
  predicate IsLastStored(inputs: seq<RuntimeInput>, i: int, id: u64) {
    StoredAt(inputs, i, id) && forall j | i < j < |inputs| :: !StoredAt(inputs, j, id)
  }

  /** Input `i` is the first snapshot of connection `id` that fits the database. */
  predicate IsFirstStored(inputs: seq<RuntimeInput>, i: int, id: u64) {
    StoredAt(inputs, i, id) && forall j | 0 <= j < i :: !StoredAt(inputs, j, id)
  }

  /**
   After any run a connection's row shows the last of its snapshots that could be stored; its times are those
   of the row found on disk, and without one the clock of the first snapshot stored.
   */
  lemma ConnectionRowIsLastReport(found: Tables, inputs: seq<RuntimeInput>, i: nat, id: u64)
    requires Storage.Consistent(found) && IsLastStored(inputs, i, id)
    ensures var t := TablesAt(found, inputs, |inputs|);
            id in t.connections && ShowsConnection(t, t.connections[id], inputs[i].event.connection)
    ensures forall first | IsFirstStored(inputs, first, id) ::
              HasTimes(TablesAt(found, inputs, |inputs|).connections[id], found, id, inputs[first].savedAt)
  {
    LastReportIsShown(found, inputs, i, id);
    forall first | IsFirstStored(inputs, first, id) { ConnectionStartsAtFirstReport(found, inputs, first, id); }
  }

  lemma {:induction false} LastReportIsShown(found: Tables, inputs: seq<RuntimeInput>, i: nat, id: u64)
    requires Storage.Consistent(found) && IsLastStored(inputs, i, id)
    ensures var t := TablesAt(found, inputs, |inputs|);
            id in t.connections && ShowsConnection(t, t.connections[id], inputs[i].event.connection)
  {
    hide Apply, Storage.Consistent, ShowsConnection, ConnectionConversion, RunOf, TablesAt;
    var n := |inputs| - 1;
    var before, t := inputs[..n], TablesAt(found, inputs, n);
    InputMakesItsCalls(found, inputs);
    if i == n {
      ConnectionSaveSucceeds(t, inputs[n].event.connection, inputs[n].savedAt);
      SavedRowShows(t, inputs[n].event.connection, inputs[n].savedAt);
    } else {
      forall j | 0 <= j < n ensures StoredAt(before, j, id) == StoredAt(inputs, j, id) {
        assert before[j] == inputs[j];
      }
      LastReportIsShown(found, before, i, id);
      TablesOfPrefix(found, inputs, n);
      assert !StoredAt(inputs, n, id);
      var calls := SavesAt(inputs, n);
      if calls != [] {
        if calls[0].PutConnection? { ConnectionSaveSucceeds(t, calls[0].connection, calls[0].now); }
        OtherSaveKeepsRow(t, calls[0], id, inputs[i].event.connection);
      }
    }
  }

  /** The row carries the times found on disk, and those of an insertion at `savedAt` if there was no row. */
  predicate HasTimes(row: ConnectionRow, found: Tables, id: u64, savedAt: Time) {
    if id in found.connections
    then row.startedAt == found.connections[id].startedAt && row.endedAt == found.connections[id].endedAt
    else row.startedAt == savedAt / 1_000_000 && row.endedAt == None
  }

  /**
   A connection's row starts at the first snapshot that this run stored exactly when no row was found under
   its id, or the row found happens to start then; a row found keeps its own time, whatever replaces it.
   */
  lemma {:induction false} ConnectionStartsAtFirstReport(found: Tables, inputs: seq<RuntimeInput>, i: nat, id: u64)
    requires IsFirstStored(inputs, i, id)
    ensures var t, now := TablesAt(found, inputs, |inputs|), inputs[i].savedAt;
            && id in t.connections && HasTimes(t.connections[id], found, id, now)
            && (t.connections[id].startedAt == now / 1_000_000
                <==> id !in found.connections || found.connections[id].startedAt == now / 1_000_000)
  {
    hide Apply, ConnectionConversion, RunOf, TablesAt;
    var n := |inputs| - 1;
    var before, t := inputs[..n], TablesAt(found, inputs, n);
    InputMakesItsCalls(found, inputs);
    TablesOfPrefix(found, inputs, n);
    forall j | j < n ensures StoredAt(before, j, id) == StoredAt(inputs, j, id) {
      if 0 <= j { assert before[j] == inputs[j]; }
    }
    if i == n {
      UnreportedRowStays(found, before, id);
      ConnectionSaveSucceeds(t, inputs[n].event.connection, inputs[n].savedAt);
    } else {
      ConnectionStartsAtFirstReport(found, before, i, id);
    }
    var calls := SavesAt(inputs, n);
    if calls != [] { CallKeepsConnectionTimes(t, calls[0], id); }
  }

  /** A call inserts a connection with its own clock, and never changes the times of a row. */
  lemma CallKeepsConnectionTimes(t: Tables, save: Save, id: u64)
    ensures var (after, outcome) := Apply(t, save);
            if id in t.connections
            then id in after.connections
                 && after.connections[id].startedAt == t.connections[id].startedAt
                 && after.connections[id].endedAt == t.connections[id].endedAt
            else save.PutConnection? && save.connection.id == id && outcome.Done? ==>
                   id in after.connections
                   && after.connections[id].startedAt == save.now / 1_000_000
                   && after.connections[id].endedAt == None
  {
  }

  lemma TablesOfPrefix(found: Tables, inputs: seq<RuntimeInput>, n: nat)
    requires n <= |inputs|
    ensures TablesAt(found, inputs[..n], n) == TablesAt(found, inputs, n)
    ensures Storage.Consistent(found) ==> Storage.Consistent(TablesAt(found, inputs, n))
  {
    hide Storage.Consistent, RunOf;
    assert inputs[..n][..n] == inputs[..n];
    if Storage.Consistent(found) { WorkerKeepsIntegrity(found, inputs[..n]); }
  }

  lemma ConnectionSaveSucceeds(t: Tables, c: NetworkConnection, now: Time)
    ensures Apply(t, PutConnection(c, now)).1 == ConnectionConversion(c, now)
  {
  }

  /** A connection none of whose snapshots could be stored keeps the row found on disk. */
  lemma {:induction false} UnreportedRowStays(found: Tables, inputs: seq<RuntimeInput>, id: u64)
    requires forall j :: !StoredAt(inputs, j, id)
    ensures var t := TablesAt(found, inputs, |inputs|);
            && (id in t.connections <==> id in found.connections)
            && (id in found.connections ==> t.connections[id] == found.connections[id])
  {
    hide Apply, ConnectionConversion, RunOf, TablesAt;
    if inputs == [] {
      NothingRun(found);
    } else {
      var n := |inputs| - 1;
      var before, t := inputs[..n], TablesAt(found, inputs, n);
      InputMakesItsCalls(found, inputs);
      forall j ensures !StoredAt(before, j, id) {
        if 0 <= j < n { assert before[j] == inputs[j] && !StoredAt(inputs, j, id); }
      }
      UnreportedRowStays(found, before, id);
      TablesOfPrefix(found, inputs, n);
      assert !StoredAt(inputs, n, id);
      var calls := SavesAt(inputs, n);
      if calls != [] {
        if calls[0].PutConnection? { ConnectionSaveSucceeds(t, calls[0].connection, calls[0].now); }
        OtherCallKeepsConnection(t, calls[0], id);
      }
    }
  }

  lemma NothingRun(found: Tables)
    ensures TablesAt(found, [], 0) == found
  {
  }

  lemma OtherCallKeepsConnection(t: Tables, save: Save, id: u64)
    requires save.PutConnection? && save.connection.id == id ==> Apply(t, save).1.Failed?
    ensures var after := Apply(t, save).0;
            && (id in after.connections <==> id in t.connections)
            && (id in t.connections ==> after.connections[id] == t.connections[id])
  {
  }

  /** Input `i` hands over request `id`. */
  predicate HandsOver(inputs: seq<RuntimeInput>, i: int, id: u64) {
    0 <= i < |inputs| && inputs[i].Proxy? && inputs[i].proxyEvent.request.id == id
  }

  /** Input `i` is the last one under request `id` that the database takes. */
  ghost predicate IsLastTaken(found: Tables, inputs: seq<RuntimeInput>, i: int, id: u64) {
    && HandsOver(inputs, i, id) && AnswerAt(found, inputs, i).Done?
    && forall j | i < j < |inputs| && HandsOver(inputs, j, id) :: AnswerAt(found, inputs, j).Failed?
  }

  /** Input `i` is the first one under request `id` that the database takes. */
  ghost predicate IsFirstTaken(found: Tables, inputs: seq<RuntimeInput>, i: int, id: u64) {
    && HandsOver(inputs, i, id) && AnswerAt(found, inputs, i).Done?
    && forall j | 0 <= j < i && HandsOver(inputs, j, id) :: AnswerAt(found, inputs, j).Failed?
  }

  /**
   After any run a request's row shows the last request under its id that could be stored, as annotated; its
   start time is the one found on disk, and without a row that of the first request stored.
   */
  lemma RequestRowIsLastTaken(found: Tables, inputs: seq<RuntimeInput>, i: nat, id: u64)
    requires IsLastTaken(found, inputs, i, id)
    ensures var t := TablesAt(found, inputs, |inputs|);
            id in t.requests && ShowsRequest(t.requests[id], RequestAt(inputs, i))
    ensures forall first | IsFirstTaken(found, inputs, first, id) ::
              TablesAt(found, inputs, |inputs|).requests[id].startedAt
              == RequestStart(found, id, inputs[first].proxyEvent.request.startedAt)
  {
    LastTakenIsShown(found, inputs, i, id);
    forall first | IsFirstTaken(found, inputs, first, id) { RequestStartsAtFirstTaken(found, inputs, first, id); }
  }

  lemma {:induction false} LastTakenIsShown(found: Tables, inputs: seq<RuntimeInput>, i: nat, id: u64)
    requires IsLastTaken(found, inputs, i, id)
    ensures var t := TablesAt(found, inputs, |inputs|);
            id in t.requests && ShowsRequest(t.requests[id], RequestAt(inputs, i))
  {
    hide Apply, ShowsRequest, ConnectionConversion, RunOf, TablesAt, RequestAt, RequestOutcome;
    var n := |inputs| - 1;
    var before, t := inputs[..n], TablesAt(found, inputs, n);
    InputMakesItsCalls(found, inputs);
    if inputs[n].Proxy? { CallGetsAnswer(found, inputs, n); }
    if i == n {
      SavedRequestShows(t, RequestAt(inputs, n));
    } else {
      AnswersOfPrefix(found, inputs, n);
      LastTakenIsShown(found, before, i, id);
      TablesOfPrefix(found, inputs, n);
      var calls := SavesAt(inputs, n);
      if calls != [] { OtherSaveKeepsRequest(t, calls[0], id); }
    }
  }

  /** The start time found on disk, and that of a request handed over with `startedAt` if there was no row. */
  function RequestStart(found: Tables, id: u64, startedAt: Time): int {
    if id in found.requests then found.requests[id].startedAt else startedAt / 1_000_000
  }

  /**
   A request's row starts with the first request that this run stored under its id exactly when no row was
   found under it, or the row found happens to start then.
   */
  lemma {:induction false} RequestStartsAtFirstTaken(found: Tables, inputs: seq<RuntimeInput>, i: nat, id: u64)
    requires IsFirstTaken(found, inputs, i, id)
    ensures var t, startedAt := TablesAt(found, inputs, |inputs|), inputs[i].proxyEvent.request.startedAt;
            && id in t.requests && t.requests[id].startedAt == RequestStart(found, id, startedAt)
            && (t.requests[id].startedAt == startedAt / 1_000_000
                <==> id !in found.requests || found.requests[id].startedAt == startedAt / 1_000_000)
  {
    hide Apply, RunOf, TablesAt, RequestAt, RequestOutcome;
    var n := |inputs| - 1;
    var before, t := inputs[..n], TablesAt(found, inputs, n);
    InputMakesItsCalls(found, inputs);
    if inputs[n].Proxy? { CallGetsAnswer(found, inputs, n); }
    AnswersOfPrefix(found, inputs, n);
    TablesOfPrefix(found, inputs, n);
    if i == n {
      UntakenRequestStays(found, before, id);
    } else {
      RequestStartsAtFirstTaken(found, before, i, id);
    }
    var calls := SavesAt(inputs, n);
    if calls != [] { CallKeepsRequestStart(t, calls[0], id); }
  }

  /** A call inserts a request with its own start time, and never changes that of a row. */
  lemma CallKeepsRequestStart(t: Tables, save: Save, id: u64)
    ensures var (after, outcome) := Apply(t, save);
            if id in t.requests
            then id in after.requests && after.requests[id].startedAt == t.requests[id].startedAt
            else save.PutRequest? && save.request.id == id && outcome.Done? ==>
                   id in after.requests && after.requests[id].startedAt == save.request.startedAt / 1_000_000
  {
  }

  lemma AnswersOfPrefix(found: Tables, inputs: seq<RuntimeInput>, n: nat)
    requires n <= |inputs|
    ensures forall j | 0 <= j < n && inputs[j].Proxy? ::
              && RequestAt(inputs[..n], j) == RequestAt(inputs, j)
              && AnswerAt(found, inputs[..n], j) == AnswerAt(found, inputs, j)
  {
    hide RunOf, AnnotatedRequest, RequestOutcome;
    forall j | 0 <= j < n ensures inputs[..n][..j] == inputs[..j] && inputs[..n][j] == inputs[j] {
    }
  }

  lemma CallGetsAnswer(found: Tables, inputs: seq<RuntimeInput>, i: nat)
    requires i < |inputs| && inputs[i].Proxy?
    ensures SavesAt(inputs, i) == [PutRequest(RequestAt(inputs, i))]
    ensures RequestAt(inputs, i).id == inputs[i].proxyEvent.request.id
    ensures RequestAt(inputs, i).startedAt == inputs[i].proxyEvent.request.startedAt
    ensures Apply(TablesAt(found, inputs, i), PutRequest(RequestAt(inputs, i))).1 == AnswerAt(found, inputs, i)
  {
    hide TablesAt, RequestOutcome, ObserveAll, ObservationsOf;
  }

  /** A request that this run never stores keeps the row found on disk. */
  lemma {:induction false} UntakenRequestStays(found: Tables, inputs: seq<RuntimeInput>, id: u64)
    requires forall j | 0 <= j < |inputs| && HandsOver(inputs, j, id) :: AnswerAt(found, inputs, j).Failed?
    ensures var t := TablesAt(found, inputs, |inputs|);
            && (id in t.requests <==> id in found.requests)
            && (id in found.requests ==> t.requests[id] == found.requests[id])
  {
    hide Apply, RunOf, TablesAt, RequestAt, RequestOutcome;
    if inputs == [] {
      NothingRun(found);
    } else {
      var n := |inputs| - 1;
      InputMakesItsCalls(found, inputs);
      if inputs[n].Proxy? { CallGetsAnswer(found, inputs, n); }
      AnswersOfPrefix(found, inputs, n);
      UntakenRequestStays(found, inputs[..n], id);
      TablesOfPrefix(found, inputs, n);
      var calls := SavesAt(inputs, n);
      if calls != [] { OtherCallKeepsRequest(TablesAt(found, inputs, n), calls[0], id); }
    }
  }

  lemma OtherCallKeepsRequest(t: Tables, save: Save, id: u64)
    requires save.PutRequest? && save.request.id == id ==> Apply(t, save).1.Failed?
    ensures var after := Apply(t, save).0;
            && (id in after.requests <==> id in t.requests)
            && (id in t.requests ==> after.requests[id] == t.requests[id])
  {
  }

  // ----- Where the connection of a stored request leads -----

  /** The connection runs over TCP between these two ends, as far as the texts of the addresses tell. */
  predicate Joins(c: NetworkConnection, local: SocketAddr, remote: SocketAddr) {
    && c.protocol == TCP
    && c.localIp.text == local.ip.text && c.localPort == local.port
    && c.remoteIp.text == remote.ip.text && c.remotePort == remote.port
  }

  predicate RowJoins(row: ConnectionRow, local: SocketAddr, remote: SocketAddr) {
    && row.protocol == TCP
    && row.localIp == local.ip.text && row.localPort == local.port
    && row.remoteIp == remote.ip.text && row.remotePort == remote.port
  }

  /** The request's row refers to a connection row between the two ends. */
  predicate PointsHome(t: Tables, id: u64, local: SocketAddr, remote: SocketAddr) {
    && id in t.requests && t.requests[id].connectionId.Some?
    && t.requests[id].connectionId.value in t.connections
    && RowJoins(t.connections[t.requests[id].connectionId.value], local, remote)
  }

  lemma {:induction false} ReportIsInLife(inputs: seq<RuntimeInput>, j: nat, id: u64)
    requires ReportsAt(inputs, j, id)
    ensures inputs[j].event in Life(NetEvents(inputs), id)
  {
    var n := |inputs| - 1;
    if j < n {
      assert inputs[..n][j] == inputs[j];
      ReportIsInLife(inputs[..n], j, id);
    }
    if inputs[n].Net? {
      var events := NetEvents(inputs[..n]);
      assert (events + [inputs[n].event])[..|events|] == events;
    } else {
      assert NetEvents(inputs) == NetEvents(inputs[..n]);
    }
  }

  /** All snapshots of one id have the same protocol and ends. */
  lemma ReportsShareKey(inputs: seq<RuntimeInput>, i: nat, j: nat, id: u64)
    requires Accepted(NetEvents(inputs)) && ReportsAt(inputs, i, id) && ReportsAt(inputs, j, id)
    ensures KeyFor(inputs[i].event.connection) == KeyFor(inputs[j].event.connection)
  {
    hide Accepted, NetEvents, Life, Replay;
    var life := Life(NetEvents(inputs), id);
    ReportIsInLife(inputs, i, id);
    ReportIsInLife(inputs, j, id);
    LifeCycleGrammar(NetEvents(inputs), id);
    var m :| 0 <= m < |life| && life[m] == inputs[i].event;
    var n :| 0 <= n < |life| && life[n] == inputs[j].event;
    if m < n {
      assert Evolves(life[m].connection, life[n].connection);
    } else if n < m {
      assert Evolves(life[n].connection, life[m].connection);
    }
  }

  lemma {:induction false} LastStoredExists(inputs: seq<RuntimeInput>, i: nat, id: u64) returns (last: nat)
    requires StoredAt(inputs, i, id)
    ensures IsLastStored(inputs, last, id)
    decreases |inputs| - i
  {
    if j :| i < j < |inputs| && StoredAt(inputs, j, id) {
      last := LastStoredExists(inputs, j, id);
    } else {
      last := i;
    }
  }

  /** A connection's row has the ends of its reports once one was stored, and until then those found on disk. */
  lemma RowHasEndsOfReports(found: Tables, inputs: seq<RuntimeInput>, id: u64, local: SocketAddr, remote: SocketAddr)
    requires Storage.Consistent(found) && Accepted(NetEvents(inputs))
    requires id in TablesAt(found, inputs, |inputs|).connections
    ensures RowJoins(TablesAt(found, inputs, |inputs|).connections[id], local, remote)
       <==> if exists i :: StoredAt(inputs, i, id)
            then forall i | ReportsAt(inputs, i, id) :: Joins(inputs[i].event.connection, local, remote)
            else id in found.connections && RowJoins(found.connections[id], local, remote)
  {
    hide Accepted, NetEvents, ConnectionConversion, TablesAt, Storage.Consistent;
    if i :| StoredAt(inputs, i, id) {
      var last := LastStoredExists(inputs, i, id);
      ConnectionRowIsLastReport(found, inputs, last, id);
      forall j | ReportsAt(inputs, j, id) { ReportsShareKey(inputs, last, j, id); }
    } else {
      UnreportedRowStays(found, inputs, id);
    }
  }

  /** A request is only ever correlated with a connection that was reported between its own two ends. */
  lemma CorrelatedWasReported(inputs: seq<RuntimeInput>, i: nat)
    requires i < |inputs| && ArrivesUncorrelated(inputs, i) && RequestAt(inputs, i).connectionId.Some?
    ensures exists j :: && j < i && ReportsAt(inputs, j, RequestAt(inputs, i).connectionId.value)
                        && KeyFor(inputs[j].event.connection)
                           == KeyBetween(inputs[i].proxyEvent.clientAddress, inputs[i].proxyAddress)
  {
    hide RequestAt, ReportsAt;
    var id := RequestAt(inputs, i).connectionId.value;
    TraceIsUniqueExplanation(inputs, i, id);
    var j :| ExplainsAt(inputs, i, j, id);
    PrefixReports(inputs, i, j, id);
  }

  lemma RequestLeadsToRow(t: Tables, id: u64)
    requires Storage.Consistent(t) && id in t.requests && t.requests[id].connectionId.Some?
    ensures t.requests[id].connectionId.value in t.connections
  {
  }

  lemma RowWasStoredOrFound(found: Tables, inputs: seq<RuntimeInput>, id: u64)
    requires id in TablesAt(found, inputs, |inputs|).connections
    ensures id in found.connections || exists j :: StoredAt(inputs, j, id)
  {
    hide RunOf, StoredAt, ReportsAt;
    WorkerHoldsReports(found, inputs);
    assert inputs[..|inputs|] == inputs;
  }

  /**
   After any run, the row of a request stored with a connection refers to a row between the request's own
   client and proxy addresses exactly when a report of that connection was stored in this run, or the row
   found on disk under its id happens to have those ends.  It is enough that no such row was found.
   */
  lemma StoredRequestPointsHome(found: Tables, inputs: seq<RuntimeInput>, i: nat, id: u64)
    requires Storage.Consistent(found) && Accepted(NetEvents(inputs))
    requires IsLastTaken(found, inputs, i, id) && ArrivesUncorrelated(inputs, i)
    requires RequestAt(inputs, i).connectionId.Some?
    ensures var t, c := TablesAt(found, inputs, |inputs|), RequestAt(inputs, i).connectionId.value;
            var local, remote := inputs[i].proxyEvent.clientAddress, inputs[i].proxyAddress;
            && (PointsHome(t, id, local, remote)
                <==> (exists j :: StoredAt(inputs, j, c))
                     || (c in found.connections && RowJoins(found.connections[c], local, remote)))
            && (c !in found.connections ==> PointsHome(t, id, local, remote))
  {
    hide Accepted, NetEvents, ConnectionConversion, RunOf, TablesAt, Storage.Consistent, RequestAt, RequestOutcome;
    hide RowJoins;
    var t, c := TablesAt(found, inputs, |inputs|), RequestAt(inputs, i).connectionId.value;
    var local, remote := inputs[i].proxyEvent.clientAddress, inputs[i].proxyAddress;
    RequestRowIsLastTaken(found, inputs, i, id);
    assert t.requests[id].connectionId == Some(c);
    TablesOfPrefix(found, inputs, |inputs|);
    RequestLeadsToRow(t, id);
    RowWasStoredOrFound(found, inputs, c);
    RowHasEndsOfReports(found, inputs, c, local, remote);
    CorrelatedWasReported(inputs, i);
    var k :| k < i && ReportsAt(inputs, k, c) && KeyFor(inputs[k].event.connection) == KeyBetween(local, remote);
    forall j | ReportsAt(inputs, j, c) ensures Joins(inputs[j].event.connection, local, remote) {
      ReportsShareKey(inputs, k, j, c);
    }
  }

  /**
   A request found on disk and not stored again keeps its row, while the row of the connection it refers to
   follows whatever this run reports under that id: it still leads to its own ends exactly when it did and no
   report was stored, or the reports have the same ends.
   */
  lemma OldRequestFollowsNewReports(found: Tables, inputs: seq<RuntimeInput>, id: u64, c: u64, local: SocketAddr,
                                    remote: SocketAddr)
    requires Storage.Consistent(found) && Accepted(NetEvents(inputs))
    requires id in found.requests && found.requests[id].connectionId == Some(c)
    requires forall j | 0 <= j < |inputs| && HandsOver(inputs, j, id) :: AnswerAt(found, inputs, j).Failed?
    ensures id in TablesAt(found, inputs, |inputs|).requests
    ensures TablesAt(found, inputs, |inputs|).requests[id] == found.requests[id]
    ensures PointsHome(TablesAt(found, inputs, |inputs|), id, local, remote)
       <==> if exists i :: StoredAt(inputs, i, c)
            then forall i | ReportsAt(inputs, i, c) :: Joins(inputs[i].event.connection, local, remote)
            else RowJoins(found.connections[c], local, remote)
  {
    hide Accepted, NetEvents, TablesAt, AnswerAt, Joins, RowJoins, StoredAt, ReportsAt, HandsOver, Storage.Consistent;
    RequestLeadsToRow(found, id);
    UntakenRequestStays(found, inputs, id);
    TablesOfPrefix(found, inputs, |inputs|);
    RequestLeadsToRow(TablesAt(found, inputs, |inputs|), id);
    RowHasEndsOfReports(found, inputs, c, local, remote);
  }
}
