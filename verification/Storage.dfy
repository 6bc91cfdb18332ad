/** The SQLite store as three tables with primary keys, upserts, foreign keys and integer conversions. */
module Storage {
  import opened Core

  datatype SqlError = OutOfRange | BeforeEpoch | ForeignKeyViolation

  datatype Converted = Integer(value: int) | Rejected(error: SqlError)

  datatype Outcome = Done | Failed(error: SqlError)

  datatype ProcessRow = ProcessRow(rowId: int, name: string, executablePath: Option<string>)

  datatype ConnectionRow = ConnectionRow(
    processId: Option<int>, protocol: NetworkProtocol, localIp: string, localPort: u16, remoteIp: string,
    remotePort: u16, hostname: Option<string>, startedAt: int, endedAt: Option<int>, bytesSent: int, bytesReceived: int)

  datatype RequestRow = RequestRow(
    connectionId: Option<int>, method_: string, scheme: string, host: string, path: string, status: Option<u16>,
    startedAt: int, durationMs: Option<int>, ja4: Option<string>)

  /** `processes` is keyed by its UNIQUE pid; the row id is the primary key that connections refer to. */
  datatype Tables = Tables(
    processes: map<u32, ProcessRow>, connections: map<int, ConnectionRow>, requests: map<int, RequestRow>)

  const NO_ROWS := Tables(map[], map[], map[])

  function SqliteInteger(value: nat): Converted {
    if value <= I64_MAX then Integer(value) else Rejected(OutOfRange)
  }

  function UnixMilliseconds(time: Time): Converted {
    if time < 0 then Rejected(BeforeEpoch) else SqliteInteger(time / 1_000_000)
  }

  /** Among `pids`, no process row has a larger row id than that of `pid`. */
  predicate IsNewest(processes: map<u32, ProcessRow>, pids: set<u32>, pid: u32)
    requires pids <= processes.Keys
  {
    pid in pids && forall q | q in pids :: processes[q].rowId <= processes[pid].rowId
  }

  /** Row ids are the largest one in use plus one, as for any INTEGER PRIMARY KEY. */
  ghost function NextRowId(processes: map<u32, ProcessRow>): (id: int)
    ensures forall pid | pid in processes :: processes[pid].rowId < id
    ensures if processes == map[] then id == 1 else exists pid :: pid in processes && processes[pid].rowId == id - 1
  {
    if processes == map[] then 1
    else
      NewestExists(processes, processes.Keys);
      var newest :| IsNewest(processes, processes.Keys, newest);
      processes[newest].rowId + 1
  }

  lemma {:induction false} NewestExists(processes: map<u32, ProcessRow>, pids: set<u32>)
    requires pids != {} && pids <= processes.Keys
    ensures exists pid :: IsNewest(processes, pids, pid)
  {
    var pid :| pid in pids;
    var rest := pids - {pid};
    if rest == {} {
      assert pids == {pid};
      assert IsNewest(processes, pids, pid);
    } else {
      NewestExists(processes, rest);
      var other :| IsNewest(processes, rest, other);
      assert forall q | q in pids :: q == pid || q in rest;
      assert IsNewest(processes, pids, if processes[other].rowId > processes[pid].rowId then other else pid);
    }
  }

  // ----- The three upserts -----

  ghost function SaveProcess(t: Tables, p: ProcessInfo): Tables {
    var rowId := if p.pid in t.processes then t.processes[p.pid].rowId else NextRowId(t.processes);
    t.(processes := t.processes[p.pid := ProcessRow(rowId, p.name, p.executablePath)])
  }

  ghost function WithProcess(t: Tables, p: Option<ProcessInfo>): Tables {
    if p.Some? then SaveProcess(t, p.value) else t
  }

  /** The first conversion that fails, in the order the statement evaluates them. */
  function ConnectionConversion(c: NetworkConnection, now: Time): Outcome {
    var id, at := SqliteInteger(c.id), UnixMilliseconds(now);
    var sent, received := SqliteInteger(c.bytesSent), SqliteInteger(c.bytesReceived);
    if id.Rejected? then Failed(id.error)
    else if at.Rejected? then Failed(at.error)
    else if sent.Rejected? then Failed(sent.error)
    else if received.Rejected? then Failed(received.error)
    else Done
  }

  ghost function SaveConnection(t: Tables, c: NetworkConnection, now: Time): (Tables, Outcome) {
    var saved := WithProcess(t, c.process);
    if ConnectionConversion(c, now).Failed? then (saved, ConnectionConversion(c, now))
    else
      var processId := if c.process.Some? then Some(saved.processes[c.process.value.pid].rowId) else None;
      var existing := if c.id in t.connections then Some(t.connections[c.id]) else None;
      var row := ConnectionRow(
        processId, c.protocol, c.localIp.text, c.localPort, c.remoteIp.text, c.remotePort, c.hostname,
        if existing.Some? then existing.value.startedAt else UnixMilliseconds(now).value,
        if existing.Some? then existing.value.endedAt else None,
        c.bytesSent, c.bytesReceived);
      (saved.(connections := t.connections[c.id := row]), Done)
  }

  function RequestConversion(r: HttpRequestInfo): Outcome {
    var id, at := SqliteInteger(r.id), UnixMilliseconds(r.startedAt);
    var connectionId := if r.connectionId.Some? then SqliteInteger(r.connectionId.value) else Integer(0);
    var duration := if r.durationMs.Some? then SqliteInteger(r.durationMs.value) else Integer(0);
    if id.Rejected? then Failed(id.error)
    else if connectionId.Rejected? then Failed(connectionId.error)
    else if at.Rejected? then Failed(at.error)
    else if duration.Rejected? then Failed(duration.error)
    else Done
  }

  /** The statement is only run once every conversion succeeded; then the foreign key is checked. */
  function RequestOutcome(t: Tables, r: HttpRequestInfo): Outcome {
    if RequestConversion(r).Failed? then RequestConversion(r)
    else if r.connectionId.Some? && r.connectionId.value !in t.connections then Failed(ForeignKeyViolation)
    else Done
  }

  function SaveRequest(t: Tables, r: HttpRequestInfo): (Tables, Outcome) {
    var outcome := RequestOutcome(t, r);
    if outcome.Failed? then (t, outcome)
    else
      var startedAt :=
        if r.id in t.requests then t.requests[r.id].startedAt else UnixMilliseconds(r.startedAt).value;
      var connectionId: Option<int> := if r.connectionId.Some? then Some(r.connectionId.value) else None;
      var durationMs: Option<int> := if r.durationMs.Some? then Some(r.durationMs.value) else None;
      var row := RequestRow(
        connectionId, r.method_, r.scheme, r.host, r.path, r.statusCode, startedAt, durationMs, r.ja4);
      (t.(requests := t.requests[r.id := row]), Done)
  }

  /** A new process gets row id 1, or the one after the largest in use; a known one keeps its own. */
  lemma RowIdsAreConsecutive(t: Tables, p: ProcessInfo)
    ensures var after := SaveProcess(t, p).processes;
            && after.Keys == t.processes.Keys + {p.pid}
            && (forall q | q in t.processes :: after[q].rowId == t.processes[q].rowId)
            && (p.pid !in t.processes ==>
                  && (forall q | q in t.processes :: t.processes[q].rowId < after[p.pid].rowId)
                  && (if t.processes == map[] then after[p.pid].rowId == 1
                      else exists q :: q in t.processes && t.processes[q].rowId == after[p.pid].rowId - 1))
  {
    if p.pid !in t.processes && t.processes != map[] {
      var q :| q in t.processes && t.processes[q].rowId == NextRowId(t.processes) - 1;
    }
  }

  // ----- Integrity -----

  /** Row ids are unique and every foreign key points at a row. */
  ghost predicate Consistent(t: Tables) {
    && (forall p, q | p in t.processes && q in t.processes && p != q :: t.processes[p].rowId != t.processes[q].rowId)
    && (forall id | id in t.connections && t.connections[id].processId.Some? ::
          exists pid | pid in t.processes :: t.processes[pid].rowId == t.connections[id].processId.value)
    && (forall id | id in t.requests && t.requests[id].connectionId.Some? ::
          t.requests[id].connectionId.value in t.connections)
  }

  /** One call on the store. */
  datatype Save =
    | PutProcess(process: ProcessInfo)
    | PutConnection(connection: NetworkConnection, now: Time)
    | PutRequest(request: HttpRequestInfo)

  ghost function Apply(t: Tables, save: Save): (Tables, Outcome) {
    match save
    case PutProcess(p) => (SaveProcess(t, p), Done)
    case PutConnection(c, now) => SaveConnection(t, c, now)
    case PutRequest(r) => SaveRequest(t, r)
  }

  /** What a later state of the tables keeps of an earlier one: rows, row ids and first-insert times. */
  ghost predicate Preserves(before: Tables, after: Tables) {
    && (forall pid | pid in before.processes ::
          pid in after.processes && after.processes[pid].rowId == before.processes[pid].rowId)
    && (forall id | id in before.connections ::
          id in after.connections && after.connections[id].startedAt == before.connections[id].startedAt)
    && (forall id | id in before.requests ::
          id in after.requests && after.requests[id].startedAt == before.requests[id].startedAt)
  }

  /** No call, failed or not, breaks a key, loses a row, or changes a row id or a first-insert time. */
  lemma SaveKeepsIntegrity(t: Tables, save: Save)
    requires Consistent(t)
    ensures Consistent(Apply(t, save).0)
    ensures Preserves(t, Apply(t, save).0)
  {
    match save
    case PutProcess(p) => SaveProcessKeeps(t, p);
    case PutConnection(c, now) => SaveConnectionKeeps(t, c, now);
    case PutRequest(r) =>
  }

  lemma SaveConnectionKeeps(t: Tables, c: NetworkConnection, now: Time)
    requires Consistent(t)
    ensures Consistent(SaveConnection(t, c, now).0) && Preserves(t, SaveConnection(t, c, now).0)
  {
    hide SaveProcess;
    if c.process.Some? {
      SaveProcessKeeps(t, c.process.value);
      SaveProcessOnly(t, c.process.value);
    }
  }

  lemma SaveProcessOnly(t: Tables, p: ProcessInfo)
    ensures p.pid in SaveProcess(t, p).processes
    ensures SaveProcess(t, p) == t.(processes := SaveProcess(t, p).processes)
  {
  }

  lemma SaveProcessKeeps(t: Tables, p: ProcessInfo)
    requires Consistent(t)
    ensures Consistent(SaveProcess(t, p)) && Preserves(t, SaveProcess(t, p))
  {
    var after := SaveProcess(t, p);
    forall id | id in after.connections && after.connections[id].processId.Some?
      ensures exists pid | pid in after.processes :: after.processes[pid].rowId == after.connections[id].processId.value
    {
      var pid :| pid in t.processes && t.processes[pid].rowId == t.connections[id].processId.value;
      assert pid in after.processes && after.processes[pid].rowId == t.processes[pid].rowId;
    }
  }

  // ----- Histories of calls -----

  ghost function Run(t: Tables, saves: seq<Save>): Tables {
    if saves == [] then t
    else Apply(Run(t, saves[..|saves| - 1]), saves[|saves| - 1]).0
  }

  /** Whether call `i` of the history succeeded. */
  ghost predicate Succeeds(t: Tables, saves: seq<Save>, i: nat)
    requires i < |saves|
  {
    Apply(Run(t, saves[..i]), saves[i]).1.Done?
  }

  lemma {:induction false} HistoryKeepsIntegrity(t: Tables, saves: seq<Save>, i: nat)
    requires Consistent(t) && i <= |saves|
    ensures Consistent(Run(t, saves)) && Preserves(Run(t, saves[..i]), Run(t, saves))
  {
    hide Consistent, Apply;
    if saves != [] {
      var before := saves[..|saves| - 1];
      HistoryKeepsIntegrity(t, before, if i < |saves| then i else 0);
      SaveKeepsIntegrity(Run(t, before), saves[|saves| - 1]);
      if i < |saves| {
        assert before[..i] == saves[..i];
      }
    }
    assert i == |saves| ==> saves[..i] == saves;
  }

  /** The keys that a history of calls inserts or updates successfully. */
  ghost function SavedConnections(t: Tables, saves: seq<Save>): set<int> {
    set i | 0 <= i < |saves| && saves[i].PutConnection? && Succeeds(t, saves, i) :: saves[i].connection.id
  }

  ghost function SavedRequests(t: Tables, saves: seq<Save>): set<int> {
    set i | 0 <= i < |saves| && saves[i].PutRequest? && Succeeds(t, saves, i) :: saves[i].request.id
  }

  /** The process that a call saves; a connection call saves it even if it goes on to fail. */
  function SavedInfo(save: Save): Option<ProcessInfo> {
    match save
    case PutProcess(p) => Some(p)
    case PutConnection(c, _) => c.process
    case PutRequest(_) => None
  }

  ghost function SavedProcesses(saves: seq<Save>): set<u32> {
    set i | 0 <= i < |saves| && SavedInfo(saves[i]).Some? :: SavedInfo(saves[i]).value.pid
  }

  /** The keys present after a history are the initial ones and exactly those saved successfully. */
  lemma {:induction false} RowsAreSavedKeys(t: Tables, saves: seq<Save>)
    ensures Run(t, saves).connections.Keys == t.connections.Keys + SavedConnections(t, saves)
    ensures Run(t, saves).requests.Keys == t.requests.Keys + SavedRequests(t, saves)
    ensures Run(t, saves).processes.Keys == t.processes.Keys + SavedProcesses(saves)
  {
    hide Apply, SavedConnections, SavedRequests, SavedProcesses;
    if saves == [] {
      NothingSaved(t);
    } else {
      var n := |saves| - 1;
      var before, save := saves[..n], saves[n];
      RowsAreSavedKeys(t, before);
      forall i | 0 <= i < n ensures Succeeds(t, saves, i) == Succeeds(t, before, i) && before[i] == saves[i] {
        assert before[..i] == saves[..i];
      }
      LastSaveAdds(t, saves);
      ApplyAddsKeys(Run(t, before), save);
    }
  }

  lemma NothingSaved(t: Tables)
    ensures SavedConnections(t, []) == {} && SavedRequests(t, []) == {} && SavedProcesses([]) == {}
  {
  }

  lemma ApplyAddsKeys(t: Tables, save: Save)
    ensures var (after, outcome) := Apply(t, save);
            && after.connections.Keys
               == t.connections.Keys
                  + (if save.PutConnection? && outcome.Done? then {save.connection.id as int} else {})
            && after.requests.Keys
               == t.requests.Keys + (if save.PutRequest? && outcome.Done? then {save.request.id as int} else {})
            && after.processes.Keys
               == t.processes.Keys + (if SavedInfo(save).Some? then {SavedInfo(save).value.pid} else {})
  {
  }

  lemma LastSaveAdds(t: Tables, saves: seq<Save>)
    requires saves != []
    requires var before := saves[..|saves| - 1];
             forall i | 0 <= i < |before| ::
               Succeeds(t, saves, i) == Succeeds(t, before, i) && before[i] == saves[i]
    ensures var n := |saves| - 1;
            var before, save, done := saves[..n], saves[n], Succeeds(t, saves, n);
            && SavedConnections(t, saves)
               == SavedConnections(t, before)
                  + (if save.PutConnection? && done then {save.connection.id as int} else {})
            && SavedRequests(t, saves)
               == SavedRequests(t, before) + (if save.PutRequest? && done then {save.request.id as int} else {})
            && SavedProcesses(saves)
               == SavedProcesses(before) + (if SavedInfo(save).Some? then {SavedInfo(save).value.pid} else {})
  {
    hide Succeeds;
  }

  /** Row counts are the numbers of distinct keys among the initial rows and those saved successfully. */
  lemma RowCounts(t: Tables, saves: seq<Save>)
    ensures |Run(t, saves).connections| == |t.connections.Keys + SavedConnections(t, saves)|
    ensures |Run(t, saves).requests| == |t.requests.Keys + SavedRequests(t, saves)|
    ensures |Run(t, saves).processes| == |t.processes.Keys + SavedProcesses(saves)|
  {
    hide Run, SavedConnections, SavedRequests, SavedProcesses;
    RowsAreSavedKeys(t, saves);
  }

  /** A connection keeps the time of the call that inserted it, whatever is saved afterwards. */
  lemma ConnectionKeepsFirstInsert(t: Tables, saves: seq<Save>, i: nat)
    requires Consistent(t) && i < |saves| && saves[i].PutConnection? && Succeeds(t, saves, i)
    requires saves[i].connection.id !in Run(t, saves[..i]).connections
    ensures saves[i].connection.id in Run(t, saves).connections
    ensures Run(t, saves).connections[saves[i].connection.id].startedAt == saves[i].now / 1_000_000
  {
    assert saves[..i + 1][..i] == saves[..i];
    HistoryKeepsIntegrity(t, saves, i + 1);
  }

  lemma RequestKeepsFirstInsert(t: Tables, saves: seq<Save>, i: nat)
    requires Consistent(t) && i < |saves| && saves[i].PutRequest? && Succeeds(t, saves, i)
    requires saves[i].request.id !in Run(t, saves[..i]).requests
    ensures saves[i].request.id in Run(t, saves).requests
    ensures Run(t, saves).requests[saves[i].request.id].startedAt == saves[i].request.startedAt / 1_000_000
  {
    assert saves[..i + 1][..i] == saves[..i];
    HistoryKeepsIntegrity(t, saves, i + 1);
  }

  /** The row shows the snapshot, and refers to the row of the snapshot's process. */
  predicate ShowsConnection(t: Tables, row: ConnectionRow, c: NetworkConnection) {
    && row.bytesSent == c.bytesSent && row.bytesReceived == c.bytesReceived
    && row.localIp == c.localIp.text && row.localPort == c.localPort
    && row.remoteIp == c.remoteIp.text && row.remotePort == c.remotePort
    && row.protocol == c.protocol && row.hostname == c.hostname
    && match c.process
       case None => row.processId == None
       case Some(p) => p.pid in t.processes && row.processId == Some(t.processes[p.pid].rowId)
  }

  /** Call `i` is the last one that saved its connection. */
  ghost predicate IsLastSaveOf(t: Tables, saves: seq<Save>, i: int, id: u64) {
    && 0 <= i < |saves| && saves[i].PutConnection? && saves[i].connection.id == id && Succeeds(t, saves, i)
    && forall j | i < j < |saves| && saves[j].PutConnection? && saves[j].connection.id == id :: !Succeeds(t, saves, j)
  }

  /**
   After any history a connection's row shows the snapshot of the last call that succeeded for it, failed
   calls and other rows notwithstanding, and its process reference still leads to that process.
   */
  lemma {:induction false} ConnectionRowIsLatest(t: Tables, saves: seq<Save>, i: nat, id: u64)
    requires Consistent(t) && IsLastSaveOf(t, saves, i, id)
    ensures id in Run(t, saves).connections
    ensures ShowsConnection(Run(t, saves), Run(t, saves).connections[id], saves[i].connection)
  {
    hide Apply, Consistent, ShowsConnection;
    var n := |saves| - 1;
    var before := saves[..n];
    HistoryKeepsIntegrity(t, before, 0);
    if i == n {
      SavedRowShows(Run(t, before), saves[n].connection, saves[n].now);
    } else {
      assert before[..i] == saves[..i] && before[i] == saves[i];
      forall j | i < j < |before| && before[j].PutConnection? && before[j].connection.id == id
        ensures !Succeeds(t, before, j)
      {
        assert before[..j] == saves[..j] && before[j] == saves[j];
      }
      ConnectionRowIsLatest(t, before, i, id);
      assert saves[n].PutConnection? && saves[n].connection.id == id ==> !Succeeds(t, saves, n);
      OtherSaveKeepsRow(Run(t, before), saves[n], id, saves[i].connection);
    }
  }

  lemma SavedRowShows(t: Tables, c: NetworkConnection, now: Time)
    requires Apply(t, PutConnection(c, now)).1.Done?
    ensures var after := Apply(t, PutConnection(c, now)).0;
            c.id in after.connections && ShowsConnection(after, after.connections[c.id], c)
  {
  }

  lemma OtherSaveKeepsRow(t: Tables, save: Save, id: u64, c: NetworkConnection)
    requires Consistent(t) && id in t.connections && ShowsConnection(t, t.connections[id], c)
    requires save.PutConnection? && save.connection.id == id ==> Apply(t, save).1.Failed?
    ensures var after := Apply(t, save).0;
            id in after.connections && ShowsConnection(after, after.connections[id], c)
  {
    SaveKeepsIntegrity(t, save);
  }

  /** The row shows the request, except that it keeps its own first-insert time. */
  predicate ShowsRequest(row: RequestRow, r: HttpRequestInfo) {
    && row.method_ == r.method_ && row.scheme == r.scheme && row.host == r.host && row.path == r.path
    && row.status == r.statusCode && row.ja4 == r.ja4
    && row.connectionId.Some? == r.connectionId.Some? && row.durationMs.Some? == r.durationMs.Some?
    && (r.connectionId.Some? ==> row.connectionId.value == r.connectionId.value)
    && (r.durationMs.Some? ==> row.durationMs.value == r.durationMs.value)
  }

  /** Call `i` is the last one that saved its request. */
  ghost predicate IsLastRequestSave(t: Tables, saves: seq<Save>, i: int, id: u64) {
    && 0 <= i < |saves| && saves[i].PutRequest? && saves[i].request.id == id && Succeeds(t, saves, i)
    && forall j | i < j < |saves| && saves[j].PutRequest? && saves[j].request.id == id :: !Succeeds(t, saves, j)
  }

  /** After any history a request's row shows the last call that succeeded for it. */
  lemma {:induction false} RequestRowIsLatest(t: Tables, saves: seq<Save>, i: nat, id: u64)
    requires IsLastRequestSave(t, saves, i, id)
    ensures id in Run(t, saves).requests && ShowsRequest(Run(t, saves).requests[id], saves[i].request)
  {
    hide ShowsRequest, SaveConnection;
    var n := |saves| - 1;
    var before := saves[..n];
    if i == n {
      SavedRequestShows(Run(t, before), saves[n].request);
    } else {
      assert before[..i] == saves[..i] && before[i] == saves[i];
      forall j | i < j < |before| && before[j].PutRequest? && before[j].request.id == id
        ensures !Succeeds(t, before, j)
      {
        assert before[..j] == saves[..j] && before[j] == saves[j];
      }
      RequestRowIsLatest(t, before, i, id);
      assert saves[n].PutRequest? && saves[n].request.id == id ==> !Succeeds(t, saves, n);
      OtherSaveKeepsRequest(Run(t, before), saves[n], id);
    }
  }

  lemma SavedRequestShows(t: Tables, r: HttpRequestInfo)
    requires Apply(t, PutRequest(r)).1.Done?
    ensures var after := Apply(t, PutRequest(r)).0;
            r.id in after.requests && ShowsRequest(after.requests[r.id], r)
  {
  }

  lemma OtherSaveKeepsRequest(t: Tables, save: Save, id: u64)
    requires id in t.requests
    requires save.PutRequest? && save.request.id == id ==> Apply(t, save).1.Failed?
    ensures id in Apply(t, save).0.requests && Apply(t, save).0.requests[id] == t.requests[id]
  {
  }

  /** After any history a process's row shows the name and path it was last saved with. */
  lemma {:induction false} ProcessRowIsLatest(t: Tables, saves: seq<Save>, i: nat, p: ProcessInfo)
    requires i < |saves| && SavedInfo(saves[i]) == Some(p)
    requires forall j | i < j < |saves| && SavedInfo(saves[j]).Some? :: SavedInfo(saves[j]).value.pid != p.pid
    ensures p.pid in Run(t, saves).processes
    ensures Run(t, saves).processes[p.pid].name == p.name
    ensures Run(t, saves).processes[p.pid].executablePath == p.executablePath
  {
    hide NextRowId, ConnectionConversion, RequestOutcome;
    var n := |saves| - 1;
    var before := saves[..n];
    if i < n {
      assert forall j | 0 <= j < n :: before[j] == saves[j];
      ProcessRowIsLatest(t, before, i, p);
    }
  }

  /** The number fits a signed 64-bit integer. */
  predicate FitsInteger(n: nat) {
    n <= 0x7FFF_FFFF_FFFF_FFFF
  }

  /** The time is not before the epoch, and its milliseconds fit a signed 64-bit integer. */
  predicate FitsClock(time: Time) {
    0 <= time && FitsInteger(time / 1_000_000)
  }

  /**
   A connection call succeeds exactly when all its numbers fit; a failed one changes no connection and no
   request.  It fails for the clock when the id fits and the time is before the epoch, and otherwise for range.
   */
  lemma ConnectionSaveIsAllOrNothing(t: Tables, c: NetworkConnection, now: Time)
    ensures var (after, outcome) := SaveConnection(t, c, now);
            && (outcome.Done? <==>
                  FitsInteger(c.id) && FitsClock(now) && FitsInteger(c.bytesSent) && FitsInteger(c.bytesReceived))
            && (outcome.Failed? ==> after.connections == t.connections && after.requests == t.requests)
            && (outcome.Failed? ==>
                  outcome.error == if FitsInteger(c.id) && now < 0 then BeforeEpoch else OutOfRange)
            && after.processes == WithProcess(t, c.process).processes
  {
  }

  /**
   A request call succeeds exactly when all its numbers fit and the connection it names, if any, has a row; a
   failed one changes nothing.  The foreign key is only reached when every number fits.
   */
  lemma RequestSaveIsAllOrNothing(t: Tables, r: HttpRequestInfo)
    ensures var (after, outcome) := SaveRequest(t, r);
            var numbersFit :=
              && FitsInteger(r.id) && FitsClock(r.startedAt)
              && (r.connectionId.Some? ==> FitsInteger(r.connectionId.value))
              && (r.durationMs.Some? ==> FitsInteger(r.durationMs.value));
            && (outcome.Done? <==> numbersFit && (r.connectionId.Some? ==> r.connectionId.value in t.connections))
            && (outcome.Failed? ==> after == t)
            && (outcome == Failed(ForeignKeyViolation) <==>
                  numbersFit && r.connectionId.Some? && r.connectionId.value !in t.connections)
            && (outcome == Failed(BeforeEpoch) <==>
                  && FitsInteger(r.id) && r.startedAt < 0
                  && (r.connectionId.Some? ==> FitsInteger(r.connectionId.value)))
            && after == t.(requests := after.requests)
  {
  }

  class Database {
    var processes: map<u32, ProcessRow>
    var connections: map<int, ConnectionRow>
    var requests: map<int, RequestRow>

    function Contents(): Tables
      reads this
    {
      Tables(processes, connections, requests)
    }

    constructor ()
      ensures Contents() == NO_ROWS
    {
      processes, connections, requests := map[], map[], map[];
    }

    method SaveProcess(process: ProcessInfo)
      modifies this
      ensures Contents() == Apply(old(Contents()), PutProcess(process)).0
    {
      var rowId;
      if process.pid in processes {
        rowId := processes[process.pid].rowId;
      } else if processes == map[] {
        rowId := 1;
      } else {
        NewestExists(processes, processes.Keys);
        var newest :| IsNewest(processes, processes.Keys, newest);
        rowId := processes[newest].rowId + 1;
      }
      processes := processes[process.pid := ProcessRow(rowId, process.name, process.executablePath)];
    }

    method SaveConnection(connection: NetworkConnection, now: Time) returns (outcome: Outcome)
      modifies this
      ensures (Contents(), outcome) == Apply(old(Contents()), PutConnection(connection, now))
    {
      var processId: Option<int> := None;
      if connection.process.Some? {
        var process := connection.process.value;
        SaveProcess(process);
        processId := Some(processes[process.pid].rowId);
      }
      outcome := ConnectionConversion(connection, now);
      if outcome.Failed? {
        return;
      }
      var startedAt, endedAt := UnixMilliseconds(now).value, None;
      if connection.id in connections {
        startedAt, endedAt := connections[connection.id].startedAt, connections[connection.id].endedAt;
      }
      connections := connections[connection.id := ConnectionRow(
        processId, connection.protocol, connection.localIp.text, connection.localPort, connection.remoteIp.text,
        connection.remotePort, connection.hostname, startedAt, endedAt,
        connection.bytesSent, connection.bytesReceived)];
    }

    method SaveHttpRequest(request: HttpRequestInfo) returns (outcome: Outcome)
      modifies this
      ensures (Contents(), outcome) == Apply(old(Contents()), PutRequest(request))
    {
      outcome := RequestConversion(request);
      if outcome.Failed? {
        return;
      }
      var connectionId: Option<int> := None;
      if request.connectionId.Some? {
        if request.connectionId.value !in connections {
          return Failed(ForeignKeyViolation);
        }
        connectionId := Some(request.connectionId.value);
      }
      var startedAt := UnixMilliseconds(request.startedAt).value;
      if request.id in requests {
        startedAt := requests[request.id].startedAt;
      }
      var durationMs: Option<int> := if request.durationMs.Some? then Some(request.durationMs.value) else None;
      requests := requests[request.id := RequestRow(
        connectionId, request.method_, request.scheme, request.host, request.path, request.statusCode,
        startedAt, durationMs, request.ja4)];
    }
  }
}
