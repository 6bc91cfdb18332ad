/** The replication protocol from the tracker's connections to the rows on screen, end to end. */
module Replication {
  import opened Core
  import opened Domain
  import opened Tracker
  import opened Sessions
  import opened EventStream
  import opened Storage
  import opened Runtime
  import opened PipelineLaws
  import opened Tracing
  import opened TableLaws
  import opened Replica
  import opened ScreenLaws
  import Correlator

  // ----- The message stream against the tracker's events -----

  /** Input `i` hands over a request that is shown under row id `id`. */
  predicate QueuesRow(inputs: seq<RuntimeInput>, i: int, id: u64) {
    0 <= i < |inputs| && inputs[i].Proxy? && TagHttpId(inputs[i].proxyEvent.request.id) == id
  }

  /** Row id `id` belongs to a request that some input hands over. */
  ghost predicate IsRequestRow(inputs: seq<RuntimeInput>, id: u64) {
    exists i :: QueuesRow(inputs, i, id)
  }

  /** Input `i` hands over the last request shown under row id `id`. */
  predicate IsLastRequest(inputs: seq<RuntimeInput>, i: int, id: u64) {
    QueuesRow(inputs, i, id) && forall j | i < j < |inputs| :: !QueuesRow(inputs, j, id)
  }

  /** The row of the request that input `i` hands over, annotated from what was observed until then. */
  ghost function RowOfRequest(inputs: seq<RuntimeInput>, i: nat): Row
    requires i < |inputs| && inputs[i].Proxy?
  {
    ToUiHttp(RequestAt(inputs, i), inputs[i].proxyEvent.clientAddress, inputs[i].proxyAddress)
  }

  /** The row is that of the last request handed over under its id. */
  ghost predicate ShowsLastRequest(row: Row, inputs: seq<RuntimeInput>, id: u64) {
    exists i :: IsLastRequest(inputs, i, id) && row == RowOfRequest(inputs, i)
  }

  /** Low ids are the live connections with their counts; tagged ids are the latest requests, annotated. */
  ghost predicate RowsAgree(rows: map<u64, Row>, live: map<u64, NetworkConnection>, counts: map<u64, u64>,
                            inputs: seq<RuntimeInput>)
  {
    && (forall id: u64 | id < HTTP_TAG ::
          && (id in rows <==> id in live)
          && (id in live ==> id in counts && rows[id] == ToUiConnection(live[id], counts[id])))
    && (forall id: u64 | id >= HTTP_TAG ::
          && (id in rows <==> IsRequestRow(inputs, id))
          && (id in rows ==> ShowsLastRequest(rows[id], inputs, id)))
  }

  /** The queue of the worker, replayed, is the tracker's live connections next to the requests handled. */
  lemma {:induction false} QueueMirrorsTracker(tables: Option<Tables>, inputs: seq<RuntimeInput>)
    requires Accepted(NetEvents(inputs)) && forall id | id in Replay(NetEvents(inputs)).seen :: id < HTTP_TAG
    ensures var s := RunOf(tables, inputs);
            RowsAgree(RowsOf(s.queue), Replay(NetEvents(inputs)).live, s.packetCounts, inputs)
  {
    hide AfterInput, RowsAgree, Deliver, Accepts, RowsOf;
    if inputs == [] {
      NothingQueued(tables);
    } else {
      var before, input := inputs[..|inputs| - 1], inputs[|inputs| - 1];
      assert inputs == before + [input];
      if input.Net? {
        ReplaySnoc(EMPTY, NetEvents(before), input.event);
        SeenGrows(Replay(NetEvents(before)), input.event);
        QueueMirrorsTracker(tables, before);
        NetKeepsRows(RunOf(tables, before), NetEvents(before), before, input);
      } else {
        assert NetEvents(inputs) == NetEvents(before);
        QueueMirrorsTracker(tables, before);
        CorrelatorFollowsInputs(tables, before);
        OtherKeepsRows(RunOf(tables, before), Replay(NetEvents(before)).live, before, input);
      }
    }
  }

  lemma SeenGrows(r: Registry, e: NetworkEvent)
    ensures r.seen <= Deliver(r, e).seen
  {
  }

  lemma NothingQueued(tables: Option<Tables>)
    ensures RowsAgree(RowsOf(RunOf(tables, []).queue), Replay([]).live, RunOf(tables, []).packetCounts, [])
  {
  }

  lemma RequestRowSnoc(before: seq<RuntimeInput>, input: RuntimeInput, id: u64)
    ensures var inputs := before + [input];
            && (IsRequestRow(inputs, id) <==> IsRequestRow(before, id) || QueuesRow(inputs, |before|, id))
            && (forall row | ShowsLastRequest(row, before, id) ::
                  QueuesRow(inputs, |before|, id) || ShowsLastRequest(row, inputs, id))
            && (QueuesRow(inputs, |before|, id) ==> ShowsLastRequest(RowOfRequest(inputs, |before|), inputs, id))
  {
    hide RowOfRequest;
    var inputs := before + [input];
    forall i | i != |before| ensures QueuesRow(inputs, i, id) == QueuesRow(before, i, id) {
      if 0 <= i < |before| { assert before[i] == inputs[i]; }
    }
    if i :| QueuesRow(before, i, id) { assert QueuesRow(inputs, i, id); }
    forall row | ShowsLastRequest(row, before, id) && !QueuesRow(inputs, |before|, id)
      ensures ShowsLastRequest(row, inputs, id)
    {
      var i :| IsLastRequest(before, i, id) && row == RowOfRequest(before, i);
      RowOfRequestSnoc(before, input, i);
      assert IsLastRequest(inputs, i, id);
    }
    if QueuesRow(inputs, |before|, id) { assert IsLastRequest(inputs, |before|, id); }
  }

  lemma RowOfRequestSnoc(before: seq<RuntimeInput>, input: RuntimeInput, i: nat)
    requires i < |before| && before[i].Proxy?
    ensures RowOfRequest(before + [input], i) == RowOfRequest(before, i)
  {
    hide ToUiHttp, AnnotatedRequest;
    assert (before + [input])[..i] == before[..i];
  }

  lemma NetKeepsRows(s: RuntimeState, events: seq<NetworkEvent>, before: seq<RuntimeInput>, input: RuntimeInput)
    requires input.Net? && Accepted(events + [input.event])
    requires RowsAgree(RowsOf(s.queue), Replay(events).live, s.packetCounts, before)
    requires forall id | id in Replay(events + [input.event]).seen :: id < HTTP_TAG
    ensures var after := AfterInput(s, input);
            RowsAgree(RowsOf(after.queue), Replay(events + [input.event]).live, after.packetCounts, before + [input])
  {
    hide RowsOf, RowsAgree, Correlator.Observe, Saved, ToUiConnection;
    var e, inputs := input.event, before + [input];
    var rows, live, counts := RowsOf(s.queue), Replay(events).live, s.packetCounts;
    ReplaySnoc(EMPTY, events, e);
    InputKeepsAgreement(rows, live, counts, before, input);
    if e.ConnectionClosed? {
      LifeCycleGrammar(events, e.id);
      RowsOfSnoc(s.queue, Closed(e.id));
      CloseKeepsAgreement(rows, live, counts, inputs, e.id);
    } else if !e.PacketCaptured? {
      var c, count := e.connection, NextCount(counts, e.connection.id);
      assert c.id in Replay(events + [e]).seen by { LifeCycleGrammar(events, c.id); }
      ConnectionRowId(c, count);
      RowsOfSnoc(s.queue, Connection(ToUiConnection(c, count)));
      SnapshotKeepsAgreement(rows, live, counts, inputs, c, count);
    }
  }

  lemma InputKeepsAgreement(rows: map<u64, Row>, live: map<u64, NetworkConnection>, counts: map<u64, u64>,
                            before: seq<RuntimeInput>, input: RuntimeInput)
    requires RowsAgree(rows, live, counts, before) && !input.Proxy?
    ensures RowsAgree(rows, live, counts, before + [input])
  {
    hide IsRequestRow, ShowsLastRequest, ToUiConnection;
    hide RowOfRequest;
    forall id: u64 { RequestRowSnoc(before, input, id); }
  }

  lemma CloseKeepsAgreement(rows: map<u64, Row>, live: map<u64, NetworkConnection>, counts: map<u64, u64>,
                            inputs: seq<RuntimeInput>, id: u64)
    requires RowsAgree(rows, live, counts, inputs) && id < HTTP_TAG
    ensures RowsAgree(rows - {id}, live - {id}, counts - {id}, inputs)
  {
    hide IsRequestRow, ShowsLastRequest, ToUiConnection;
  }

  lemma SnapshotKeepsAgreement(rows: map<u64, Row>, live: map<u64, NetworkConnection>, counts: map<u64, u64>,
                               inputs: seq<RuntimeInput>, c: NetworkConnection, count: u64)
    requires RowsAgree(rows, live, counts, inputs) && c.id < HTTP_TAG
    ensures RowsAgree(rows[c.id := ToUiConnection(c, count)], live[c.id := c], counts[c.id := count], inputs)
  {
    hide IsRequestRow, ShowsLastRequest, ToUiConnection;
  }

  lemma ConnectionRowId(c: NetworkConnection, count: u64)
    ensures ToUiConnection(c, count).id == c.id && Plain(ToUiConnection(c, count)) == ToUiConnection(c, count)
  {
  }

  lemma OtherKeepsRows(s: RuntimeState, live: map<u64, NetworkConnection>, before: seq<RuntimeInput>,
                       input: RuntimeInput)
    requires !input.Net? && RowsAgree(RowsOf(s.queue), live, s.packetCounts, before)
    requires s.observed == Correlator.ObserveAll(ObservationsOf(before))
    ensures var after := AfterInput(s, input);
            RowsAgree(RowsOf(after.queue), live, after.packetCounts, before + [input])
  {
    hide RowsOf, Saved, RowsAgree, ToUiHttp, AnnotatedRequest, ObservationsOf, Correlator.ObserveAll;
    var inputs := before + [input];
    match input {
      case Proxy(e, proxyAddress, resolved, now) =>
        var row := RowOfRequest(inputs, |before|);
        assert inputs[..|before|] == before;
        RequestRowId(inputs, |before|);
        RowsOfSnoc(s.queue, Connection(row));
        RequestKeepsAgreement(RowsOf(s.queue), live, s.packetCounts, before, input);
      case Notify(notice) =>
        RowsOfSnoc(s.queue, notice);
        InputKeepsAgreement(RowsOf(s.queue), live, s.packetCounts, before, input);
      case Net(_, _, _) =>
    }
  }

  lemma RequestRowId(inputs: seq<RuntimeInput>, i: nat)
    requires i < |inputs| && inputs[i].Proxy?
    ensures var row := RowOfRequest(inputs, i);
            row.id == TagHttpId(inputs[i].proxyEvent.request.id) && Plain(row) == row
  {
    hide AnnotatedRequest, ObservationsOf, Correlator.ObserveAll;
    var input := inputs[i];
    RequestKeepsId(Correlator.ObserveAll(ObservationsOf(inputs[..i])), input.proxyEvent, input.proxyAddress,
                   input.resolved, input.now);
  }

  lemma RequestKeepsAgreement(rows: map<u64, Row>, live: map<u64, NetworkConnection>, counts: map<u64, u64>,
                              before: seq<RuntimeInput>, input: RuntimeInput)
    requires RowsAgree(rows, live, counts, before) && input.Proxy?
    ensures var inputs := before + [input];
            var row := RowOfRequest(inputs, |before|);
            RowsAgree(rows[row.id := row], live, counts, inputs)
  {
    hide IsRequestRow, ShowsLastRequest, RowOfRequest, ToUiConnection;
    RequestRowId(before + [input], |before|);
    forall id: u64 { RequestRowSnoc(before, input, id); }
  }

  /** Distinct request ids below 2^63 have distinct rows, and none of them is a connection id. */
  lemma TagSeparatesIds(a: u64, b: u64)
    requires a < HTTP_TAG && b < HTTP_TAG
    ensures TagHttpId(a) == TagHttpId(b) <==> a == b
    ensures TagHttpId(a) != b && TagHttpId(a) >= HTTP_TAG
  {
  }

  lemma {:induction false} QueueIsUnflagged(tables: Option<Tables>, inputs: seq<RuntimeInput>)
    ensures forall row | Connection(row) in RunOf(tables, inputs).queue :: !row.ja4Outlier
  {
    hide Correlator.Observe, Saved, AnnotatedRequest;
    if inputs != [] { QueueIsUnflagged(tables, inputs[..|inputs| - 1]); }
  }

  /** A row without a fingerprint that came from the worker is shown as it was sent. */
  lemma UnfingerprintedIsUnflagged(tables: Option<Tables>, inputs: seq<RuntimeInput>, s: Screen, actions: seq<UiAction>)
    requires s.events == [] && s.baselines == map[] && Delivered(actions) == RunOf(tables, inputs).queue
    ensures forall row | row in ScreenAfter(s, actions).events && row.ja4.None? :: row == Plain(row)
  {
    hide RunOf, ScreenAfter;
    FlagsFollowRecordedRows(s, actions);
    RecordedWasDelivered(s, actions);
    QueueIsUnflagged(tables, inputs);
    var history := Recorded(s, actions);
    forall row | row in ScreenAfter(s, actions).events && row.ja4.None? ensures row == Plain(row) {
      var n :| IsClassifiedAt(row, history, n);
      assert history[n] in history;
    }
  }

  // ----- End to end -----

  /** The row the screen owes to a tracked connection. */
  ghost function RowOfConnection(turns: seq<Turn>, k: ConnectionKey): Row
    requires k in StateAfter(turns).connections
  {
    ToUiConnection(StateAfter(turns).connections[k].connection, Saturate(|Session(turns, k)|))
  }

  /** The row shows what the packets of a session of `k` add up to. */
  predicate ShowsSession(row: Row, k: ConnectionKey, packets: seq<CapturedPacket>) {
    && row.packetCount == Saturate(|packets|)
    && row.bytesSent == Saturate(BytesIn(packets, Outbound))
    && row.bytesReceived == Saturate(BytesIn(packets, Inbound))
    && IsKindFor(row, k.protocol) && NamesProcess(row, FirstProcess(packets))
    && row.host == k.remoteIp.text
    && ReadsAs(row.local, k.localIp, k.localPort) && ReadsAs(row.remote, k.remoteIp, k.remotePort)
    && HasNoRequest(row)
  }

  /** A tracked connection's row is read off its packets. */
  lemma RowShowsSession(turns: seq<Turn>, k: ConnectionKey)
    requires k in StateAfter(turns).connections
    ensures ShowsSession(RowOfConnection(turns, k), k, Session(turns, k))
  {
    hide StateAfter, Session, ToUiConnection, IsOpen, IsKindFor, NamesProcess, ReadsAs, HasNoRequest;
    TrackerRefinesLog(turns, k);
    ConnectionRowSays(StateAfter(turns).connections[k].connection, Saturate(|Session(turns, k)|));
  }

  /**
   With recording on, no Clear and ids below 2^63, once the queue is drained the untagged rows on screen are
   one for one the rows of the tracker's live connections, counts included; there is one tagged row for each
   request handled, and up to its flag it is that of the last request under its id, as annotated then.
   */
  lemma EndToEnd(tables: Option<Tables>, turns: seq<Turn>, inputs: seq<RuntimeInput>, s: Screen, actions: seq<UiAction>)
    requires IsRun(turns) && StateAfter(turns).nextId <= HTTP_TAG && NetEvents(inputs) == EventsOf(turns)
    requires s.events == [] && s.baselines == map[] && s.recording
    requires forall i | 0 <= i < |actions| :: IsPassive(actions[i])
    requires Delivered(actions) == RunOf(tables, inputs).queue
    ensures UniqueRows(ScreenAfter(s, actions).events)
    ensures forall k | k in StateAfter(turns).connections :: RowOfConnection(turns, k) in ScreenAfter(s, actions).events
    ensures forall row | row in ScreenAfter(s, actions).events && row.id < HTTP_TAG ::
              exists k :: k in StateAfter(turns).connections && row == RowOfConnection(turns, k)
    ensures forall k, q | k in StateAfter(turns).connections && q in StateAfter(turns).connections && k != q ::
              RowOfConnection(turns, k).id != RowOfConnection(turns, q).id
    ensures forall k | k in StateAfter(turns).connections ::
              ShowsSession(RowOfConnection(turns, k), k, Session(turns, k))
    ensures forall id: u64 | id >= HTTP_TAG ::
              (exists row :: row in ScreenAfter(s, actions).events && row.id == id) <==> IsRequestRow(inputs, id)
    ensures forall row | row in ScreenAfter(s, actions).events && row.id >= HTTP_TAG ::
              ShowsLastRequest(Plain(row), inputs, row.id)
  {
    hide RunOf, ScreenAfter, EventsOf, NetEvents, RowsOf, StateAfter, RowOfConnection, IsRequestRow, UniqueRows;
    hide ShowsLastRequest, ShowsSession, Session;
    forall k | k in StateAfter(turns).connections { RowShowsSession(turns, k); }
    var events, rows := ScreenAfter(s, actions).events, RowsOf(Delivered(actions));
    QueueOwesConnections(tables, turns, inputs);
    KeysHaveDistinctRows(turns);
    NoGhostRows(s, actions);
    RecordingShowsAll(s, actions);
    UnfingerprintedIsUnflagged(tables, inputs, s, actions);
    forall k | k in StateAfter(turns).connections ensures RowOfConnection(turns, k) in events {
      var row :| row in events && row.id == RowOfConnection(turns, k).id;
      assert Plain(row) == rows[row.id];
    }
    forall row | row in events && row.id < HTTP_TAG
      ensures exists k :: k in StateAfter(turns).connections && row == RowOfConnection(turns, k)
    {
      assert Plain(row) == rows[row.id];
      var k :| k in StateAfter(turns).connections && rows[row.id] == RowOfConnection(turns, k);
      assert row.ja4 == Plain(row).ja4;
    }
  }

  /**
   The screen as a function of the packets: under the same premises every session that is open in the packet
   log has a row that shows it, and every untagged row shows an open session.
   */
  lemma ScreenShowsOpenSessions(
    tables: Option<Tables>, turns: seq<Turn>, inputs: seq<RuntimeInput>, s: Screen, actions: seq<UiAction>)
    requires IsRun(turns) && StateAfter(turns).nextId <= HTTP_TAG && NetEvents(inputs) == EventsOf(turns)
    requires s.events == [] && s.baselines == map[] && s.recording
    requires forall i | 0 <= i < |actions| :: IsPassive(actions[i])
    requires Delivered(actions) == RunOf(tables, inputs).queue
    ensures forall k | IsOpen(turns, k) ::
              exists row :: row in ScreenAfter(s, actions).events && ShowsSession(row, k, Session(turns, k))
    ensures forall row | row in ScreenAfter(s, actions).events && row.id < HTTP_TAG ::
              exists k :: IsOpen(turns, k) && ShowsSession(row, k, Session(turns, k))
  {
    hide RunOf, ScreenAfter, EventsOf, NetEvents, StateAfter, RowOfConnection, IsOpen, Session, ShowsSession;
    EndToEnd(tables, turns, inputs, s, actions);
    forall k { TrackerRefinesLog(turns, k); }
  }

  /** Two tracked keys never share a row: their connections have different ids. */
  lemma KeysHaveDistinctRows(turns: seq<Turn>)
    requires IsRun(turns) && StateAfter(turns).nextId <= HTTP_TAG
    ensures forall k, q | k in StateAfter(turns).connections && q in StateAfter(turns).connections && k != q ::
              RowOfConnection(turns, k).id != RowOfConnection(turns, q).id
  {
    hide EventsOf, StateAfter, Session, ToUiConnection;
    ReplayRebuildsTracker(turns);
    forall k | k in StateAfter(turns).connections {
      ConnectionRowHasNoJa4(StateAfter(turns).connections[k].connection, Saturate(|Session(turns, k)|));
    }
  }

  /** Replayed, the queue holds each live connection's row under its id, no other untagged row, and the requests. */
  lemma QueueOwesConnections(tables: Option<Tables>, turns: seq<Turn>, inputs: seq<RuntimeInput>)
    requires IsRun(turns) && StateAfter(turns).nextId <= HTTP_TAG && NetEvents(inputs) == EventsOf(turns)
    ensures var rows, connections := RowsOf(RunOf(tables, inputs).queue), StateAfter(turns).connections;
            && (forall k | k in connections ::
                  var row := RowOfConnection(turns, k);
                  row.id < HTTP_TAG && row.id in rows && rows[row.id] == row && row.ja4.None?)
            && (forall id: u64 | id < HTTP_TAG && id in rows ::
                  exists k :: k in connections && rows[id] == RowOfConnection(turns, k))
            && (forall id: u64 | id >= HTTP_TAG ::
                  && (id in rows <==> IsRequestRow(inputs, id))
                  && (id in rows ==> ShowsLastRequest(rows[id], inputs, id)))
  {
    hide RunOf, EventsOf, NetEvents, RowsOf, StateAfter, Session, IsRequestRow, ToUiConnection, ShowsLastRequest;
    var rows, live := RowsOf(RunOf(tables, inputs).queue), Replay(EventsOf(turns)).live;
    ReplayRebuildsTracker(turns);
    QueueMirrorsTracker(tables, inputs);
    PacketCountsMatchSessions(tables, turns, inputs);
    forall k | k in StateAfter(turns).connections
      ensures var row := RowOfConnection(turns, k);
              row.id < HTTP_TAG && row.id in rows && rows[row.id] == row && row.ja4.None?
    {
      var c := StateAfter(turns).connections[k].connection;
      ConnectionRowHasNoJa4(c, Saturate(|Session(turns, k)|));
      assert c.id in live;
    }
    forall id: u64 | id < HTTP_TAG && id in rows
      ensures exists k :: k in StateAfter(turns).connections && rows[id] == RowOfConnection(turns, k)
    {
      var k := KeyFor(live[id]);
      assert k in StateAfter(turns).connections && rows[id] == RowOfConnection(turns, k);
    }
  }

  lemma ConnectionRowHasNoJa4(c: NetworkConnection, count: u64)
    ensures ToUiConnection(c, count).ja4.None? && ToUiConnection(c, count).id == c.id
  {
  }

  // ----- The tables, end to end -----

  /** The counters of the connection are small enough for the database. */
  predicate CountersFit(c: NetworkConnection) {
    c.bytesSent <= I64_MAX && c.bytesReceived <= I64_MAX
  }

  /** The counters of every row are ones that the database can hold. */
  predicate RowsFit(t: Tables) {
    forall id | id in t.connections ::
      t.connections[id].bytesSent <= I64_MAX && t.connections[id].bytesReceived <= I64_MAX
  }

  /** The connection has a row, which shows it. */
  predicate HasCurrentRow(t: Tables, c: NetworkConnection) {
    c.id in t.connections && ShowsConnection(t, t.connections[c.id], c)
  }

  /**
   With ids below 2^63 and a clock in the representable time after the epoch, the table row of a tracked
   connection shows exactly what the tracker holds, up to the last packet, as long as its counters fit; and
   once they do not, the row is no longer current.
   */
  lemma TablesShowLiveConnections(found: Tables, turns: seq<Turn>, inputs: seq<RuntimeInput>, k: ConnectionKey)
    requires Storage.Consistent(found) && RowsFit(found)
    requires IsRun(turns) && StateAfter(turns).nextId <= HTTP_TAG && NetEvents(inputs) == EventsOf(turns)
    requires forall n | 0 <= n < |inputs| && inputs[n].Net? ::
               0 <= inputs[n].savedAt && inputs[n].savedAt / 1_000_000 <= I64_MAX
    requires k in StateAfter(turns).connections
    ensures var c := StateAfter(turns).connections[k].connection;
            HasCurrentRow(TablesAt(found, inputs, |inputs|), c) <==> CountersFit(c)
  {
    hide Accepted, NetEvents, EventsOf, StateAfter, Replay, TablesAt, Storage.Consistent, ShowsConnection, RowsFit;
    ReplayRebuildsTracker(turns);
    var t, c := TablesAt(found, inputs, |inputs|), StateAfter(turns).connections[k].connection;
    var last := LiveWasLastReported(inputs, c.id);
    if CountersFit(c) {
      assert ReportsAt(inputs, last, c.id) && StoredAt(inputs, last, c.id);
      ConnectionRowIsLastReport(found, inputs, last, c.id);
    } else if c.id in t.connections {
      StoredRowFits(found, inputs, c.id);
      ShownCountersFit(t, c);
    }
  }

  lemma StoredRowFits(found: Tables, inputs: seq<RuntimeInput>, id: u64)
    requires Storage.Consistent(found) && RowsFit(found) && id in TablesAt(found, inputs, |inputs|).connections
    ensures var row := TablesAt(found, inputs, |inputs|).connections[id];
            row.bytesSent <= I64_MAX && row.bytesReceived <= I64_MAX
  {
    hide TablesAt, Storage.Consistent;
    if i :| StoredAt(inputs, i, id) {
      var last := LastStoredExists(inputs, i, id);
      ConnectionRowIsLastReport(found, inputs, last, id);
    } else {
      UnreportedRowStays(found, inputs, id);
    }
  }

  lemma ShownCountersFit(t: Tables, c: NetworkConnection)
    requires c.id in t.connections
    requires t.connections[c.id].bytesSent <= I64_MAX && t.connections[c.id].bytesReceived <= I64_MAX
    ensures HasCurrentRow(t, c) ==> CountersFit(c)
  {
  }

  /**
   At any moment, whatever the user did, every untagged row on screen belongs to a connection that is live
   after the part of the tracker's events whose messages have been received.
   */
  lemma ScreenShowsOnlyLiveConnections(
    tables: Option<Tables>, turns: seq<Turn>, inputs: seq<RuntimeInput>, s: Screen, actions: seq<UiAction>)
    requires IsRun(turns) && StateAfter(turns).nextId <= HTTP_TAG && NetEvents(inputs) == EventsOf(turns)
    requires s.events == [] && Delivered(actions) <= RunOf(tables, inputs).queue
    ensures exists j | 0 <= j <= |inputs| ::
              && RunOf(tables, inputs[..j]).queue == Delivered(actions)
              && NetEvents(inputs[..j]) <= EventsOf(turns)
              && forall row | row in ScreenAfter(s, actions).events && row.id < HTTP_TAG ::
                   row.id in Replay(NetEvents(inputs[..j])).live
  {
    hide RunOf, ScreenAfter, EventsOf, NetEvents, RowsOf, StateAfter, IsRequestRow, ToUiConnection, Replay, Accepted;
    ReplayRebuildsTracker(turns);
    var j := QueuePrefix(tables, inputs, Delivered(actions));
    NetEventsOfPrefix(inputs, j);
    var rest :| NetEvents(inputs) == NetEvents(inputs[..j]) + rest;
    PrefixAccepted(NetEvents(inputs[..j]), rest);
    QueueMirrorsTracker(tables, inputs[..j]);
    NoGhostRows(s, actions);
  }

  lemma PrefixAccepted(events: seq<NetworkEvent>, rest: seq<NetworkEvent>)
    requires Accepted(events + rest)
    ensures Accepted(events) && Replay(events).seen <= Replay(events + rest).seen
  {
    ReplayConcat(EMPTY, events, rest);
    ReplayGrows(Replay(events), rest);
  }

  lemma {:induction false} ReplayGrows(r: Registry, events: seq<NetworkEvent>)
    ensures r.seen <= ReplayFrom(r, events).seen
  {
    if events != [] { ReplayGrows(r, events[..|events| - 1]); }
  }

  /** Every prefix of the queue was the whole queue at some point of the run. */
  lemma {:induction false} QueuePrefix(tables: Option<Tables>, inputs: seq<RuntimeInput>, messages: seq<RuntimeEvent>)
    returns (j: nat)
    requires messages <= RunOf(tables, inputs).queue
    ensures j <= |inputs| && RunOf(tables, inputs[..j]).queue == messages
  {
    if messages == RunOf(tables, inputs).queue {
      j := |inputs|;
      assert inputs[..j] == inputs;
    } else {
      var before := inputs[..|inputs| - 1];
      InputQueuesAtMostOne(RunOf(tables, before), inputs[|inputs| - 1]);
      j := QueuePrefix(tables, before, messages);
      assert before[..j] == inputs[..j];
    }
  }

  lemma InputQueuesAtMostOne(s: RuntimeState, input: RuntimeInput)
    ensures s.queue <= AfterInput(s, input).queue && |AfterInput(s, input).queue| <= |s.queue| + 1
  {
  }
}
