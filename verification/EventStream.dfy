/**
 The protocol between the tracker and its readers.  An event log is accepted when every event is legal
 after the ones before it; accepted logs obey the life-cycle grammar, and the tracker emits only such logs.
 */
module EventStream {
  import opened Core
  import opened Tracker

  /** What a reader knows after some events: the live connections, and every id ever opened. */
  datatype Registry = Registry(live: map<u64, NetworkConnection>, seen: set<u64>)

  const EMPTY := Registry(map[], {})

  function Deliver(r: Registry, e: NetworkEvent): Registry {
    match e
    case PacketCaptured(_) => r
    case ConnectionOpened(c) => Registry(r.live[c.id := c], r.seen + {c.id})
    case ConnectionUpdated(c) => r.(live := r.live[c.id := c])
    case ConnectionClosed(id) => r.(live := r.live - {id})
  }

  /** A later snapshot keeps the identity, never loses bytes, and never changes a process once known. */
  predicate Evolves(before: NetworkConnection, after: NetworkConnection) {
    && after == before.(process := after.process, bytesSent := after.bytesSent, bytesReceived := after.bytesReceived)
    && before.bytesSent <= after.bytesSent && before.bytesReceived <= after.bytesReceived
    && (before.process.Some? ==> after.process == before.process)
  }

  predicate Accepts(r: Registry, e: NetworkEvent) {
    match e
    case PacketCaptured(_) => true
    case ConnectionOpened(c) => c.id !in r.seen
    case ConnectionUpdated(c) => c.id in r.live && Evolves(r.live[c.id], c)
    case ConnectionClosed(id) => id in r.live
  }

  function ReplayFrom(r: Registry, events: seq<NetworkEvent>): Registry {
    if events == [] then r
    else Deliver(ReplayFrom(r, events[..|events| - 1]), events[|events| - 1])
  }

  predicate AcceptedFrom(r: Registry, events: seq<NetworkEvent>) {
    events == [] ||
    (var before := events[..|events| - 1];
     AcceptedFrom(r, before) && Accepts(ReplayFrom(r, before), events[|events| - 1]))
  }

  function Replay(events: seq<NetworkEvent>): Registry {
    ReplayFrom(EMPTY, events)
  }

  predicate Accepted(events: seq<NetworkEvent>) {
    AcceptedFrom(EMPTY, events)
  }

  lemma ReplaySnoc(r: Registry, events: seq<NetworkEvent>, e: NetworkEvent)
    ensures ReplayFrom(r, events + [e]) == Deliver(ReplayFrom(r, events), e)
    ensures AcceptedFrom(r, events + [e]) <==> AcceptedFrom(r, events) && Accepts(ReplayFrom(r, events), e)
  {
    assert (events + [e])[..|events|] == events;
  }

  lemma {:induction false} ReplayConcat(r: Registry, xs: seq<NetworkEvent>, ys: seq<NetworkEvent>)
    ensures ReplayFrom(r, xs + ys) == ReplayFrom(ReplayFrom(r, xs), ys)
    ensures AcceptedFrom(r, xs + ys) <==> AcceptedFrom(r, xs) && AcceptedFrom(ReplayFrom(r, xs), ys)
  {
    if ys == [] {
      assert xs + ys == xs;
    } else {
      var init, last := ys[..|ys| - 1], ys[|ys| - 1];
      assert xs + ys == (xs + init) + [last];
      ReplayConcat(r, xs, init);
      ReplaySnoc(r, xs + init, last);
    }
  }

  // ----- The life of one id -----

  /** The events that open, update or close `id`, in order. */
  function Life(events: seq<NetworkEvent>, id: u64): seq<NetworkEvent> {
    if events == [] then []
    else
      var e := events[|events| - 1];
      Life(events[..|events| - 1], id) + if IsSnapshotOf(e, id) || e == ConnectionClosed(id) then [e] else []
  }

  /** Opened first and only first, closed last or never, and each snapshot evolves from every earlier one. */
  predicate IsWellFormedLife(life: seq<NetworkEvent>) {
    && (forall i | 0 <= i < |life| :: life[i].ConnectionOpened? <==> i == 0)
    && (forall i | 0 <= i < |life| - 1 :: !life[i].ConnectionClosed?)
    && (forall i, j | 0 <= i < j < |life| && !life[j].ConnectionClosed? ::
          !life[i].PacketCaptured? && !life[i].ConnectionClosed? && !life[j].PacketCaptured?
          && Evolves(life[i].connection, life[j].connection))
  }

  /**
   In an accepted log the events of every id read Opened, Updated*, then at most one Closed; the id is live
   exactly while its life has begun and not ended, and then its replayed value is its latest snapshot.
   */
  lemma {:induction false} LifeCycleGrammar(events: seq<NetworkEvent>, id: u64)
    requires Accepted(events)
    ensures var life, r := Life(events, id), Replay(events);
            && IsWellFormedLife(life)
            && (id in r.seen <==> life != [])
            && (id in r.live <==> life != [] && !life[|life| - 1].ConnectionClosed?)
            && (id in r.live ==> !life[|life| - 1].PacketCaptured? && r.live[id] == life[|life| - 1].connection)
  {
    hide IsWellFormedLife, Evolves;
    if events == [] {
      NothingLived();
    } else {
      var before, e := events[..|events| - 1], events[|events| - 1];
      LifeCycleGrammar(before, id);
      if IsSnapshotOf(e, id) || e == ConnectionClosed(id) {
        LifeSnoc(Life(before, id), e);
      } else {
        assert Life(events, id) == Life(before, id);
      }
    }
  }

  lemma NothingLived()
    ensures IsWellFormedLife([])
  {
  }

  /** A life continues by opening if it has not begun, and by a snapshot or a close if it has not ended. */
  lemma LifeSnoc(life: seq<NetworkEvent>, e: NetworkEvent)
    requires IsWellFormedLife(life) && !e.PacketCaptured?
    requires e.ConnectionOpened? <==> life == []
    requires life != [] ==> !life[|life| - 1].ConnectionClosed? && !life[|life| - 1].PacketCaptured?
    requires life != [] && e.ConnectionUpdated? ==> Evolves(life[|life| - 1].connection, e.connection)
    ensures IsWellFormedLife(life + [e])
  {
    if e.ConnectionUpdated? {
      forall i | 0 <= i < |life| ensures !life[i].PacketCaptured? && !life[i].ConnectionClosed?
                                         && Evolves(life[i].connection, e.connection) {
        if i < |life| - 1 { assert Evolves(life[i].connection, life[|life| - 1].connection); }
      }
    }
  }

  // ----- The tracker emits accepted logs, and replaying them rebuilds its map -----

  /** the registry and the tracker hold the same connections, and only ids below `nextId` were ever used. */
  ghost predicate Mirrors(r: Registry, s: TrackerState) {
    && (forall k | k in s.connections ::
          var c := s.connections[k].connection;
          KeyFor(c) == k && c.id in r.live && r.live[c.id] == c)
    && (forall id | id in r.live :: var c := r.live[id];
          c.id == id && KeyFor(c) in s.connections && s.connections[KeyFor(c)].connection == c)
    && (forall id | id in r.live :: id in r.seen)
    && 1 <= s.nextId && (forall id: int :: id in r.seen <==> 1 <= id < s.nextId)
  }

  /**
   For every run whose ids did not reach the top of their range, the event log is accepted and replaying it
   yields exactly the tracker's connections by id.
   */
  lemma {:induction false} ReplayRebuildsTracker(turns: seq<Turn>)
    requires IsRun(turns) && StateAfter(turns).nextId < U64_MAX
    ensures Accepted(EventsOf(turns))
    ensures Mirrors(Replay(EventsOf(turns)), StateAfter(turns))
  {
    if turns != [] {
      var before, turn := turns[..|turns| - 1], turns[|turns| - 1];
      NextIdGrows(turns, |turns| - 1);
      ReplayRebuildsTracker(before);
      TurnKeepsMirror(Replay(EventsOf(before)), StateAfter(before), turn);
      ReplayConcat(EMPTY, EventsOf(before), TurnEvents(StateAfter(before), turn));
    }
  }

  lemma TurnKeepsMirror(r: Registry, s: TrackerState, turn: Turn)
    requires Mirrors(r, s) && CanTake(s, turn) && Step(s, turn.input).nextId < U64_MAX
    ensures AcceptedFrom(r, TurnEvents(s, turn))
    ensures Mirrors(ReplayFrom(r, TurnEvents(s, turn)), Step(s, turn.input))
  {
    var closed := ClosedEvents(s, turn.order);
    ClosingKeepsMirror(r, s, turn.order);
    var swept := AfterSweep(s, TimeOf(turn.input));
    assert (set k | k in turn.order) == Expired(s, TimeOf(turn.input));
    if turn.input.Packet? {
      var p := turn.input.packet;
      var captured := [PacketCaptured(p)];
      ReplaySnoc(r, [], PacketCaptured(p));
      assert [] + captured == captured;
      ReplayConcat(r, captured, closed);
      PacketKeepsMirror(ReplayFrom(r, captured + closed), swept, p);
      ReplayConcat(r, captured + closed, PacketEvents(swept, p));
    }
  }

  lemma {:induction false} ClosingKeepsMirror(r: Registry, s: TrackerState, order: seq<ConnectionKey>)
    requires Mirrors(r, s)
    requires forall k | k in order :: k in s.connections
    requires forall i, j | 0 <= i < j < |order| :: order[i] != order[j]
    ensures AcceptedFrom(r, ClosedEvents(s, order))
    ensures Mirrors(ReplayFrom(r, ClosedEvents(s, order)),
                    s.(connections := s.connections - set k | k in order))
  {
    hide Mirrors, ReplayFrom, AcceptedFrom, Accepts, Deliver;
    if order == [] {
      NothingReplayed(r);
      assert s.connections - (set k | k in order) == s.connections;
    } else {
      var init, k := order[..|order| - 1], order[|order| - 1];
      ClosingKeepsMirror(r, s, init);
      var e := ConnectionClosed(s.connections[k].connection.id);
      assert ClosedEvents(s, order) == ClosedEvents(s, init) + [e];
      ReplaySnoc(r, ClosedEvents(s, init), e);
      var rest := s.connections - set q | q in init;
      assert rest - {k} == s.connections - set q | q in order;
      CloseKeepsMirror(ReplayFrom(r, ClosedEvents(s, init)), s.(connections := rest), k);
    }
  }

  lemma NothingReplayed(r: Registry)
    ensures ReplayFrom(r, []) == r && AcceptedFrom(r, [])
  {
  }

  lemma CloseKeepsMirror(r: Registry, s: TrackerState, k: ConnectionKey)
    requires Mirrors(r, s) && k in s.connections
    ensures Accepts(r, ConnectionClosed(s.connections[k].connection.id))
    ensures Mirrors(Deliver(r, ConnectionClosed(s.connections[k].connection.id)),
                    s.(connections := s.connections - {k}))
  {
    var id := s.connections[k].connection.id;
    forall q | q in s.connections && q != k ensures s.connections[q].connection.id != id {
      assert KeyFor(s.connections[q].connection) == q;
    }
  }

  lemma AbsorbedSnapshot(s: TrackerState, k: ConnectionKey, p: CapturedPacket)
    requires FromPacket(p) == Some(k)
    ensures var after := Absorb(s, k, p);
            var c := after.connections[k].connection;
            && after.connections == s.connections[k := after.connections[k]]
            && (if k in s.connections
                then after.nextId == s.nextId && KeyFor(c) == KeyFor(s.connections[k].connection)
                     && Evolves(s.connections[k].connection, c)
                else KeyFor(c) == k && c.id == s.nextId && after.nextId == SaturatingAdd(s.nextId, 1))
  {
  }

  lemma StoreKeepsMirror(r: Registry, s: TrackerState, k: ConnectionKey, tracked: TrackedConnection)
    requires Mirrors(r, s) && s.nextId < U64_MAX && KeyFor(tracked.connection) == k
    requires tracked.connection.id == if k in s.connections then s.connections[k].connection.id else s.nextId
    ensures var id := tracked.connection.id;
            Mirrors(Registry(r.live[id := tracked.connection], r.seen + {id}),
                    TrackerState(s.connections[k := tracked], if k in s.connections then s.nextId else s.nextId + 1))
  {
    forall q | q in s.connections && q != k ensures s.connections[q].connection.id != tracked.connection.id {
      assert KeyFor(s.connections[q].connection) == q;
      if k in s.connections { assert KeyFor(s.connections[k].connection) == k; }
    }
  }

  lemma AbsorbKeepsMirror(r: Registry, s: TrackerState, k: ConnectionKey, p: CapturedPacket)
    requires Mirrors(r, s) && FromPacket(p) == Some(k) && Absorb(s, k, p).nextId < U64_MAX
    ensures var c := Absorb(s, k, p).connections[k].connection;
            var e := if k in s.connections then ConnectionUpdated(c) else ConnectionOpened(c);
            Accepts(r, e) && Mirrors(Deliver(r, e), Absorb(s, k, p))
  {
    hide Absorb, Opened, Refreshed;
    AbsorbedSnapshot(s, k, p);
    var after := Absorb(s, k, p);
    var c := after.connections[k].connection;
    StoreKeepsMirror(r, s, k, after.connections[k]);
    if k in s.connections { assert r.seen + {c.id} == r.seen; }
  }

  lemma PacketKeepsMirror(r: Registry, s: TrackerState, p: CapturedPacket)
    requires Mirrors(r, s) && AfterPacket(s, p).nextId < U64_MAX
    ensures AcceptedFrom(r, PacketEvents(s, p))
    ensures Mirrors(ReplayFrom(r, PacketEvents(s, p)), AfterPacket(s, p))
  {
    if FromPacket(p).Some? {
      var k := FromPacket(p).value;
      var absorbed := Absorb(s, k, p);
      var c := absorbed.connections[k].connection;
      var e := if k in s.connections then ConnectionUpdated(c) else ConnectionOpened(c);
      AbsorbKeepsMirror(r, s, k, p);
      ReplaySnoc(r, [], e);
      assert [] + [e] == [e];
      if IsClosing(p) {
        CloseKeepsMirror(Deliver(r, e), absorbed, k);
        ReplaySnoc(r, [e], ConnectionClosed(c.id));
      }
    }
  }
}
