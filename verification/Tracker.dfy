/** The connection tracker: a hash map from direction-normalised 5-tuples to live counters. */
module Tracker {
  import opened Core

  const CONNECTION_INACTIVITY_TIMEOUT: nat := 30 * SECOND

  datatype ConnectionKey = ConnectionKey(
    protocol: NetworkProtocol, localIp: IpAddr, localPort: u16, remoteIp: IpAddr, remotePort: u16)

  datatype TrackedConnection = TrackedConnection(connection: NetworkConnection, startedAt: Time, lastSeen: Time)

  datatype TrackerState = TrackerState(connections: map<ConnectionKey, TrackedConnection>, nextId: u64)

  /** What the tracker is asked to do: absorb a packet, or only close idle connections. */
  datatype TrackerInput = Packet(packet: CapturedPacket) | Sweep(now: Time)

  /** An input together with the order in which the hash map happened to yield the expired keys. */
  datatype Turn = Turn(input: TrackerInput, order: seq<ConnectionKey>)

  function FromPacket(p: CapturedPacket): Option<ConnectionKey> {
    if p.sourcePort.None? || p.destinationPort.None? then None
    else match p.direction
      case Outbound =>
        Some(ConnectionKey(p.protocol, p.sourceIp, p.sourcePort.value, p.destinationIp, p.destinationPort.value))
      case Inbound =>
        Some(ConnectionKey(p.protocol, p.destinationIp, p.destinationPort.value, p.sourceIp, p.sourcePort.value))
  }

  /** The key under which a connection snapshot is stored. */
  function KeyFor(c: NetworkConnection): ConnectionKey {
    ConnectionKey(c.protocol, c.localIp, c.localPort, c.remoteIp, c.remotePort)
  }

  function TimeOf(input: TrackerInput): Time {
    match input
    case Packet(p) => p.timestamp
    case Sweep(now) => now
  }

  function KeyOf(input: TrackerInput): Option<ConnectionKey> {
    match input
    case Packet(p) => FromPacket(p)
    case Sweep(_) => None
  }

  predicate IsClosing(p: CapturedPacket) {
    p.protocol == TCP && (p.tcpFin || p.tcpRst)
  }

  /** A packet the other way: source and destination change places, and so does the direction. */
  function Reply(p: CapturedPacket): CapturedPacket {
    p.(direction := if p.direction.Outbound? then Inbound else Outbound,
       sourceIp := p.destinationIp, sourcePort := p.destinationPort,
       destinationIp := p.sourceIp, destinationPort := p.sourcePort)
  }

  /**
   A packet and its reply belong to one connection, whose local end is the source of the outbound one and
   whose remote end is its destination; only a packet without one of its ports belongs to none.
   */
  lemma ReplyHasSameKey(p: CapturedPacket)
    ensures FromPacket(Reply(p)) == FromPacket(p)
    ensures FromPacket(p).None? <==> p.sourcePort.None? || p.destinationPort.None?
    ensures FromPacket(p).Some? ==>
              var k, outbound := FromPacket(p).value, if p.direction.Outbound? then p else Reply(p);
              && k.protocol == p.protocol
              && k.localIp == outbound.sourceIp && Some(k.localPort) == outbound.sourcePort
              && k.remoteIp == outbound.destinationIp && Some(k.remotePort) == outbound.destinationPort
  {
  }

  // ----- One step of the tracker, as functions on its state -----

  /** A clock that went backwards counts as no time at all. */
  predicate IsIdle(tracked: TrackedConnection, now: Time) {
    (if tracked.lastSeen <= now then now - tracked.lastSeen else 0) >= CONNECTION_INACTIVITY_TIMEOUT
  }

  function Expired(s: TrackerState, now: Time): set<ConnectionKey> {
    set k | k in s.connections && IsIdle(s.connections[k], now)
  }

  function AfterSweep(s: TrackerState, now: Time): TrackerState {
    s.(connections := s.connections - Expired(s, now))
  }

  function Opened(id: u64, k: ConnectionKey, p: CapturedPacket): TrackedConnection {
    TrackedConnection(
      NetworkConnection(
        id, p.process, p.protocol, p.ipVersion, p.direction, k.localIp, k.localPort, k.remoteIp, k.remotePort, None,
        if p.direction.Outbound? then p.packetSize else 0,
        if p.direction.Outbound? then 0 else p.packetSize),
      p.timestamp, p.timestamp)
  }

  function Refreshed(tracked: TrackedConnection, p: CapturedPacket): TrackedConnection {
    var c := tracked.connection;
    tracked.(
      lastSeen := p.timestamp,
      connection := c.(
        process := if c.process.None? then p.process else c.process,
        bytesSent := if p.direction.Outbound? then SaturatingAdd(c.bytesSent, p.packetSize) else c.bytesSent,
        bytesReceived :=
          if p.direction.Outbound? then c.bytesReceived else SaturatingAdd(c.bytesReceived, p.packetSize)))
  }

  function Absorb(s: TrackerState, k: ConnectionKey, p: CapturedPacket): (r: TrackerState)
    ensures k in r.connections
  {
    if k in s.connections then s.(connections := s.connections[k := Refreshed(s.connections[k], p)])
    else TrackerState(s.connections[k := Opened(s.nextId, k, p)], SaturatingAdd(s.nextId, 1))
  }

  function AfterPacket(s: TrackerState, p: CapturedPacket): TrackerState {
    match FromPacket(p)
    case None => s
    case Some(k) =>
      var absorbed := Absorb(s, k, p);
      if IsClosing(p) then absorbed.(connections := absorbed.connections - {k}) else absorbed
  }

  function Step(s: TrackerState, input: TrackerInput): TrackerState {
    var swept := AfterSweep(s, TimeOf(input));
    if input.Packet? then AfterPacket(swept, input.packet) else swept
  }

  /** A packet leaves its connection tracked unless it is a TCP packet with the FIN or the RST flag. */
  lemma FinOrResetCloses(s: TrackerState, p: CapturedPacket, k: ConnectionKey)
    requires FromPacket(p) == Some(k)
    ensures k in Step(s, Packet(p)).connections <==> !(p.protocol == TCP && (p.tcpFin || p.tcpRst))
  {
  }

  /** A turn at time `now` drops exactly the connections last seen 30 seconds ago or earlier. */
  lemma ThirtySecondsExpire(s: TrackerState, now: Time, k: ConnectionKey)
    requires k in s.connections
    ensures k in Step(s, Sweep(now)).connections <==> now - s.connections[k].lastSeen < 30_000_000_000
  {
  }

  // ----- The events of one step -----

  /** The snapshot that absorbing `p` reports, and the close event when `p` ends the connection. */
  function PacketEvents(s: TrackerState, p: CapturedPacket): seq<NetworkEvent> {
    match FromPacket(p)
    case None => []
    case Some(k) =>
      var c := Absorb(s, k, p).connections[k].connection;
      [if k in s.connections then ConnectionUpdated(c) else ConnectionOpened(c)]
      + (if IsClosing(p) then [ConnectionClosed(c.id)] else [])
  }

  function ClosedEvents(s: TrackerState, order: seq<ConnectionKey>): seq<NetworkEvent>
    requires forall k | k in order :: k in s.connections
  {
    seq(|order|, i requires 0 <= i < |order| => ConnectionClosed(s.connections[order[i]].connection.id))
  }

  /** `order` lists every key of `keys` exactly once. */
  ghost predicate Enumerates(order: seq<ConnectionKey>, keys: set<ConnectionKey>) {
    && (forall k :: k in order <==> k in keys)
    && (forall i, j | 0 <= i < j < |order| :: order[i] != order[j])
  }

  ghost predicate CanTake(s: TrackerState, turn: Turn) {
    Enumerates(turn.order, Expired(s, TimeOf(turn.input)))
  }

  ghost function TurnEvents(s: TrackerState, turn: Turn): seq<NetworkEvent>
    requires CanTake(s, turn)
  {
    var closed := ClosedEvents(s, turn.order);
    match turn.input
    case Sweep(_) => closed
    case Packet(p) => [PacketCaptured(p)] + closed + PacketEvents(AfterSweep(s, p.timestamp), p)
  }

  /**
   A packet's turn reports the packet itself first, and its connection last: after the snapshot comes nothing
   but the close of that same connection, exactly when the packet has the FIN or the RST flag.
   */
  lemma TurnReportsInOrder(s: TrackerState, turn: Turn, i: nat)
    requires CanTake(s, turn) && turn.input.Packet? && i < |TurnEvents(s, turn)|
    ensures TurnEvents(s, turn)[0] == PacketCaptured(turn.input.packet)
    ensures TurnEvents(s, turn)[i].PacketCaptured? ==> i == 0
    ensures var events, p := TurnEvents(s, turn), turn.input.packet;
            events[i].ConnectionOpened? || events[i].ConnectionUpdated? ==>
              events[i + 1..] == if p.protocol == TCP && (p.tcpFin || p.tcpRst)
                                 then [ConnectionClosed(events[i].connection.id)] else []
  {
    var events, p := TurnEvents(s, turn), turn.input.packet;
    var head := [PacketCaptured(p)] + ClosedEvents(s, turn.order);
    assert events == head + PacketEvents(AfterSweep(s, p.timestamp), p);
    assert 0 < i < |head| ==> events[i].ConnectionClosed?;
    assert i >= |head| ==> events[i] == PacketEvents(AfterSweep(s, p.timestamp), p)[i - |head|];
  }

  // ----- Whole runs -----

  const INITIAL := TrackerState(map[], 1)

  ghost function StateAfter(turns: seq<Turn>): TrackerState {
    if turns == [] then INITIAL
    else Step(StateAfter(turns[..|turns| - 1]), turns[|turns| - 1].input)
  }

  /** Every turn lists exactly the keys that expire at it, in whatever order. */
  ghost predicate IsRun(turns: seq<Turn>) {
    turns == [] ||
    (var before := turns[..|turns| - 1]; IsRun(before) && CanTake(StateAfter(before), turns[|turns| - 1]))
  }

  ghost function EventsOf(turns: seq<Turn>): seq<NetworkEvent>
    requires IsRun(turns)
  {
    if turns == [] then []
    else
      var before := turns[..|turns| - 1];
      EventsOf(before) + TurnEvents(StateAfter(before), turns[|turns| - 1])
  }

  lemma RunSnoc(turns: seq<Turn>, turn: Turn)
    requires IsRun(turns) && CanTake(StateAfter(turns), turn)
    ensures IsRun(turns + [turn])
    ensures StateAfter(turns + [turn]) == Step(StateAfter(turns), turn.input)
    ensures EventsOf(turns + [turn]) == EventsOf(turns) + TurnEvents(StateAfter(turns), turn)
  {
    assert (turns + [turn])[..|turns|] == turns;
  }

  /** Ids are handed out in increasing order. */
  lemma {:induction false} NextIdGrows(turns: seq<Turn>, i: nat)
    requires i <= |turns|
    ensures 1 <= StateAfter(turns[..i]).nextId <= StateAfter(turns).nextId
  {
    if turns == [] {
    } else if i < |turns| {
      assert turns[..|turns| - 1][..i] == turns[..i];
      NextIdGrows(turns[..|turns| - 1], i);
    } else {
      assert turns[..i] == turns;
      NextIdGrows(turns[..|turns| - 1], 0);
    }
  }

  class ConnectionTracker {
    var connections: map<ConnectionKey, TrackedConnection>
    var nextId: u64

    /** Every turn taken so far. */
    ghost var turns: seq<Turn>

    function State(): TrackerState
      reads this
    {
      TrackerState(connections, nextId)
    }

    ghost predicate Valid()
      reads this
    {
      IsRun(turns) && State() == StateAfter(turns)
    }

    constructor ()
      ensures Valid() && turns == []
    {
      connections, nextId, turns := map[], 1, [];
    }

    /** The last turn answered `input` and reported `events`; earlier turns are kept. */
    twostate predicate Took(input: TrackerInput, events: seq<NetworkEvent>)
      requires old(Valid()) && Valid()
      reads this
    {
      && |turns| == |old(turns)| + 1
      && turns[..|old(turns)|] == old(turns)
      && turns[|old(turns)|].input == input
      && EventsOf(turns) == old(EventsOf(turns)) + events
    }

    method ProcessPacket(packet: CapturedPacket) returns (events: seq<NetworkEvent>)
      requires Valid()
      modifies this
      ensures Valid() && Took(Packet(packet), events)
    {
      ghost var before := State();
      events := [PacketCaptured(packet)];
      var closed, order := RemoveExpired(packet.timestamp);
      events := events + closed;

      var key := FromPacket(packet);
      if key.Some? {
        var absorbed := AbsorbPacket(key.value, packet);
        events := events + absorbed;
      }
      ghost var turn := Turn(Packet(packet), order);
      RunSnoc(turns, turn);
      turns := turns + [turn];
      assert events == TurnEvents(before, turn);
    }

    /** The part of packet processing that follows once the packet has a key. */
    method AbsorbPacket(key: ConnectionKey, packet: CapturedPacket) returns (events: seq<NetworkEvent>)
      requires FromPacket(packet) == Some(key)
      modifies this`connections, this`nextId
      ensures State() == AfterPacket(old(State()), packet)
      ensures events == PacketEvents(old(State()), packet)
    {
      var isOutbound := packet.direction.Outbound?;
      var isClosed := packet.protocol == TCP && (packet.tcpFin || packet.tcpRst);

      if key in connections {
        var tracked := connections[key].(lastSeen := packet.timestamp);
        if tracked.connection.process.None? {
          tracked := tracked.(connection := tracked.connection.(process := packet.process));
        }
        if isOutbound {
          var sent := SaturatingAdd(tracked.connection.bytesSent, packet.packetSize);
          tracked := tracked.(connection := tracked.connection.(bytesSent := sent));
        } else {
          var received := SaturatingAdd(tracked.connection.bytesReceived, packet.packetSize);
          tracked := tracked.(connection := tracked.connection.(bytesReceived := received));
        }
        connections := connections[key := tracked];
        events := [ConnectionUpdated(tracked.connection)];
      } else {
        var connection := NetworkConnection(
          nextId, packet.process, packet.protocol, packet.ipVersion, packet.direction,
          key.localIp, key.localPort, key.remoteIp, key.remotePort, None,
          if isOutbound then packet.packetSize else 0,
          if isOutbound then 0 else packet.packetSize);
        nextId := SaturatingAdd(nextId, 1);
        connections := connections[key := TrackedConnection(connection, packet.timestamp, packet.timestamp)];
        events := [ConnectionOpened(connection)];
      }

      if isClosed && key in connections {
        var id := connections[key].connection.id;
        connections := connections - {key};
        events := events + [ConnectionClosed(id)];
      }
    }

    method CloseInactive(now: Time) returns (events: seq<NetworkEvent>)
      requires Valid()
      modifies this
      ensures Valid() && Took(Sweep(now), events)
    {
      ghost var order;
      events, order := RemoveExpired(now);
      RunSnoc(turns, Turn(Sweep(now), order));
      turns := turns + [Turn(Sweep(now), order)];
    }

    /** Drops the idle connections; the hash map yields its keys in an arbitrary `order`. */
    method RemoveExpired(now: Time) returns (events: seq<NetworkEvent>, ghost order: seq<ConnectionKey>)
      modifies this`connections
      ensures Enumerates(order, Expired(old(State()), now))
      ensures State() == AfterSweep(old(State()), now)
      ensures events == ClosedEvents(old(State()), order)
    {
      ghost var before := State();
      var remaining := connections.Keys;
      var expired: seq<(ConnectionKey, u64)> := [];
      order := [];
      while remaining != {}
        invariant remaining <= connections.Keys && connections == before.connections
        invariant |order| == |expired|
        invariant forall i | 0 <= i < |expired| ::
            expired[i].0 == order[i] && order[i] in before.connections
            && expired[i].1 == before.connections[order[i]].connection.id
        invariant Enumerates(order, Expired(before, now) - remaining)
        decreases remaining
      {
        var key :| key in remaining;
        remaining := remaining - {key};
        if IsIdle(connections[key], now) {
          expired := expired + [(key, connections[key].connection.id)];
          order := order + [key];
        }
      }

      for n := 0 to |expired|
        invariant connections == before.connections - (set k | k in order[..n])
      {
        assert order[..n + 1] == order[..n] + [expired[n].0];
        connections := connections - {expired[n].0};
      }
      assert order[..|expired|] == order;
      assert (set k | k in order) == Expired(before, now);

      events := seq(|expired|, i requires 0 <= i < |expired| => ConnectionClosed(expired[i].1));
    }
  }
}
