/** What the event log says about bytes and packets, summed over whole runs. */
module Conservation {
  import opened Core
  import opened Tracker
  import opened Sessions
  import opened EventStream

  // ----- Bytes -----

  /** The latest snapshot of every id ever opened, closed or not. */
  function LedgerFrom(ledger: map<u64, NetworkConnection>, events: seq<NetworkEvent>): map<u64, NetworkConnection> {
    if events == [] then ledger
    else
      var earlier, e := LedgerFrom(ledger, events[..|events| - 1]), events[|events| - 1];
      if e.ConnectionOpened? || e.ConnectionUpdated? then earlier[e.connection.id := e.connection] else earlier
  }

  function Ledger(events: seq<NetworkEvent>): map<u64, NetworkConnection> {
    LedgerFrom(map[], events)
  }

  /** Sent plus received bytes over the ids 1 to `n`. */
  function TotalBytes(ledger: map<u64, NetworkConnection>, n: int): nat {
    if n <= 0 then 0
    else TotalBytes(ledger, n - 1) + if n in ledger then ledger[n].bytesSent + ledger[n].bytesReceived else 0
  }

  /** The sizes of all packets that carry both ports. */
  function PacketBytes(turns: seq<Turn>): nat {
    if turns == [] then 0
    else
      var input := turns[|turns| - 1].input;
      PacketBytes(turns[..|turns| - 1]) + if KeyOf(input).Some? then input.packet.packetSize else 0
  }

  /** The bytes by which absorbing `p` overshoots the counter it is added to. */
  function Overflow(s: TrackerState, p: CapturedPacket): nat {
    var key := FromPacket(p);
    if key.Some? && key.value in s.connections then
      var c := s.connections[key.value].connection;
      var counter := if p.direction.Outbound? then c.bytesSent else c.bytesReceived;
      if counter + p.packetSize > U64_MAX then counter + p.packetSize - U64_MAX else 0
    else 0
  }

  ghost function OverflowAt(turns: seq<Turn>, i: nat): nat
    requires i < |turns|
  {
    var input := turns[i].input;
    if input.Packet? then Overflow(AfterSweep(StateAfter(turns[..i]), input.packet.timestamp), input.packet) else 0
  }

  ghost function LostBytes(turns: seq<Turn>): nat {
    if turns == [] then 0
    else LostBytes(turns[..|turns| - 1]) + OverflowAt(turns, |turns| - 1)
  }

  /**
   The bytes of all connections ever opened account for every packet that carries both ports, except for what
   saturating counters dropped; so they balance exactly when no counter ever saturated.
   */
  lemma BytesAreConserved(turns: seq<Turn>)
    requires IsRun(turns) && StateAfter(turns).nextId < U64_MAX
    ensures TotalBytes(Ledger(EventsOf(turns)), StateAfter(turns).nextId - 1) + LostBytes(turns) == PacketBytes(turns)
    ensures TotalBytes(Ledger(EventsOf(turns)), StateAfter(turns).nextId - 1) == PacketBytes(turns)
       <==> forall i | 0 <= i < |turns| :: OverflowAt(turns, i) == 0
  {
    hide StateAfter, EventsOf, IsRun, OverflowAt, Covers;
    LedgerBalances(turns);
    LossIsSum(turns);
  }

  lemma {:induction false} LossIsSum(turns: seq<Turn>)
    ensures LostBytes(turns) == 0 <==> forall i | 0 <= i < |turns| :: OverflowAt(turns, i) == 0
  {
    if turns != [] {
      var before := turns[..|turns| - 1];
      LossIsSum(before);
      forall i | 0 <= i < |before| ensures OverflowAt(turns, i) == OverflowAt(before, i) {
        assert before[..i] == turns[..i];
      }
    }
  }

  /** The ledger agrees with the tracker and covers the ids used so far. */
  ghost predicate Covers(ledger: map<u64, NetworkConnection>, s: TrackerState) {
    && 1 <= s.nextId && (forall id: int :: id in ledger <==> 1 <= id < s.nextId)
    && (forall k | k in s.connections ::
          var c := s.connections[k].connection; KeyFor(c) == k && c.id in ledger && ledger[c.id] == c)
  }

  lemma {:induction false} LedgerBalances(turns: seq<Turn>)
    requires IsRun(turns) && StateAfter(turns).nextId < U64_MAX
    ensures Covers(Ledger(EventsOf(turns)), StateAfter(turns))
    ensures TotalBytes(Ledger(EventsOf(turns)), StateAfter(turns).nextId - 1) + LostBytes(turns) == PacketBytes(turns)
  {
    hide Step, TurnEvents, Entered, Covers;
    if turns == [] {
      NothingCovered();
    } else {
      var before, turn := turns[..|turns| - 1], turns[|turns| - 1];
      NextIdGrows(turns, |turns| - 1);
      LedgerBalances(before);
      TurnBalances(Ledger(EventsOf(before)), StateAfter(before), turn);
      LedgerConcat(map[], EventsOf(before), TurnEvents(StateAfter(before), turn));
      EnteredAt(turns);
    }
  }

  lemma NothingCovered()
    ensures Covers(map[], INITIAL)
  {
  }

  lemma CoversFewer(ledger: map<u64, NetworkConnection>, s: TrackerState, keys: set<ConnectionKey>)
    requires Covers(ledger, s)
    ensures Covers(ledger, s.(connections := s.connections - keys))
  {
  }

  lemma EnteredAt(turns: seq<Turn>)
    requires turns != []
    ensures var before, input := turns[..|turns| - 1], turns[|turns| - 1].input;
            PacketBytes(turns) - LostBytes(turns)
            == PacketBytes(before) - LostBytes(before) + Entered(StateAfter(before), input)
  {
  }

  /** A turn keeps the ledger in step with the tracker and enters its packet's size, less the overflow. */
  lemma TurnBalances(ledger: map<u64, NetworkConnection>, s: TrackerState, turn: Turn)
    requires Covers(ledger, s) && CanTake(s, turn) && Step(s, turn.input).nextId < U64_MAX
    ensures Covers(LedgerFrom(ledger, TurnEvents(s, turn)), Step(s, turn.input))
    ensures TotalBytes(LedgerFrom(ledger, TurnEvents(s, turn)), Step(s, turn.input).nextId - 1)
         == TotalBytes(ledger, s.nextId - 1) + Entered(s, turn.input)
  {
    hide Covers, TurnEvents, Opened, Refreshed, Absorb, Overflow;
    TurnLedger(ledger, s, turn);
    var swept := AfterSweep(s, TimeOf(turn.input));
    CoversFewer(ledger, s, Expired(s, TimeOf(turn.input)));
    if KeyOf(turn.input).Some? {
      var k, p := KeyOf(turn.input).value, turn.input.packet;
      var c := Absorb(swept, k, p).connections[k].connection;
      AbsorbCovers(ledger, swept, k, p);
      AbsorbBalances(ledger, swept, k, p);
      CoversFewer(ledger[c.id := c], Absorb(swept, k, p), {k});
    }
  }

  /** What the input adds to the total. */
  function Entered(s: TrackerState, input: TrackerInput): int {
    if KeyOf(input).Some? then
      input.packet.packetSize - Overflow(AfterSweep(s, TimeOf(input)), input.packet)
    else 0
  }

  lemma {:induction false} LedgerConcat(
    ledger: map<u64, NetworkConnection>, xs: seq<NetworkEvent>, ys: seq<NetworkEvent>)
    ensures LedgerFrom(ledger, xs + ys) == LedgerFrom(LedgerFrom(ledger, xs), ys)
  {
    if ys == [] {
      assert xs + ys == xs;
    } else {
      assert (xs + ys)[..|xs + ys| - 1] == xs + ys[..|ys| - 1];
      LedgerConcat(ledger, xs, ys[..|ys| - 1]);
    }
  }

  lemma {:induction false} ClosesLeaveLedger(ledger: map<u64, NetworkConnection>, events: seq<NetworkEvent>)
    requires forall e | e in events :: e.ConnectionClosed? || e.PacketCaptured?
    ensures LedgerFrom(ledger, events) == ledger
  {
    if events != [] {
      assert events[|events| - 1] in events;
      ClosesLeaveLedger(ledger, events[..|events| - 1]);
    }
  }

  /** A turn enters at most one snapshot in the ledger: the one that absorbing its packet reports. */
  lemma TurnLedger(ledger: map<u64, NetworkConnection>, s: TrackerState, turn: Turn)
    requires CanTake(s, turn)
    ensures var key := KeyOf(turn.input);
            LedgerFrom(ledger, TurnEvents(s, turn)) ==
            if key.None? then ledger
            else
              var c := Absorb(AfterSweep(s, TimeOf(turn.input)), key.value, turn.input.packet)
                       .connections[key.value].connection;
              ledger[c.id := c]
  {
    var closed := ClosedEvents(s, turn.order);
    if turn.input.Sweep? {
      ClosesLeaveLedger(ledger, closed);
    } else {
      var prefix := [PacketCaptured(turn.input.packet)] + closed;
      var rest := PacketEvents(AfterSweep(s, TimeOf(turn.input)), turn.input.packet);
      ClosesLeaveLedger(ledger, prefix);
      LedgerConcat(ledger, prefix, rest);
      if rest != [] {
        var afterFirst := LedgerFrom(ledger, [rest[0]]);
        assert rest == [rest[0]] + rest[1..];
        LedgerConcat(ledger, [rest[0]], rest[1..]);
        ClosesLeaveLedger(afterFirst, rest[1..]);
      }
    }
  }

  lemma AbsorbCovers(ledger: map<u64, NetworkConnection>, s: TrackerState, k: ConnectionKey, p: CapturedPacket)
    requires Covers(ledger, s) && FromPacket(p) == Some(k) && Absorb(s, k, p).nextId < U64_MAX
    ensures var c := Absorb(s, k, p).connections[k].connection;
            Covers(ledger[c.id := c], Absorb(s, k, p))
  {
    var c := Absorb(s, k, p).connections[k].connection;
    forall q | q in s.connections && q != k ensures s.connections[q].connection.id != c.id {
      assert KeyFor(s.connections[q].connection) == q && KeyFor(c) == k;
      if k in s.connections { assert KeyFor(s.connections[k].connection) == k; }
    }
  }

  lemma AbsorbBalances(ledger: map<u64, NetworkConnection>, s: TrackerState, k: ConnectionKey, p: CapturedPacket)
    requires Covers(ledger, s) && FromPacket(p) == Some(k) && Absorb(s, k, p).nextId < U64_MAX
    ensures var c := Absorb(s, k, p).connections[k].connection;
            TotalBytes(ledger[c.id := c], Absorb(s, k, p).nextId - 1)
            == TotalBytes(ledger, s.nextId - 1) + p.packetSize - Overflow(s, p)
  {
    var c := Absorb(s, k, p).connections[k].connection;
    TotalAfterUpdate(ledger, c, Absorb(s, k, p).nextId - 1);
    if k in s.connections {
      assert BytesAt(ledger, c.id) == s.connections[k].connection.bytesSent + s.connections[k].connection.bytesReceived;
    } else {
      assert Absorb(s, k, p).nextId == s.nextId + 1;
      assert TotalBytes(ledger, s.nextId) == TotalBytes(ledger, s.nextId - 1);
    }
  }

  function BytesAt(ledger: map<u64, NetworkConnection>, id: u64): nat {
    if id in ledger then ledger[id].bytesSent + ledger[id].bytesReceived else 0
  }

  lemma {:induction false} TotalAfterUpdate(ledger: map<u64, NetworkConnection>, c: NetworkConnection, n: int)
    decreases n
    ensures TotalBytes(ledger[c.id := c], n)
         == TotalBytes(ledger, n) + if 1 <= c.id <= n then c.bytesSent + c.bytesReceived - BytesAt(ledger, c.id) else 0
  {
    if n > 0 { TotalAfterUpdate(ledger, c, n - 1); }
  }

  // ----- Packets -----

  /** How many snapshots of `id` the log holds, that is, how many packets were reported for it. */
  function SnapshotCount(events: seq<NetworkEvent>, id: u64): nat {
    if events == [] then 0
    else
      SnapshotCount(events[..|events| - 1], id) + if IsSnapshotOf(events[|events| - 1], id) then 1 else 0
  }

  /** Each live connection was reported once per packet of its open session. */
  lemma {:induction false} SnapshotsCountSession(turns: seq<Turn>, k: ConnectionKey)
    requires IsRun(turns) && StateAfter(turns).nextId < U64_MAX
    requires k in StateAfter(turns).connections
    ensures SnapshotCount(EventsOf(turns), StateAfter(turns).connections[k].connection.id) == |Session(turns, k)|
  {
    hide TurnEvents, Step, AfterSweep, Mirrors;
    var before, turn := turns[..|turns| - 1], turns[|turns| - 1];
    var s, id := StateAfter(before), StateAfter(turns).connections[k].connection.id;
    assert turns == before + [turn];
    NextIdGrows(turns, |turns| - 1);
    ReplayRebuildsTracker(before);
    CountConcat(EventsOf(before), TurnEvents(s, turn), id);
    SessionSnoc(before, turn, k);
    SweepKeepsSessions(before, k, TimeOf(turn.input));
    TurnCounts(Replay(EventsOf(before)), s, turn, k);
    if k in AfterSweep(s, TimeOf(turn.input)).connections {
      SnapshotsCountSession(before, k);
    } else {
      FreshIdIsUncounted(EventsOf(before), id);
    }
  }

  /** A turn reports `k` exactly when it carries a packet of `k`; a key that was not tracked gets an unused id. */
  lemma TurnCounts(r: Registry, s: TrackerState, turn: Turn, k: ConnectionKey)
    requires Mirrors(r, s) && CanTake(s, turn) && k in Step(s, turn.input).connections
    ensures var swept, id := AfterSweep(s, TimeOf(turn.input)), Step(s, turn.input).connections[k].connection.id;
            && SnapshotCount(TurnEvents(s, turn), id) == (if KeyOf(turn.input) == Some(k) then 1 else 0)
            && (if k in swept.connections then id == s.connections[k].connection.id else id !in r.seen)
            && (k in swept.connections || KeyOf(turn.input) == Some(k))
            && (KeyOf(turn.input) == Some(k) ==> !IsClosing(turn.input.packet))
  {
    var id := Step(s, turn.input).connections[k].connection.id;
    TurnSnapshots(s, turn, id);
    if KeyOf(turn.input).Some? && KeyOf(turn.input) != Some(k) {
      AbsorbKeepsId(r, s, AfterSweep(s, TimeOf(turn.input)), KeyOf(turn.input).value, turn.input.packet);
    }
  }

  lemma AbsorbKeepsId(r: Registry, s: TrackerState, swept: TrackerState, q: ConnectionKey, p: CapturedPacket)
    requires Mirrors(r, s) && FromPacket(p) == Some(q)
    requires swept == AfterSweep(s, p.timestamp)
    ensures forall k | k in s.connections && k != q ::
              s.connections[k].connection.id != Absorb(swept, q, p).connections[q].connection.id
  {
    forall k | k in s.connections && k != q
      ensures s.connections[k].connection.id != Absorb(swept, q, p).connections[q].connection.id
    {
      assert KeyFor(s.connections[k].connection) == k;
      if q in swept.connections { assert KeyFor(s.connections[q].connection) == q; }
    }
  }

  lemma {:induction false} CountConcat(xs: seq<NetworkEvent>, ys: seq<NetworkEvent>, id: u64)
    ensures SnapshotCount(xs + ys, id) == SnapshotCount(xs, id) + SnapshotCount(ys, id)
  {
    if ys == [] {
      assert xs + ys == xs;
    } else {
      assert (xs + ys)[..|xs + ys| - 1] == xs + ys[..|ys| - 1];
      CountConcat(xs, ys[..|ys| - 1], id);
    }
  }

  lemma {:induction false} NothingCounted(events: seq<NetworkEvent>, id: u64)
    requires forall e | e in events :: !IsSnapshotOf(e, id)
    ensures SnapshotCount(events, id) == 0
  {
    if events != [] { NothingCounted(events[..|events| - 1], id); }
  }

  lemma TurnSnapshots(s: TrackerState, turn: Turn, id: u64)
    requires CanTake(s, turn)
    ensures var key := KeyOf(turn.input);
            SnapshotCount(TurnEvents(s, turn), id) ==
            if key.Some?
               && id == Absorb(AfterSweep(s, TimeOf(turn.input)), key.value, turn.input.packet)
                        .connections[key.value].connection.id
            then 1 else 0
  {
    var closed := ClosedEvents(s, turn.order);
    if turn.input.Sweep? {
      NothingCounted(closed, id);
    } else {
      var prefix := [PacketCaptured(turn.input.packet)] + closed;
      var rest := PacketEvents(AfterSweep(s, TimeOf(turn.input)), turn.input.packet);
      NothingCounted(prefix, id);
      CountConcat(prefix, rest, id);
      if rest != [] {
        assert rest == [rest[0]] + rest[1..];
        CountConcat([rest[0]], rest[1..], id);
        NothingCounted(rest[1..], id);
        assert [rest[0]][..0] == [];
      }
    }
  }

  lemma {:induction false} FreshIdIsUncounted(events: seq<NetworkEvent>, id: u64)
    requires Accepted(events) && id !in Replay(events).seen
    ensures SnapshotCount(events, id) == 0
  {
    if events != [] {
      LifeCycleGrammar(events[..|events| - 1], id);
      FreshIdIsUncounted(events[..|events| - 1], id);
    }
  }

  // ----- Captured packets -----

  /** The packets that the log reports as captured, in order. */
  function CapturedPackets(events: seq<NetworkEvent>): seq<CapturedPacket> {
    if events == [] then []
    else
      var e := events[|events| - 1];
      CapturedPackets(events[..|events| - 1]) + if e.PacketCaptured? then [e.packet] else []
  }

  function PacketsOf(turns: seq<Turn>): seq<CapturedPacket> {
    if turns == [] then []
    else
      var input := turns[|turns| - 1].input;
      PacketsOf(turns[..|turns| - 1]) + if input.Packet? then [input.packet] else []
  }

  /** Every packet is reported as captured, once and in order, with or without ports. */
  lemma {:induction false} EveryPacketIsReported(turns: seq<Turn>)
    requires IsRun(turns)
    ensures CapturedPackets(EventsOf(turns)) == PacketsOf(turns)
  {
    hide TurnEvents, Step;
    if turns != [] {
      var before, turn := turns[..|turns| - 1], turns[|turns| - 1];
      EveryPacketIsReported(before);
      CapturedConcat(EventsOf(before), TurnEvents(StateAfter(before), turn));
      TurnReportsPacket(StateAfter(before), turn);
    }
  }

  lemma TurnReportsPacket(s: TrackerState, turn: Turn)
    requires CanTake(s, turn)
    ensures CapturedPackets(TurnEvents(s, turn)) == if turn.input.Packet? then [turn.input.packet] else []
  {
    hide PacketEvents;
    var closed := ClosedEvents(s, turn.order);
    NothingCaptured(closed);
    if turn.input.Packet? {
      var p := turn.input.packet;
      var first, rest := [PacketCaptured(p)], PacketEvents(AfterSweep(s, p.timestamp), p);
      PacketEventsCaptureNothing(AfterSweep(s, p.timestamp), p);
      NothingCaptured(closed + rest);
      assert first + closed + rest == first + (closed + rest);
      CapturedConcat(first, closed + rest);
      assert first[..0] == [];
    }
  }

  lemma PacketEventsCaptureNothing(s: TrackerState, p: CapturedPacket)
    ensures forall i | 0 <= i < |PacketEvents(s, p)| :: !PacketEvents(s, p)[i].PacketCaptured?
  {
  }

  lemma {:induction false} CapturedConcat(xs: seq<NetworkEvent>, ys: seq<NetworkEvent>)
    ensures CapturedPackets(xs + ys) == CapturedPackets(xs) + CapturedPackets(ys)
  {
    if ys == [] {
      assert xs + ys == xs;
    } else {
      assert (xs + ys)[..|xs + ys| - 1] == xs + ys[..|ys| - 1];
      CapturedConcat(xs, ys[..|ys| - 1]);
    }
  }

  lemma {:induction false} NothingCaptured(events: seq<NetworkEvent>)
    requires forall i | 0 <= i < |events| :: !events[i].PacketCaptured?
    ensures CapturedPackets(events) == []
  {
    if events != [] { NothingCaptured(events[..|events| - 1]); }
  }
}
