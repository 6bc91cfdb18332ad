/**
 The meaning of the packet log.  A session is read off the log alone, by quantifying over positions;
 the tracker's incremental map is then shown to hold exactly the sessions that are still open.
 */
module Sessions {
  import opened Core
  import opened Tracker

  /** Turn `i` is a packet of connection `k`. */
  predicate Carries(log: seq<Turn>, k: ConnectionKey, i: int) {
    0 <= i < |log| && KeyOf(log[i].input) == Some(k)
  }

  /** No packet of `k` lies in `log[lo..hi]`. */
  ghost predicate Silent(log: seq<Turn>, k: ConnectionKey, lo: int, hi: int) {
    forall m | lo <= m < hi :: !Carries(log, k, m)
  }

  /** Turn `j` happens less than 30 seconds after turn `a`; going back in time always does. */
  predicate InTime(log: seq<Turn>, a: int, j: int)
    requires 0 <= a < |log| && 0 <= j < |log|
  {
    TimeOf(log[j].input) - TimeOf(log[a].input) < 30_000_000_000
  }

  /** `k` is open at the end of the log: its latest packet had no FIN or RST flag, and every later turn is in time. */
  ghost predicate IsOpen(log: seq<Turn>, k: ConnectionKey) {
    exists i | 0 <= i < |log| ::
      && Carries(log, k, i) && Silent(log, k, i + 1, |log|)
      && (var p := log[i].input.packet; p.protocol == TCP ==> !p.tcpFin && !p.tcpRst)
      && forall j | i < j < |log| :: InTime(log, i, j)
  }

  /** Packet `a` of `k` neither closes the session nor lets it expire before, or at, the next packet of `k`. */
  ghost predicate LeavesOpen(log: seq<Turn>, k: ConnectionKey, a: int)
    requires Carries(log, k, a)
  {
    var p := log[a].input.packet;
    && (p.protocol == TCP ==> !p.tcpFin && !p.tcpRst)
    && forall j | a < j < |log| && Silent(log, k, a + 1, j) :: InTime(log, a, j)
  }

  /** Packet `i` of `k` belongs to the session that is open at the end of the log. */
  ghost predicate InSession(log: seq<Turn>, k: ConnectionKey, i: int) {
    Carries(log, k, i) && forall a | i <= a < |log| && Carries(log, k, a) :: LeavesOpen(log, k, a)
  }

  /** The packets of the open session of `k` among the first `m` turns. */
  ghost function SessionUpTo(log: seq<Turn>, k: ConnectionKey, m: nat): seq<CapturedPacket>
    requires m <= |log|
  {
    if m == 0 then []
    else SessionUpTo(log, k, m - 1) + if InSession(log, k, m - 1) then [log[m - 1].input.packet] else []
  }

  /** The packets of the session of `k` that is open at the end of the log, oldest first. */
  ghost function Session(log: seq<Turn>, k: ConnectionKey): seq<CapturedPacket> {
    SessionUpTo(log, k, |log|)
  }

  function BytesIn(packets: seq<CapturedPacket>, direction: ConnectionDirection): nat {
    if packets == [] then 0
    else
      var p := packets[|packets| - 1];
      BytesIn(packets[..|packets| - 1], direction) + if p.direction == direction then p.packetSize else 0
  }

  /** The process of the first packet whose process is known. */
  function FirstProcess(packets: seq<CapturedPacket>): Option<ProcessInfo> {
    if packets == [] then None
    else
      var earlier := FirstProcess(packets[..|packets| - 1]);
      if earlier.None? then packets[|packets| - 1].process else earlier
  }

  /** `tracked` says about `k` what its session `packets` says. */
  predicate Describes(tracked: TrackedConnection, k: ConnectionKey, packets: seq<CapturedPacket>)
    requires packets != []
  {
    var c := tracked.connection;
    && KeyFor(c) == k
    && tracked.startedAt == packets[0].timestamp
    && tracked.lastSeen == packets[|packets| - 1].timestamp
    && c.bytesSent == Saturate(BytesIn(packets, Outbound))
    && c.bytesReceived == Saturate(BytesIn(packets, Inbound))
    && c.process == FirstProcess(packets)
    && c.ipVersion == packets[0].ipVersion && c.direction == packets[0].direction && c.hostname == None
  }

  /**
   The tracker refines the packet log, for every run and every clock: a connection is tracked exactly when
   the log leaves it open, and its counters are the saturated sums over its open session.
   */
  lemma TrackerRefinesLog(turns: seq<Turn>, k: ConnectionKey)
    ensures k in StateAfter(turns).connections <==> IsOpen(turns, k)
    ensures IsOpen(turns, k) <==> Session(turns, k) != []
    ensures IsOpen(turns, k) ==> Describes(StateAfter(turns).connections[k], k, Session(turns, k))
  {
    TrackedIsDescribed(turns, k);
    OpenHasSession(turns, k);
  }

  // ----- How one more turn changes a session -----

  /** The session of `k` just before the packet of turn `turn` is absorbed. */
  ghost function Kept(log: seq<Turn>, k: ConnectionKey, now: Time): seq<CapturedPacket> {
    var s := Session(log, k);
    if s != [] && now - s[|s| - 1].timestamp < 30_000_000_000 then s else []
  }

  /** One more turn keeps, extends, restarts or ends a session. */
  lemma SessionSnoc(log: seq<Turn>, turn: Turn, k: ConnectionKey)
    ensures Session(log + [turn], k) ==
            var kept := Kept(log, k, TimeOf(turn.input));
            if KeyOf(turn.input) != Some(k) then kept
            else
              var p := turn.input.packet;
              if p.protocol == TCP && (p.tcpFin || p.tcpRst) then [] else kept + [p]
  {
    hide InSession, Kept;
    OlderPartOfSession(log, turn, k);
    NewestInSession(log, turn, k);
  }

  /** What the packets before the last turn contribute to the session after it. */
  lemma OlderPartOfSession(log: seq<Turn>, turn: Turn, k: ConnectionKey)
    ensures SessionUpTo(log + [turn], k, |log|) ==
            if KeyOf(turn.input) == Some(k) && IsClosing(turn.input.packet) then []
            else Kept(log, k, TimeOf(turn.input))
  {
    hide InSession, LeavesOpen, Silent, Carries, IsClosing, InTime, TimeOf;
    var n, longer := |log|, log + [turn];
    var closes := KeyOf(turn.input) == Some(k) && IsClosing(turn.input.packet);
    if i :| 0 <= i < n && InSession(log, k, i) {
      InSessionCarries(log, k, i);
      var last := LastPacket(log, k, i);
      SessionEndsWith(log, k, last);
      LastPacketTime(log, turn, k, last);
      if InTime(longer, last, n) && !closes {
        forall m | 0 <= m < n ensures InSession(longer, k, m) == InSession(log, k, m) {
          if InSession(log, k, m) { StaysInSession(log, turn, k, m, last); }
          if InSession(longer, k, m) { WasInSession(log, turn, k, m); }
        }
        SameSession(log, longer, k, n);
      } else {
        forall m | 0 <= m < n ensures !InSession(longer, k, m) { SurvivorIsInTime(log, turn, k, m, last); }
        NoSession(longer, k, 0, n);
      }
    } else {
      forall m | 0 <= m < n ensures !InSession(longer, k, m) && !InSession(log, k, m) {
        if InSession(longer, k, m) { WasInSession(log, turn, k, m); }
      }
      NoSession(longer, k, 0, n);
      NoSession(log, k, 0, n);
    }
  }

  lemma InSessionCarries(log: seq<Turn>, k: ConnectionKey, i: nat)
    requires InSession(log, k, i)
    ensures Carries(log, k, i)
  {
  }

  lemma LastPacketTime(log: seq<Turn>, turn: Turn, k: ConnectionKey, last: nat)
    requires Carries(log, k, last)
    ensures last < |log| && log[last].input.Packet?
    ensures InTime(log + [turn], last, |log|)
       <==> TimeOf(turn.input) - log[last].input.packet.timestamp < 30_000_000_000
  {
  }

  lemma NewestInSession(log: seq<Turn>, turn: Turn, k: ConnectionKey)
    ensures InSession(log + [turn], k, |log|) <==> KeyOf(turn.input) == Some(k) && !IsClosing(turn.input.packet)
  {
    assert Carries(log + [turn], k, |log|) <==> KeyOf(turn.input) == Some(k);
  }

  lemma SilentInPrefix(log: seq<Turn>, turn: Turn, k: ConnectionKey, lo: nat, hi: nat)
    requires hi <= |log|
    ensures Silent(log + [turn], k, lo, hi) <==> Silent(log, k, lo, hi)
  {
    forall m | lo <= m < hi ensures Carries(log + [turn], k, m) == Carries(log, k, m) {}
  }

  lemma WasInSession(log: seq<Turn>, turn: Turn, k: ConnectionKey, m: nat)
    requires m < |log| && InSession(log + [turn], k, m)
    ensures InSession(log, k, m)
  {
    var longer := log + [turn];
    forall a | m <= a < |log| && Carries(log, k, a) ensures LeavesOpen(log, k, a) {
      assert Carries(longer, k, a) && LeavesOpen(longer, k, a);
      forall j | a < j < |log| && Silent(log, k, a + 1, j) ensures InTime(log, a, j) {
        SilentInPrefix(log, turn, k, a + 1, j);
        assert InTime(longer, a, j);
      }
    }
    assert Carries(longer, k, m);
  }

  lemma SurvivorIsInTime(log: seq<Turn>, turn: Turn, k: ConnectionKey, m: nat, last: nat)
    requires m < |log| && Carries(log, k, last) && Silent(log, k, last + 1, |log|)
    ensures InSession(log + [turn], k, m) ==>
              InTime(log + [turn], last, |log|) && !(KeyOf(turn.input) == Some(k) && IsClosing(turn.input.packet))
  {
    var longer := log + [turn];
    if InSession(longer, k, m) {
      SilentInPrefix(log, turn, k, last + 1, |log|);
      assert Carries(log, k, m) && Carries(longer, k, last);
      assert LeavesOpen(longer, k, last);
      assert Carries(longer, k, |log|) ==> LeavesOpen(longer, k, |log|);
    }
  }

  lemma StaysInSession(log: seq<Turn>, turn: Turn, k: ConnectionKey, m: nat, last: nat)
    requires m < |log| && InSession(log, k, m)
    requires Carries(log, k, last) && Silent(log, k, last + 1, |log|)
    requires InTime(log + [turn], last, |log|)
    requires KeyOf(turn.input) == Some(k) ==> !IsClosing(turn.input.packet)
    ensures InSession(log + [turn], k, m)
  {
    var longer := log + [turn];
    forall a | m <= a < |longer| && Carries(longer, k, a) ensures LeavesOpen(longer, k, a) {
      if a < |log| {
        assert Carries(log, k, a) && LeavesOpen(log, k, a);
        forall j | a < j < |longer| && Silent(longer, k, a + 1, j) ensures InTime(longer, a, j) {
          if j < |log| {
            SilentInPrefix(log, turn, k, a + 1, j);
            assert InTime(log, a, j);
          } else {
            assert a == last by {
              if a < last { assert Carries(longer, k, last); }
            }
          }
        }
      }
    }
  }

  lemma {:induction false} LastPacket(log: seq<Turn>, k: ConnectionKey, i: nat) returns (last: nat)
    requires Carries(log, k, i)
    ensures i <= last < |log| && Carries(log, k, last) && Silent(log, k, last + 1, |log|)
    decreases |log| - i
  {
    if m :| i < m < |log| && Carries(log, k, m) {
      last := LastPacket(log, k, m);
    } else {
      last := i;
    }
  }

  lemma {:induction false} SameSession(log: seq<Turn>, longer: seq<Turn>, k: ConnectionKey, m: nat)
    requires m <= |log| <= |longer| && log == longer[..|log|]
    requires forall i | 0 <= i < m :: InSession(longer, k, i) == InSession(log, k, i)
    ensures SessionUpTo(longer, k, m) == SessionUpTo(log, k, m)
  {
    if m > 0 { SameSession(log, longer, k, m - 1); }
  }

  lemma {:induction false} NoSession(log: seq<Turn>, k: ConnectionKey, lo: nat, m: nat)
    requires lo <= m <= |log|
    requires forall i | lo <= i < m :: !InSession(log, k, i)
    ensures SessionUpTo(log, k, m) == SessionUpTo(log, k, lo)
  {
    if lo < m { NoSession(log, k, lo, m - 1); }
  }

  /** A non-empty session ends with the latest packet of its connection. */
  lemma SessionEndsWith(log: seq<Turn>, k: ConnectionKey, last: nat)
    requires Carries(log, k, last) && Silent(log, k, last + 1, |log|)
    requires exists i | 0 <= i < |log| :: InSession(log, k, i)
    ensures Session(log, k) != []
    ensures Session(log, k)[|Session(log, k)| - 1] == log[last].input.packet
  {
    var i :| 0 <= i < |log| && InSession(log, k, i);
    assert i <= last;
    assert InSession(log, k, last);
    NoSession(log, k, last + 1, |log|);
  }

  lemma OpenHasSession(log: seq<Turn>, k: ConnectionKey)
    ensures IsOpen(log, k) <==> Session(log, k) != []
  {
    if IsOpen(log, k) {
      var i :| 0 <= i < |log| && Carries(log, k, i) && Silent(log, k, i + 1, |log|)
        && !IsClosing(log[i].input.packet) && forall j | i < j < |log| :: InTime(log, i, j);
      assert LeavesOpen(log, k, i);
      assert InSession(log, k, i);
      SessionEndsWith(log, k, i);
    }
    if Session(log, k) != [] {
      if forall i | 0 <= i < |log| :: !InSession(log, k, i) {
        NoSession(log, k, 0, |log|);
        assert false;
      }
      var i :| 0 <= i < |log| && InSession(log, k, i);
      var last := LastPacket(log, k, i);
      assert LeavesOpen(log, k, last);
      forall j | last < j < |log| ensures InTime(log, last, j) {
        assert Silent(log, k, last + 1, j);
      }
    }
  }

  // ----- The tracker holds what the sessions say -----

  lemma SumsSnoc(packets: seq<CapturedPacket>, p: CapturedPacket, direction: ConnectionDirection)
    ensures BytesIn(packets + [p], direction)
         == BytesIn(packets, direction) + if p.direction == direction then p.packetSize else 0
    ensures FirstProcess(packets + [p])
         == if FirstProcess(packets).None? then p.process else FirstProcess(packets)
  {
    assert (packets + [p])[..|packets|] == packets;
  }

  lemma AbsorbDescribes(s: TrackerState, k: ConnectionKey, p: CapturedPacket, kept: seq<CapturedPacket>)
    requires FromPacket(p) == Some(k)
    requires k in s.connections <==> kept != []
    requires k in s.connections ==> Describes(s.connections[k], k, kept)
    ensures Describes(Absorb(s, k, p).connections[k], k, kept + [p])
  {
    SumsSnoc(kept, p, Outbound);
    SumsSnoc(kept, p, Inbound);
  }

  lemma {:induction false} TrackedIsDescribed(turns: seq<Turn>, k: ConnectionKey)
    ensures k in StateAfter(turns).connections <==> Session(turns, k) != []
    ensures k in StateAfter(turns).connections ==>
              Describes(StateAfter(turns).connections[k], k, Session(turns, k))
  {
    if turns != [] {
      var before, turn := turns[..|turns| - 1], turns[|turns| - 1];
      assert turns == before + [turn];
      TrackedIsDescribed(before, k);
      SessionSnoc(before, turn, k);
      var kept := Kept(before, k, TimeOf(turn.input));
      var swept := AfterSweep(StateAfter(before), TimeOf(turn.input));
      assert k in swept.connections <==> kept != [];
      if KeyOf(turn.input) == Some(k) {
        AbsorbDescribes(swept, k, turn.input.packet, kept);
      }
    }
  }

  /** The expiry test before a packet keeps exactly the sessions that are still in time, and keeps them whole. */
  lemma SweepKeepsSessions(turns: seq<Turn>, k: ConnectionKey, now: Time)
    ensures Kept(turns, k, now)
         == if k in AfterSweep(StateAfter(turns), now).connections then Session(turns, k) else []
    ensures k in AfterSweep(StateAfter(turns), now).connections ==> k in StateAfter(turns).connections
  {
    TrackedIsDescribed(turns, k);
  }
}
