/** The traffic correlator: a vector of observed connections that behaves as a map with unique-match lookup. */
module Correlator {
  import opened Core

  datatype ObservedConnection = ObservedConnection(connection: NetworkConnection, observedAt: Time)

  const DEFAULT_WINDOW: nat := 2 * SECOND

  predicate UniqueIds(store: seq<ObservedConnection>) {
    forall i, j | 0 <= i < j < |store| :: store[i].connection.id != store[j].connection.id
  }

  /** The first position that holds `id`, or the length of the store. */
  function Find(store: seq<ObservedConnection>, id: u64): (i: nat)
    ensures i <= |store| && (i < |store| ==> store[i].connection.id == id)
    ensures forall j | 0 <= j < i :: store[j].connection.id != id
  {
    if store == [] then 0
    else if store[0].connection.id == id then 0
    else
      assert forall j | 1 <= j < |store| :: store[j] == store[1..][j - 1];
      1 + Find(store[1..], id)
  }

  function Observe(store: seq<ObservedConnection>, c: NetworkConnection, now: Time): seq<ObservedConnection> {
    var i := Find(store, c.id);
    if i < |store| then store[i := ObservedConnection(c, now)] else store + [ObservedConnection(c, now)]
  }

  /** The store as a map from id to its observation; the order of the vector plays no part. */
  ghost function Contents(store: seq<ObservedConnection>): map<u64, ObservedConnection> {
    map id | id in (set i | 0 <= i < |store| :: store[i].connection.id) :: store[Find(store, id)]
  }

  /** `contents` lists exactly the entries of the store, by id. */
  ghost predicate Lists(contents: map<u64, ObservedConnection>, store: seq<ObservedConnection>) {
    && (forall o | o in store :: o.connection.id in contents && contents[o.connection.id] == o)
    && (forall id | id in contents :: contents[id] in store && contents[id].connection.id == id)
  }

  lemma ContentsLists(store: seq<ObservedConnection>)
    requires UniqueIds(store)
    ensures Lists(Contents(store), store)
  {
    forall o | o in store ensures o.connection.id in Contents(store) && Contents(store)[o.connection.id] == o {
      var i :| 0 <= i < |store| && store[i] == o;
      assert Find(store, o.connection.id) <= i;
    }
  }

  lemma ListsIsUnique(a: map<u64, ObservedConnection>, b: map<u64, ObservedConnection>, store: seq<ObservedConnection>)
    requires Lists(a, store) && Lists(b, store)
    ensures a == b
  {
    assert forall id | id in a :: a[id] in store;
    assert forall id | id in b :: b[id] in store;
  }

  /** Observing updates one entry of the map, wherever the vector keeps it. */
  lemma ObserveRefinesMapUpdate(store: seq<ObservedConnection>, c: NetworkConnection, now: Time)
    requires UniqueIds(store)
    ensures UniqueIds(Observe(store, c, now))
    ensures Contents(Observe(store, c, now)) == Contents(store)[c.id := ObservedConnection(c, now)]
  {
    hide Contents, UniqueIds, Lists;
    var after, i := Observe(store, c, now), Find(store, c.id);
    UpdateKeepsUnique(store, i, ObservedConnection(c, now));
    ContentsLists(store);
    ContentsLists(after);
    ListsAfterUpdate(Contents(store), store, i, ObservedConnection(c, now));
    ListsIsUnique(Contents(after), Contents(store)[c.id := ObservedConnection(c, now)], after);
  }

  lemma ListsAfterUpdate(contents: map<u64, ObservedConnection>, store: seq<ObservedConnection>, i: nat,
                         o: ObservedConnection)
    requires Lists(contents, store) && i <= |store| && (i < |store| ==> store[i].connection.id == o.connection.id)
    requires forall j | 0 <= j < |store| && j != i :: store[j].connection.id != o.connection.id
    ensures Lists(contents[o.connection.id := o], if i < |store| then store[i := o] else store + [o])
  {
    var after := if i < |store| then store[i := o] else store + [o];
    var updated := contents[o.connection.id := o];
    assert after[i] == o;
    forall id | id in updated ensures updated[id] in after {
      if id != o.connection.id {
        var j :| 0 <= j < |store| && store[j] == updated[id];
        assert after[j] == store[j];
      }
    }
    forall x | x in after ensures x.connection.id in updated && updated[x.connection.id] == x {
      var j :| 0 <= j < |after| && after[j] == x;
      if j != i { assert store[j] == x && store[j] in store; }
    }
  }

  lemma UpdateKeepsUnique(store: seq<ObservedConnection>, i: nat, o: ObservedConnection)
    requires UniqueIds(store) && i == Find(store, o.connection.id)
    ensures UniqueIds(if i < |store| then store[i := o] else store + [o])
    ensures forall j | 0 <= j < |store| && j != i :: store[j].connection.id != o.connection.id
  {
  }

  /** Only the entries matter: two stores holding the same entries in any order have the same contents. */
  lemma OrderIsIrrelevant(a: seq<ObservedConnection>, b: seq<ObservedConnection>)
    requires UniqueIds(a) && UniqueIds(b) && forall o :: o in a <==> o in b
    ensures Contents(a) == Contents(b)
  {
    hide Contents;
    ContentsLists(a);
    ContentsLists(b);
    ListsIsUnique(Contents(a), Contents(b), a);
  }

  // ----- Whole histories -----

  function ObserveAll(history: seq<ObservedConnection>): seq<ObservedConnection> {
    if history == [] then []
    else
      var o := history[|history| - 1];
      Observe(ObserveAll(history[..|history| - 1]), o.connection, o.observedAt)
  }

  /** Entry `i` of the history is the last one about its connection. */
  predicate IsLatest(history: seq<ObservedConnection>, i: int) {
    && 0 <= i < |history|
    && forall j | i < j < |history| :: history[j].connection.id != history[i].connection.id
  }

  /** The map holds exactly the observed ids, each with its latest observation. */
  ghost predicate HoldsLatest(contents: map<u64, ObservedConnection>, history: seq<ObservedConnection>) {
    && (forall i | IsLatest(history, i) ::
          history[i].connection.id in contents && contents[history[i].connection.id] == history[i])
    && (forall id | id in contents :: exists i :: IsLatest(history, i) && history[i].connection.id == id)
  }

  /** After any history the store is a map from the observed ids to their latest observations. */
  lemma {:induction false} StoreHoldsLatest(history: seq<ObservedConnection>)
    ensures UniqueIds(ObserveAll(history))
    ensures HoldsLatest(Contents(ObserveAll(history)), history)
  {
    hide Contents, Observe, UniqueIds, HoldsLatest;
    if history == [] {
      NothingStored();
    } else {
      var before, o := history[..|history| - 1], history[|history| - 1];
      assert history == before + [o];
      StoreHoldsLatest(before);
      ObserveRefinesMapUpdate(ObserveAll(before), o.connection, o.observedAt);
      LatestSnoc(Contents(ObserveAll(before)), before, o);
    }
  }

  lemma LatestSnoc(contents: map<u64, ObservedConnection>, before: seq<ObservedConnection>, o: ObservedConnection)
    requires HoldsLatest(contents, before)
    ensures HoldsLatest(contents[o.connection.id := o], before + [o])
  {
    var history := before + [o];
    forall i | IsLatest(history, i) && i < |before|
      ensures IsLatest(before, i) && history[i].connection.id != o.connection.id
    {
      assert forall j | i < j < |before| :: before[j] == history[j];
      assert history[|before|] == o;
    }
    forall id | id in contents && id != o.connection.id
      ensures exists i :: IsLatest(history, i) && history[i].connection.id == id
    {
      var i :| IsLatest(before, i) && before[i].connection.id == id;
      assert IsLatest(history, i);
    }
    assert IsLatest(history, |before|);
  }

  lemma NothingStored()
    ensures UniqueIds([]) && HoldsLatest(Contents([]), [])
  {
  }

  // ----- Lookup -----

  function TimeDifference(left: Time, right: Time): nat {
    if left >= right then left - right else right - left
  }

  /** The observation explains a request on these endpoints at this time. */
  predicate Fits(o: ObservedConnection, protocol: NetworkProtocol, local: SocketAddr, remote: SocketAddr,
                 timestamp: Time, window: nat)
  {
    && o.connection.protocol == protocol
    && o.connection.localIp == local.ip
    && o.connection.localPort == local.port
    && o.connection.remoteIp == remote.ip
    && o.connection.remotePort == remote.port
    && o.connection.process.Some?
    && TimeDifference(o.observedAt, timestamp) <= window
  }

  function Matching(store: seq<ObservedConnection>, protocol: NetworkProtocol, local: SocketAddr, remote: SocketAddr,
                    timestamp: Time, window: nat): seq<ObservedConnection>
  {
    if store == [] then []
    else
      (if Fits(store[0], protocol, local, remote, timestamp, window) then [store[0]] else [])
      + Matching(store[1..], protocol, local, remote, timestamp, window)
  }

  /** The ids whose observation explains the request. */
  ghost function Candidates(contents: map<u64, ObservedConnection>, protocol: NetworkProtocol, local: SocketAddr,
                            remote: SocketAddr, timestamp: Time, window: nat): set<u64>
  {
    set id | id in contents && Fits(contents[id], protocol, local, remote, timestamp, window)
  }

  /** The outcome of a lookup: the request, annotated when exactly one observation explains it. */
  function Correlated(store: seq<ObservedConnection>, request: HttpRequestInfo, protocol: NetworkProtocol,
                      local: SocketAddr, remote: SocketAddr, timestamp: Time, window: nat): (bool, HttpRequestInfo)
  {
    var matching := Matching(store, protocol, local, remote, timestamp, window);
    if |matching| != 1 then (false, request)
    else
      var c := matching[0].connection;
      (true, request.(connectionId := Some(c.id), process := c.process))
  }

  /**
   A lookup succeeds exactly when the map holds one and only one explanation, inside the inclusive symmetric
   window; it then names that connection and its known process, and otherwise leaves the request alone.
   */
  lemma CorrelationIsUniqueMatch(store: seq<ObservedConnection>, request: HttpRequestInfo, protocol: NetworkProtocol,
                                 local: SocketAddr, remote: SocketAddr, timestamp: Time, window: nat)
    requires UniqueIds(store)
    ensures var (matched, updated) := Correlated(store, request, protocol, local, remote, timestamp, window);
            var ids := Candidates(Contents(store), protocol, local, remote, timestamp, window);
            && (matched <==> exists id :: ids == {id})
            && (!matched ==> updated == request)
            && (matched ==>
                  && updated.connectionId.Some? && ids == {updated.connectionId.value}
                  && updated.process == Contents(store)[updated.connectionId.value].connection.process
                  && updated.process.Some?
                  && request == updated.(connectionId := request.connectionId, process := request.process))
  {
    hide Contents, Fits, UniqueIds, Candidates;
    var matching := Matching(store, protocol, local, remote, timestamp, window);
    var ids := Candidates(Contents(store), protocol, local, remote, timestamp, window);
    CandidatesMatch(store, protocol, local, remote, timestamp, window);
    if |matching| == 1 {
      FittingIsKnown(matching[0], protocol, local, remote, timestamp, window);
      assert ids == {matching[0].connection.id};
    } else if |matching| >= 2 {
      TwoDiffer(matching);
      assert matching[0].connection.id in ids && matching[1].connection.id in ids;
    }
  }

  /** The outcome of a lookup does not depend on the order in which the vector keeps its entries. */
  lemma CorrelationIgnoresOrder(a: seq<ObservedConnection>, b: seq<ObservedConnection>, request: HttpRequestInfo,
                                protocol: NetworkProtocol, local: SocketAddr, remote: SocketAddr, timestamp: Time,
                                window: nat)
    requires UniqueIds(a) && UniqueIds(b) && forall o :: o in a <==> o in b
    ensures Correlated(a, request, protocol, local, remote, timestamp, window)
         == Correlated(b, request, protocol, local, remote, timestamp, window)
  {
    hide Correlated, Contents, UniqueIds, Candidates;
    OrderIsIrrelevant(a, b);
    CorrelationIsUniqueMatch(a, request, protocol, local, remote, timestamp, window);
    CorrelationIsUniqueMatch(b, request, protocol, local, remote, timestamp, window);
    var (_, updatedA) := Correlated(a, request, protocol, local, remote, timestamp, window);
    var (matched, updatedB) := Correlated(b, request, protocol, local, remote, timestamp, window);
    if matched {
      assert updatedA.connectionId.value in {updatedB.connectionId.value};
    }
  }

  /**
   A request that travels over a connection observed within the window is traced back to it, whatever else
   is stored, as long as no other observation explains it too.
   */
  lemma ObservedConnectionIsFound(store: seq<ObservedConnection>, c: NetworkConnection, seenAt: Time,
                                  request: HttpRequestInfo, timestamp: Time, window: nat)
    requires UniqueIds(store) && c.process.Some? && TimeDifference(seenAt, timestamp) <= window
    requires forall o | o in store && o.connection.id != c.id ::
               !Fits(o, c.protocol, SocketAddr(c.localIp, c.localPort), SocketAddr(c.remoteIp, c.remotePort), timestamp,
                     window)
    ensures Correlated(Observe(store, c, seenAt), request, c.protocol, SocketAddr(c.localIp, c.localPort),
                       SocketAddr(c.remoteIp, c.remotePort), timestamp, window)
         == (true, request.(connectionId := Some(c.id), process := c.process))
  {
    var local, remote := SocketAddr(c.localIp, c.localPort), SocketAddr(c.remoteIp, c.remotePort);
    var o, after := ObservedConnection(c, seenAt), Observe(store, c, seenAt);
    assert Fits(o, c.protocol, local, remote, timestamp, window);
    hide Fits, Contents, UniqueIds, Observe, Correlated;
    ContentsLists(store);
    ObserveRefinesMapUpdate(store, c, seenAt);
    CorrelationIsUniqueMatch(after, request, c.protocol, local, remote, timestamp, window);
    assert Candidates(Contents(after), c.protocol, local, remote, timestamp, window) == {c.id};
  }

  lemma CandidatesMatch(store: seq<ObservedConnection>, protocol: NetworkProtocol, local: SocketAddr,
                        remote: SocketAddr, timestamp: Time, window: nat)
    requires UniqueIds(store)
    ensures var matching := Matching(store, protocol, local, remote, timestamp, window);
            && UniqueIds(matching)
            && Candidates(Contents(store), protocol, local, remote, timestamp, window)
               == (set i | 0 <= i < |matching| :: matching[i].connection.id)
            && forall i | 0 <= i < |matching| ::
                 && Fits(matching[i], protocol, local, remote, timestamp, window)
                 && matching[i].connection.id in Contents(store)
                 && Contents(store)[matching[i].connection.id] == matching[i]
  {
    hide Contents, Fits, UniqueIds;
    var matching := Matching(store, protocol, local, remote, timestamp, window);
    ContentsLists(store);
    MatchingIsExact(store, protocol, local, remote, timestamp, window);
    assert forall i | 0 <= i < |matching| :: matching[i] in matching;
    forall id | id in Candidates(Contents(store), protocol, local, remote, timestamp, window)
      ensures exists i | 0 <= i < |matching| :: matching[i].connection.id == id
    {
      assert Contents(store)[id] in matching;
      var i :| 0 <= i < |matching| && matching[i] == Contents(store)[id];
    }
  }

  lemma FittingIsKnown(o: ObservedConnection, protocol: NetworkProtocol, local: SocketAddr, remote: SocketAddr,
                       timestamp: Time, window: nat)
    requires Fits(o, protocol, local, remote, timestamp, window)
    ensures o.connection.process.Some?
  {
  }

  lemma TwoDiffer(store: seq<ObservedConnection>)
    requires UniqueIds(store) && |store| >= 2
    ensures store[0].connection.id != store[1].connection.id
  {
  }

  lemma {:induction false} MatchingIsExact(store: seq<ObservedConnection>, protocol: NetworkProtocol, local: SocketAddr,
                                           remote: SocketAddr, timestamp: Time, window: nat)
    requires UniqueIds(store)
    ensures var matching := Matching(store, protocol, local, remote, timestamp, window);
            && UniqueIds(matching)
            && forall o :: o in matching <==> o in store && Fits(o, protocol, local, remote, timestamp, window)
  {
    if store != [] {
      MatchingIsExact(store[1..], protocol, local, remote, timestamp, window);
      assert store == [store[0]] + store[1..];
      forall o | o in store[1..] ensures o.connection.id != store[0].connection.id {
        var i :| 1 <= i < |store| && store[i] == o;
      }
    }
  }

  class TrafficCorrelator {
    const timeWindow: nat
    var connections: seq<ObservedConnection>

    ghost predicate Valid()
      reads this
    {
      UniqueIds(connections)
    }

    constructor (timeWindow: nat)
      ensures Valid() && connections == [] && this.timeWindow == timeWindow
    {
      this.timeWindow := timeWindow;
      connections := [];
    }

    method ObserveConnection(connection: NetworkConnection, observedAt: Time)
      requires Valid()
      modifies this
      ensures Valid() && connections == Observe(old(connections), connection, observedAt)
      ensures Contents(connections)
           == old(Contents(connections))[connection.id := ObservedConnection(connection, observedAt)]
    {
      ObserveRefinesMapUpdate(connections, connection, observedAt);
      var i := Find(connections, connection.id);
      if i < |connections| {
        connections := connections[i := ObservedConnection(connection, observedAt)];
      } else {
        connections := connections + [ObservedConnection(connection, observedAt)];
      }
    }

    /** Walks the matches until a second one is found, as the lazy iterator does. */
    method CorrelateHttpRequest(request: HttpRequestInfo, protocol: NetworkProtocol, local: SocketAddr,
                                remote: SocketAddr, timestamp: Time)
      returns (matched: bool, updated: HttpRequestInfo)
      requires Valid()
      ensures (matched, updated) == Correlated(connections, request, protocol, local, remote, timestamp, timeWindow)
    {
      var first := NextMatch(0, protocol, local, remote, timestamp);
      matched, updated := false, request;
      if first < |connections| {
        var second := NextMatch(first + 1, protocol, local, remote, timestamp);
        assert connections[first..][1..] == connections[first + 1..];
        if second == |connections| {
          var c := connections[first].connection;
          matched, updated := true, request.(connectionId := Some(c.id), process := c.process);
        } else {
          assert connections[second..][1..] == connections[second + 1..];
        }
      }
    }

    /** The next match at or after `start`: everything between is skipped. */
    method NextMatch(start: nat, protocol: NetworkProtocol, local: SocketAddr, remote: SocketAddr, timestamp: Time)
      returns (i: nat)
      requires start <= |connections|
      ensures start <= i <= |connections|
      ensures i < |connections| ==> Fits(connections[i], protocol, local, remote, timestamp, timeWindow)
      ensures Matching(connections[start..], protocol, local, remote, timestamp, timeWindow)
           == Matching(connections[i..], protocol, local, remote, timestamp, timeWindow)
    {
      i := start;
      while i < |connections| && !Fits(connections[i], protocol, local, remote, timestamp, timeWindow)
        invariant start <= i <= |connections|
        invariant Matching(connections[start..], protocol, local, remote, timestamp, timeWindow)
               == Matching(connections[i..], protocol, local, remote, timestamp, timeWindow)
      {
        assert connections[i..][1..] == connections[i + 1..];
        i := i + 1;
      }
    }
  }
}
