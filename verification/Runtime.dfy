/**
 The runtime worker: it folds tracker events and proxy events into packet counts, the correlator, the
 database and the queue of messages for the user interface.
 */
module Runtime {
  import opened Core
  import opened Tracker
  import opened Correlator
  import opened Storage
  import opened Domain

  datatype RuntimeEvent =
    | Connection(row: Row)
    | Closed(id: u64)
    | Processes(processes: seq<Process>)
    | Warning(message: string)
    | Error(message: string)

  /** The messages that do not come from traffic. */
  type Notice = e: RuntimeEvent | e.Processes? || e.Warning? || e.Error? witness Warning("")

  datatype ProxyEvent = ProxyEvent(clientAddress: SocketAddr, request: HttpRequestInfo)

  /** One thing the worker handles, with the clock readings and the process lookup it makes on the way. */
  datatype RuntimeInput =
    | Net(event: NetworkEvent, observedAt: Time, savedAt: Time)
    | Proxy(proxyEvent: ProxyEvent, proxyAddress: SocketAddr, resolved: Option<ProcessInfo>, now: Time)
    | Notify(notice: Notice)

  /** `tables` is None when the database could not be opened. */
  datatype RuntimeState = RuntimeState(
    packetCounts: map<u64, u64>, observed: seq<ObservedConnection>, tables: Option<Tables>, queue: seq<RuntimeEvent>)

  function NextCount(counts: map<u64, u64>, id: u64): u64 {
    SaturatingAdd(if id in counts then counts[id] else 0, 1)
  }

  ghost function Saved(tables: Option<Tables>, save: Save): Option<Tables> {
    if tables.Some? then Some(Apply(tables.value, save).0) else None
  }

  ghost function AfterNetworkEvent(s: RuntimeState, e: NetworkEvent, observedAt: Time, savedAt: Time): RuntimeState {
    match e
    case PacketCaptured(_) => s
    case ConnectionClosed(id) =>
      s.(packetCounts := s.packetCounts - {id}, queue := s.queue + [Closed(id)])
    case _ => AfterSnapshot(s, e.connection, observedAt, savedAt)
  }

  /** Opening and updating are handled alike: count, observe, save and show. */
  ghost function AfterSnapshot(s: RuntimeState, c: NetworkConnection, observedAt: Time, savedAt: Time): RuntimeState {
    var count := NextCount(s.packetCounts, c.id);
    RuntimeState(
      s.packetCounts[c.id := count],
      Observe(s.observed, c, observedAt),
      Saved(s.tables, PutConnection(c, savedAt)),
      s.queue + [Connection(ToUiConnection(c, count))])
  }

  /** The request as it is stored and shown: correlated if possible, else with the resolver's process. */
  function AnnotatedRequest(observed: seq<ObservedConnection>, e: ProxyEvent, proxyAddress: SocketAddr,
                            resolved: Option<ProcessInfo>, now: Time): HttpRequestInfo
  {
    var (matched, request) :=
      Correlated(observed, e.request, TCP, e.clientAddress, proxyAddress, now, DEFAULT_WINDOW);
    if matched then request else request.(process := resolved)
  }

  ghost function AfterProxyEvent(s: RuntimeState, e: ProxyEvent, proxyAddress: SocketAddr,
                                 resolved: Option<ProcessInfo>, now: Time): RuntimeState
  {
    var request := AnnotatedRequest(s.observed, e, proxyAddress, resolved, now);
    s.(tables := Saved(s.tables, PutRequest(request)),
       queue := s.queue + [Connection(ToUiHttp(request, e.clientAddress, proxyAddress))])
  }

  ghost function AfterInput(s: RuntimeState, input: RuntimeInput): RuntimeState {
    match input
    case Net(e, observedAt, savedAt) => AfterNetworkEvent(s, e, observedAt, savedAt)
    case Proxy(e, proxyAddress, resolved, now) => AfterProxyEvent(s, e, proxyAddress, resolved, now)
    case Notify(notice) => s.(queue := s.queue + [notice])
  }

  /** The worker's state after some inputs, starting from the tables found on disk. */
  ghost function RunOf(tables: Option<Tables>, inputs: seq<RuntimeInput>): RuntimeState {
    if inputs == [] then RuntimeState(map[], [], tables, [])
    else AfterInput(RunOf(tables, inputs[..|inputs| - 1]), inputs[|inputs| - 1])
  }

  /** The tracker events among the inputs. */
  function NetEvents(inputs: seq<RuntimeInput>): seq<NetworkEvent> {
    if inputs == [] then []
    else
      var input := inputs[|inputs| - 1];
      NetEvents(inputs[..|inputs| - 1]) + if input.Net? then [input.event] else []
  }

  lemma RunSnocInput(tables: Option<Tables>, inputs: seq<RuntimeInput>, input: RuntimeInput)
    ensures RunOf(tables, inputs + [input]) == AfterInput(RunOf(tables, inputs), input)
    ensures NetEvents(inputs + [input]) == NetEvents(inputs) + if input.Net? then [input.event] else []
  {
    assert (inputs + [input])[..|inputs|] == inputs;
  }

  // ----- The lookup key of the process resolver -----

  /** The local and remote end that the worker asks the process resolver about. */
  function ResolverEndpoints(p: CapturedPacket): Option<(SocketAddr, SocketAddr)> {
    if p.sourcePort.None? || p.destinationPort.None? then None
    else
      var source := SocketAddr(p.sourceIp, p.sourcePort.value);
      var destination := SocketAddr(p.destinationIp, p.destinationPort.value);
      match p.direction
      case Outbound => Some((source, destination))
      case Inbound => Some((destination, source))
  }

  /** The resolver is asked about exactly the endpoints under which the tracker files the packet. */
  lemma ResolverAgreesWithTracker(p: CapturedPacket)
    ensures match FromPacket(p)
            case None => ResolverEndpoints(p) == None
            case Some(k) =>
              ResolverEndpoints(p) == Some((SocketAddr(k.localIp, k.localPort), SocketAddr(k.remoteIp, k.remotePort)))
  {
  }

  type Resolver = (SocketAddr, SocketAddr, NetworkProtocol) -> Option<ProcessInfo>

  /** The packet as it is tracked: with the process that the resolver finds at its endpoints. */
  function WithResolvedProcess(p: CapturedPacket, resolve: Resolver): CapturedPacket {
    var endpoints := ResolverEndpoints(p);
    p.(process := if endpoints.Some? then resolve(endpoints.value.0, endpoints.value.1, p.protocol) else None)
  }

  /** A packet with a key gets the resolver's answer for the two ends and the protocol of that key, others none. */
  lemma TrackedProcessIsAnswer(p: CapturedPacket, resolve: Resolver)
    ensures WithResolvedProcess(p, resolve) == p.(process :=
              match FromPacket(p)
              case None => None
              case Some(k) =>
                resolve(SocketAddr(k.localIp, k.localPort), SocketAddr(k.remoteIp, k.remotePort), k.protocol))
  {
  }

  /** The input hands over this proxy event, with what the resolver finds between client and proxy. */
  predicate Hands(input: RuntimeInput, event: ProxyEvent, proxyAddress: SocketAddr, resolve: Resolver) {
    && input.Proxy? && input.proxyEvent == event && input.proxyAddress == proxyAddress
    && input.resolved == resolve(event.clientAddress, proxyAddress, TCP)
  }

  /** The inputs hand over these tracker events, one each and in order. */
  predicate HandEvents(inputs: seq<RuntimeInput>, events: seq<NetworkEvent>) {
    |inputs| == |events| && forall i | 0 <= i < |inputs| :: inputs[i].Net? && inputs[i].event == events[i]
  }

  /** The inputs hand over these proxy events, one each and in order. */
  predicate HandRequests(inputs: seq<RuntimeInput>, events: seq<ProxyEvent>, proxyAddress: SocketAddr,
                         resolve: Resolver)
  {
    |inputs| == |events| && forall i | 0 <= i < |inputs| :: Hands(inputs[i], events[i], proxyAddress, resolve)
  }

  class RuntimeWorker {
    const tracker: ConnectionTracker
    const correlator: TrafficCorrelator
    const database: Database?
    var packetCounts: map<u64, u64>
    var sent: seq<RuntimeEvent>

    /** The tables found on disk, and everything handled since. */
    ghost var found: Option<Tables>
    ghost var inputs: seq<RuntimeInput>

    ghost function State(): RuntimeState
      reads this, correlator, database
    {
      RuntimeState(
        packetCounts, correlator.connections, if database == null then None else Some(database.Contents()), sent)
    }

    /** The worker is a run of its inputs. */
    ghost predicate Consistent()
      reads this, correlator, database
    {
      && correlator.Valid() && correlator.timeWindow == DEFAULT_WINDOW
      && State() == RunOf(found, inputs)
    }

    /** Between turns every event of the tracker has been handled, in order. */
    ghost predicate Valid()
      reads this, tracker, correlator, database
    {
      Consistent() && tracker.Valid() && NetEvents(inputs) == EventsOf(tracker.turns)
    }

    constructor (database: Database?)
      ensures Valid() && sent == [] && fresh(tracker) && fresh(correlator) && this.database == database
    {
      this.database := database;
      tracker := new ConnectionTracker();
      correlator := new TrafficCorrelator(DEFAULT_WINDOW);
      packetCounts, sent, inputs := map[], [], [];
      found := if database == null then None else Some(database.Contents());
    }

    method Now() returns (time: Time)
    {
      time := *;
    }

    method HandleNetworkEvent(event: NetworkEvent) returns (ghost input: RuntimeInput)
      requires Consistent()
      modifies this, correlator, database
      ensures Consistent() && input.Net? && input.event == event
      ensures inputs == old(inputs) + [input] && found == old(found)
    {
      hide AfterSnapshot, RunOf, NetEvents, UniqueIds;
      ghost var before := inputs;
      var observedAt := Now();
      var savedAt := Now();
      match event {
        case PacketCaptured(_) =>
        case ConnectionClosed(id) =>
          packetCounts := packetCounts - {id};
          sent := sent + [Closed(id)];
        case _ =>
          HandleSnapshot(event.connection, observedAt, savedAt);
      }
      input := Net(event, observedAt, savedAt);
      RunSnocInput(found, before, input);
      inputs := before + [input];
    }

    method HandleSnapshot(connection: NetworkConnection, observedAt: Time, savedAt: Time)
      requires correlator.Valid()
      modifies this`packetCounts, this`sent, correlator, database
      ensures correlator.Valid()
      ensures State() == AfterSnapshot(old(State()), connection, observedAt, savedAt)
    {
      hide Observe, Apply, ToUiConnection, Correlator.Contents, UniqueIds;
      var count := SaturatingAdd(if connection.id in packetCounts then packetCounts[connection.id] else 0, 1);
      packetCounts := packetCounts[connection.id := count];
      correlator.ObserveConnection(connection, observedAt);
      if database != null {
        var _ := database.SaveConnection(connection, savedAt);
      }
      sent := sent + [Connection(ToUiConnection(connection, count))];
    }

    method HandleProxyEvent(event: ProxyEvent, proxyAddress: SocketAddr, resolve: Resolver)
      returns (ghost input: RuntimeInput)
      requires Valid()
      modifies this, correlator, database
      ensures Valid() && Hands(input, event, proxyAddress, resolve)
      ensures inputs == old(inputs) + [input] && found == old(found) && tracker.turns == old(tracker.turns)
    {
      hide Correlated, Apply, ToUiHttp, RunOf, NetEvents, EventsOf, IsRun, StateAfter, UniqueIds;
      ghost var before := inputs;
      var now := Now();
      var resolved := resolve(event.clientAddress, proxyAddress, TCP);
      var correlated, request :=
        correlator.CorrelateHttpRequest(event.request, TCP, event.clientAddress, proxyAddress, now);
      if !correlated {
        request := request.(process := resolved);
      }
      if database != null {
        var _ := database.SaveHttpRequest(request);
      }
      sent := sent + [Connection(ToUiHttp(request, event.clientAddress, proxyAddress))];
      input := Proxy(event, proxyAddress, resolved, now);
      RunSnocInput(found, before, input);
      inputs := before + [input];
    }

    /**
     One pass of the worker loop over a captured packet and the proxy events waiting after it: first the
     events of the packet's turn are handled, then the proxy events.
     */
    method RunOnce(captured: Option<CapturedPacket>, proxyEvents: seq<ProxyEvent>, proxyAddress: SocketAddr,
                   resolve: Resolver)
      returns (ghost nets: seq<RuntimeInput>, ghost proxies: seq<RuntimeInput>)
      requires Valid()
      modifies this, tracker, correlator, database
      ensures Valid() && found == old(found) && inputs == old(inputs) + nets + proxies
      ensures |old(EventsOf(tracker.turns))| <= |EventsOf(tracker.turns)|
      ensures HandEvents(nets, EventsOf(tracker.turns)[|old(EventsOf(tracker.turns))|..])
      ensures HandRequests(proxies, proxyEvents, proxyAddress, resolve)
      ensures captured.None? ==> tracker.turns == old(tracker.turns)
      ensures captured.Some? ==>
                |tracker.turns| == |old(tracker.turns)| + 1 && old(tracker.turns) <= tracker.turns
                && var input := tracker.turns[|old(tracker.turns)|].input;
                   input.Packet? && input.packet == WithResolvedProcess(captured.value, resolve)
    {
      hide RunOf, NetEvents, EventsOf, IsRun, StateAfter, AfterInput, UniqueIds, ResolverEndpoints, Hands;
      hide RuntimeWorker.State, ConnectionTracker.State;
      nets, proxies := [], [];
      ghost var earlier := EventsOf(tracker.turns);
      if captured.Some? {
        var packet := captured.value;
        var endpoints := ResolverEndpoints(packet);
        packet := packet.(
          process := if endpoints.Some? then resolve(endpoints.value.0, endpoints.value.1, packet.protocol) else None);
        var events := tracker.ProcessPacket(packet);
        ghost var taken := tracker.turns;
        assert EventsOf(taken) == earlier + events;
        for n := 0 to |events|
          invariant Consistent() && tracker.Valid() && found == old(found) && tracker.turns == taken
          invariant NetEvents(inputs) == earlier + events[..n]
          invariant inputs == old(inputs) + nets && HandEvents(nets, events[..n])
        {
          ghost var before := inputs;
          ghost var input := HandleNetworkEvent(events[n]);
          RunSnocInput(found, before, input);
          assert events[..n + 1] == events[..n] + [events[n]];
          nets := nets + [input];
        }
        assert events[..|events|] == events;
      }
      ghost var turns := tracker.turns;
      for n := 0 to |proxyEvents|
        invariant Valid() && found == old(found) && tracker.turns == turns
        invariant inputs == old(inputs) + nets + proxies
        invariant HandRequests(proxies, proxyEvents[..n], proxyAddress, resolve)
      {
        ghost var input := HandleProxyEvent(proxyEvents[n], proxyAddress, resolve);
        proxies := proxies + [input];
      }
      assert proxyEvents[..|proxyEvents|] == proxyEvents;
    }
  }
}
