/** Shared data of the traffic pipeline: packets, connections, tracker events and HTTP requests. */
module Core {

  datatype Option<+T> = None | Some(value: T)

  // Machine integers are subset types of int, so every saturation is written out.
  const U16_MAX: nat := 0xFFFF
  const U64_MAX: nat := 0xFFFF_FFFF_FFFF_FFFF
  const I64_MAX: nat := 0x7FFF_FFFF_FFFF_FFFF

  /** The tag bit that separates HTTP row ids from connection ids. */
  const HTTP_TAG: nat := 0x8000_0000_0000_0000

  type u16 = n: int | 0 <= n <= 0xFFFF
  type u32 = n: int | 0 <= n <= 0xFFFF_FFFF
  type u64 = n: int | 0 <= n <= 0xFFFF_FFFF_FFFF_FFFF

  /** Nanoseconds relative to the Unix epoch; clocks may run backwards. */
  type Time = int

  const SECOND: nat := 1_000_000_000

  function Saturate(n: nat): u64 {
    if n <= U64_MAX then n else U64_MAX
  }

  function SaturatingAdd(a: u64, b: u64): u64 {
    Saturate(a + b)
  }

  /** A saturated number is the largest 64-bit integer that does not exceed it. */
  lemma SaturateIsLargestBelow(n: nat, a: u64, b: u64, m: u64)
    ensures Saturate(n) <= n && (m <= n ==> m <= Saturate(n))
    ensures SaturatingAdd(a, b) <= a + b && (m <= a + b ==> m <= SaturatingAdd(a, b))
  {
  }

  datatype NetworkProtocol = TCP | UDP | HTTP | HTTPS | TLS | QUIC | UNKNOWN

  datatype ConnectionDirection = Inbound | Outbound

  datatype IpVersion = IpVersion4 | IpVersion6

  /** An address is its family and its canonical text. */
  datatype IpAddr = V4(text: string) | V6(text: string)

  datatype SocketAddr = SocketAddr(ip: IpAddr, port: u16)

  datatype ProcessInfo = ProcessInfo(pid: u32, name: string, executablePath: Option<string>)

  datatype NetworkConnection = NetworkConnection(
    id: u64,
    process: Option<ProcessInfo>,
    protocol: NetworkProtocol,
    ipVersion: IpVersion,
    direction: ConnectionDirection,
    localIp: IpAddr,
    localPort: u16,
    remoteIp: IpAddr,
    remotePort: u16,
    hostname: Option<string>,
    bytesSent: u64,
    bytesReceived: u64)

  datatype CapturedPacket = CapturedPacket(
    timestamp: Time,
    protocol: NetworkProtocol,
    ipVersion: IpVersion,
    direction: ConnectionDirection,
    sourceIp: IpAddr,
    sourcePort: Option<u16>,
    destinationIp: IpAddr,
    destinationPort: Option<u16>,
    packetSize: u64,
    process: Option<ProcessInfo>,
    tcpFin: bool,
    tcpRst: bool)

  datatype NetworkEvent =
    | PacketCaptured(packet: CapturedPacket)
    | ConnectionOpened(connection: NetworkConnection)
    | ConnectionUpdated(connection: NetworkConnection)
    | ConnectionClosed(id: u64)

  datatype HttpHeader = HttpHeader(name: string, value: string)

  datatype HttpRequestInfo = HttpRequestInfo(
    id: u64,
    connectionId: Option<u64>,
    process: Option<ProcessInfo>,
    method_: string,
    scheme: string,
    host: string,
    path: string,
    requestHeaders: seq<HttpHeader>,
    requestBody: Option<seq<int>>,
    requestBodySize: u64,
    statusCode: Option<u16>,
    responseHeaders: seq<HttpHeader>,
    responseBody: Option<seq<int>>,
    responseBodySize: Option<u64>,
    startedAt: Time,
    durationMs: Option<nat>,
    ja4: Option<string>)

  /** True when the event is a snapshot of connection `id`, that is, it opened or updated it. */
  predicate IsSnapshotOf(e: NetworkEvent, id: u64) {
    (e.ConnectionOpened? || e.ConnectionUpdated?) && e.connection.id == id
  }
}
