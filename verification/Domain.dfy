/** What the user interface shows: rows, processes, and the conversions that make rows from traffic. */
module Domain {
  import opened Core
  import opened Text

  datatype Process = Process(pid: u32, name: string, active: bool, application: bool, hasIcon: bool)

  datatype EventKind = Http | Https | Tls | Tcp | Udp | Quic | Unknown

  function Label(kind: EventKind): string {
    match kind
    case Http => "HTTP"
    case Https => "HTTPS decoded"
    case Tls => "TLS encrypted"
    case Tcp => "TCP"
    case Udp => "UDP"
    case Quic => "QUIC"
    case Unknown => "Unknown"
  }

  const UNKNOWN_PROCESS := "Unknown process"

  datatype Row = Row(
    id: u64,
    pid: Option<u32>,
    process: string,
    method_: string,
    host: string,
    path: string,
    status: Option<u16>,
    kind: EventKind,
    bytesSent: u64,
    bytesReceived: u64,
    packetCount: u64,
    durationMs: Option<u64>,
    local: string,
    remote: string,
    requestHeaders: seq<HttpHeader>,
    responseHeaders: seq<HttpHeader>,
    requestBody: Option<seq<int>>,
    responseBody: Option<seq<int>>,
    ja4: Option<string>,
    ja4Outlier: bool)

  function SearchText(row: Row): string {
    Lower(row.process + " " + row.method_ + " " + row.host + " " + row.path + " "
          + (if row.status.Some? then Decimal(row.status.value) else "---") + " "
          + Label(row.kind) + " " + row.local + " " + row.remote + " "
          + (if row.ja4.Some? then row.ja4.value else ""))
  }

  /** The text of a socket address: IPv6 text stands in brackets. */
  function SocketText(address: SocketAddr): string {
    match address.ip
    case V4(text) => text + ":" + Decimal(address.port)
    case V6(text) => "[" + text + "]" + ":" + Decimal(address.port)
  }

  function KindOf(protocol: NetworkProtocol): EventKind {
    match protocol
    case HTTP => Http
    case HTTPS => Https
    case TLS => Tls
    case TCP => Tcp
    case UDP => Udp
    case QUIC => Quic
    case UNKNOWN => Unknown
  }

  function ProcessName(process: Option<ProcessInfo>): string {
    if process.Some? then process.value.name else UNKNOWN_PROCESS
  }

  function ProcessPid(process: Option<ProcessInfo>): Option<u32> {
    if process.Some? then Some(process.value.pid) else None
  }

  function ToUiConnection(c: NetworkConnection, packetCount: u64): Row {
    var words := SplitWhitespace(Label(KindOf(c.protocol)));
    Row(c.id, ProcessPid(c.process), ProcessName(c.process),
        if words == [] then "Unknown" else words[0],
        if c.hostname.Some? then c.hostname.value else c.remoteIp.text,
        "", None, KindOf(c.protocol), c.bytesSent, c.bytesReceived, packetCount, None,
        SocketText(SocketAddr(c.localIp, c.localPort)), SocketText(SocketAddr(c.remoteIp, c.remotePort)),
        [], [], None, None, None, false)
  }

  /** Sets bit 63 of a 64-bit id: the bit is already set exactly when the id is at least 2^63. */
  function TagHttpId(id: u64): u64 {
    if id < HTTP_TAG then id + HTTP_TAG else id
  }

  function ToUiHttp(r: HttpRequestInfo, local: SocketAddr, remote: SocketAddr): Row {
    Row(TagHttpId(r.id), ProcessPid(r.process), ProcessName(r.process),
        r.method_, r.host, r.path, r.statusCode,
        if EqualsIgnoringCase(r.scheme, "https") then Https else Http,
        r.requestBodySize, if r.responseBodySize.Some? then r.responseBodySize.value else 0, 0,
        if r.durationMs.Some? && r.durationMs.value <= U64_MAX then Some(r.durationMs.value) else None,
        SocketText(local), SocketText(remote),
        r.requestHeaders, r.responseHeaders, r.requestBody, r.responseBody, r.ja4, false)
  }

  // ----- What the rows say -----

  /** An address reads as its ip, in brackets for IPv6, a colon and the port in decimal. */
  predicate ReadsAs(text: string, ip: IpAddr, port: u16) {
    if ip.V4? then text == ip.text + ":" + Decimal(port) else text == "[" + ip.text + "]:" + Decimal(port)
  }

  /** The row names the process, or says that it is unknown. */
  predicate NamesProcess(row: Row, process: Option<ProcessInfo>) {
    if process.Some? then row.pid == Some(process.value.pid) && row.process == process.value.name
    else row.pid == None && row.process == "Unknown process"
  }

  /** Kind and method of a connection's row, by protocol. */
  predicate IsKindFor(row: Row, protocol: NetworkProtocol) {
    match protocol
    case HTTP => row.kind == Http && row.method_ == "HTTP"
    case HTTPS => row.kind == Https && row.method_ == "HTTPS"
    case TLS => row.kind == Tls && row.method_ == "TLS"
    case TCP => row.kind == Tcp && row.method_ == "TCP"
    case UDP => row.kind == Udp && row.method_ == "UDP"
    case QUIC => row.kind == Quic && row.method_ == "QUIC"
    case UNKNOWN => row.kind == Unknown && row.method_ == "Unknown"
  }

  /** The fields that only requests fill are empty. */
  predicate HasNoRequest(row: Row) {
    && row.path == "" && row.status == None && row.durationMs == None && row.ja4 == None && !row.ja4Outlier
    && row.requestHeaders == [] && row.responseHeaders == [] && row.requestBody == None && row.responseBody == None
  }

  /** A connection's row says everything the snapshot says, and how many packets were counted. */
  lemma ConnectionRowSays(c: NetworkConnection, packetCount: u64)
    ensures var row := ToUiConnection(c, packetCount);
            && row.id == c.id && row.packetCount == packetCount
            && row.bytesSent == c.bytesSent && row.bytesReceived == c.bytesReceived
            && IsKindFor(row, c.protocol) && NamesProcess(row, c.process)
            && row.host == (if c.hostname.Some? then c.hostname.value else c.remoteIp.text)
            && ReadsAs(row.local, c.localIp, c.localPort) && ReadsAs(row.remote, c.remoteIp, c.remotePort)
            && HasNoRequest(row)
  {
    hide SplitWhitespace, Label, Decimal, IsKindFor, ReadsAs, SocketText;
    KindFollowsProtocol(c, packetCount);
    SocketTextReads(SocketAddr(c.localIp, c.localPort));
    SocketTextReads(SocketAddr(c.remoteIp, c.remotePort));
  }

  lemma KindFollowsProtocol(c: NetworkConnection, packetCount: u64)
    ensures IsKindFor(ToUiConnection(c, packetCount), c.protocol)
  {
    hide SplitWhitespace, Label, Decimal, SocketText;
    LabelsBegin();
  }

  lemma SocketTextReads(address: SocketAddr)
    ensures ReadsAs(SocketText(address), address.ip, address.port)
  {
    hide Decimal;
    if address.ip.V6? {
      var digits := Decimal(address.port);
      assert "[" + address.ip.text + "]" + ":" + digits == "[" + address.ip.text + "]:" + digits;
    }
  }

  lemma LabelsBegin()
    ensures SplitWhitespace(Label(Http)) == ["HTTP"] && SplitWhitespace(Label(Https)) == ["HTTPS", "decoded"]
    ensures SplitWhitespace(Label(Tls)) == ["TLS", "encrypted"] && SplitWhitespace(Label(Tcp)) == ["TCP"]
    ensures SplitWhitespace(Label(Udp)) == ["UDP"] && SplitWhitespace(Label(Quic)) == ["QUIC"]
    ensures SplitWhitespace(Label(Unknown)) == ["Unknown"]
  {
    hide SplitWhitespace;
    SplitSingle("HTTP");
    SplitSingle("HTTPS");
    SplitSingle("decoded");
    SplitSingle("TLS");
    SplitSingle("encrypted");
    SplitSingle("TCP");
    SplitSingle("UDP");
    SplitSingle("QUIC");
    SplitSingle("Unknown");
    SplitJoined("HTTPS", ' ', "decoded");
    SplitJoined("TLS", ' ', "encrypted");
    assert "HTTPS" + [' '] + "decoded" == "HTTPS decoded";
    assert "TLS" + [' '] + "encrypted" == "TLS encrypted";
  }

  /** A request's row says everything the request says, under its tagged id and between the given ends. */
  lemma RequestRowSays(r: HttpRequestInfo, local: SocketAddr, remote: SocketAddr)
    ensures var row := ToUiHttp(r, local, remote);
            && row.id == 0x8000_0000_0000_0000 + r.id % 0x8000_0000_0000_0000
            && NamesProcess(row, r.process)
            && row.method_ == r.method_ && row.host == r.host && row.path == r.path && row.status == r.statusCode
            && (row.kind == Https <==> EqualsIgnoringCase(r.scheme, "https")) && row.kind in {Http, Https}
            && row.bytesSent == r.requestBodySize && row.packetCount == 0
            && row.bytesReceived == (if r.responseBodySize.Some? then r.responseBodySize.value else 0)
            && (row.durationMs.Some? <==> r.durationMs.Some? && r.durationMs.value <= 0xFFFF_FFFF_FFFF_FFFF)
            && (row.durationMs.Some? ==> row.durationMs.value == r.durationMs.value)
            && ReadsAs(row.local, local.ip, local.port) && ReadsAs(row.remote, remote.ip, remote.port)
            && row.requestHeaders == r.requestHeaders && row.responseHeaders == r.responseHeaders
            && row.requestBody == r.requestBody && row.responseBody == r.responseBody
            && row.ja4 == r.ja4 && !row.ja4Outlier
  {
    hide Decimal, EqualsIgnoringCase, ReadsAs, SocketText;
    SocketTextReads(local);
    SocketTextReads(remote);
  }
}
