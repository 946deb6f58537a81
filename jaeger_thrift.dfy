/**
 * Identifier, port and address conversions to Zipkin's signed Thrift fields,
 * and the Zipkin annotations added to a span before it is encoded.
 */
module JaegerThrift {
  import opened Wrappers
  import opened Strings
  import opened ZipkinCore
  import opened Spans

  const MaxSignedPort := 0x7fff
  const MaxUnsignedPort := 0x1_0000
  const MaxSignedId := 0x7fff_ffff_ffff_ffff
  const MaxUnsignedId := 0x1_0000_0000_0000_0000

  /**
   * `id_to_int`: Zipkin ids are Thrift `i64`, so an unsigned id above
   * 2^63 - 1 is sent as the negative number with the same 64 bits.
   */
  function IdToInt(bigId: Option<int>): (r: Option<int>)
    ensures r.Some? <==> bigId.Some?
    ensures bigId.Some? && bigId.value > MaxSignedId ==> r.value == bigId.value - MaxUnsignedId
    ensures bigId.Some? && bigId.value <= MaxSignedId ==> r.value == bigId.value
    ensures bigId.Some? && 0 <= bigId.value < MaxUnsignedId ==>
      && -0x8000_0000_0000_0000 <= r.value <= MaxSignedId
      && r.value % MaxUnsignedId == bigId.value
      && (r.value < 0 <==> bigId.value > MaxSignedId)
  {
    match bigId
    case None => None
    case Some(id) => if id > MaxSignedId then Some(id - MaxUnsignedId) else Some(id)
  }

  /** Reads a signed 64-bit wire id back as the unsigned id it encodes. */
  function UnsignedId(wire: int): (id: nat)
    ensures id < MaxUnsignedId
  {
    wire % MaxUnsignedId
  }

  /** The integer branch of `port_to_int`: ports above 2^15 - 1 become negative `i16` values. */
  function WrapPort(port: int): (r: int)
    ensures 0 <= port < MaxUnsignedPort ==>
      -0x8000 <= r <= MaxSignedPort && r % MaxUnsignedPort == port && (r < 0 <==> port > MaxSignedPort)
    ensures port <= MaxSignedPort ==> r == port
  {
    if port > MaxSignedPort then port - MaxUnsignedPort else port
  }

  /**
   * `port_to_int`: a digit string is first read as a decimal integer; an integer
   * is wrapped into `i16`; anything else gives `None`.
   */
  function PortToInt(port: PortArg): (r: Option<int>)
    ensures r.Some? <==> port.PortNumber? || (port.PortText? && IsDigitString(port.text))
    ensures port.PortNumber? ==> r == Some(WrapPort(port.number))
    ensures port.PortText? && IsDigitString(port.text) ==> r == Some(WrapPort(DecimalValue(port.text)))
  {
    match port
    case PortText(s) => if IsDigitString(s) then Some(WrapPort(DecimalValue(s))) else None
    case PortNumber(n) => Some(WrapPort(n))
    case PortOther => None
  }

  type Byte = b: int | 0 <= b < 256

  /** The four bytes of a packed IPv4 address, in network order. */
  datatype Quad = Quad(b0: Byte, b1: Byte, b2: Byte, b3: Byte)

  /** The socket library's `inet_aton`: a packed address, or `None` where it raises. */
  type InetAton = string -> Option<Quad>

  /** `struct.unpack('!i', ...)`: the bytes read as a big-endian signed 32-bit integer. */
  function UnpackSignedInt(q: Quad): (r: int)
    ensures -0x8000_0000 <= r < 0x8000_0000
    ensures r % 0x1_0000_0000 == ((q.b0 * 256 + q.b1) * 256 + q.b2) * 256 + q.b3
  {
    var u := ((q.b0 * 256 + q.b1) * 256 + q.b2) * 256 + q.b3;
    if u >= 0x8000_0000 then u - 0x1_0000_0000 else u
  }

  /** The loopback names that `ipv4_to_int` rewrites before parsing. */
  function LoopbackAlias(ipv4: string): string {
    if ipv4 == "localhost" || ipv4 == "::1" then "127.0.0.1" else ipv4
  }

  /** `ipv4_to_int`: never fails; an address the parser rejects becomes 0. */
  function Ipv4ToInt(aton: InetAton, ipv4: string): (r: int)
    ensures -0x8000_0000 <= r < 0x8000_0000
    ensures aton(LoopbackAlias(ipv4)).None? ==> r == 0
  {
    match aton(LoopbackAlias(ipv4))
    case None => 0
    case Some(q) => UnpackSignedInt(q)
  }

  lemma LoopbackAliases(aton: InetAton)
    ensures Ipv4ToInt(aton, "localhost") == Ipv4ToInt(aton, "127.0.0.1")
    ensures Ipv4ToInt(aton, "::1") == Ipv4ToInt(aton, "127.0.0.1")
  {
  }

  /**
   * `make_endpoint`: a textual address is resolved, a numeric one kept; a port
   * that cannot be read becomes 0; the service name is lower-cased.
   */
  function MakeEndpoint(aton: InetAton, ipv4: Ipv4Arg, port: PortArg, serviceName: string): (e: Endpoint)
    ensures e.serviceName == Lower(serviceName)
    ensures e.port == PortToInt(port).GetOr(0)
    ensures ipv4.Ipv4Number? ==> e.ipv4 == ipv4.number
    ensures ipv4.Ipv4Text? ==> e.ipv4 == Ipv4ToInt(aton, ipv4.text) && -0x8000_0000 <= e.ipv4 < 0x8000_0000
  {
    var address := match ipv4 case Ipv4Text(s) => Ipv4ToInt(aton, s) case Ipv4Number(n) => n;
    var p := PortToInt(port);
    Endpoint(address, if p.None? then 0 else p.value, Lower(serviceName))
  }

  /** `make_event`: an event with the given time and name and, as yet, no host. */
  function MakeEvent(timestamp: int, name: string): (a: Annotation)
    ensures a.timestamp == timestamp && a.value == name && a.host.None?
  {
    Annotation(timestamp, name, None)
  }

  /** A client/server address tag: Zipkin models it as a BOOL annotation valued '0x01'. */
  function MakePeerAddressTag(key: string, host: Endpoint): (b: BinaryAnnotation)
    ensures b.key == key && b.value == "0x01" && b.annotationType == BOOL && b.host == Some(host)
  {
    BinaryAnnotation(key, "0x01", BOOL, Some(host))
  }

  /** The `lc` tag: a STRING annotation naming the component, hosted at the endpoint. */
  function MakeLocalComponentTag(componentName: string, endpoint: Endpoint): (b: BinaryAnnotation)
    ensures b.key == LocalComponent && b.value == componentName && b.annotationType == STRING
    ensures b.host == Some(endpoint)
  {
    BinaryAnnotation(LocalComponent, componentName, STRING, Some(endpoint))
  }

  /** The peer's endpoint, with the defaults `add_zipkin_annotations` uses for missing keys. */
  function PeerEndpoint(aton: InetAton, peer: Peer): (e: Endpoint)
    ensures peer.ipv4.None? ==> e.ipv4 == 0
    ensures peer.port.None? ==> e.port == 0
    ensures peer.serviceName.None? ==> e.serviceName == ""
    ensures peer.serviceName.Some? ==> e.serviceName == Lower(peer.serviceName.value)
    ensures peer.ipv4.Some? && peer.ipv4.value.Ipv4Text? ==> e.ipv4 == Ipv4ToInt(aton, peer.ipv4.value.text)
    ensures peer.ipv4.Some? && peer.ipv4.value.Ipv4Number? ==> e.ipv4 == peer.ipv4.value.number
    ensures peer.port.Some? ==> e.port == PortToInt(peer.port.value).GetOr(0)
  {
    MakeEndpoint(aton, peer.ipv4.GetOr(Ipv4Number(0)), peer.port.GetOr(PortNumber(0)), peer.serviceName.GetOr(""))
  }

  /** `span.component or span.tracer.service_name`. */
  function ComponentName(span: Span): (name: string)
    ensures span.component.Some? && span.component.value != "" ==> name == span.component.value
    ensures span.component.None? || span.component.value == "" ==> name == span.tracer.serviceName
  {
    if span.component.None? || span.component.value == "" then span.tracer.serviceName
    else span.component.value
  }

  /** The log events `add_zipkin_annotations` appends: RPC end, then RPC start. */
  function AddedLogs(span: Span, endpoint: Endpoint): (r: seq<Annotation>)
    ensures span.IsRpc() ==> |r| == 2
    ensures span.kind == RpcClient ==>
      r == [Annotation(span.endTime, ClientRecv, Some(endpoint)), Annotation(span.startTime, ClientSend, Some(endpoint))]
    ensures span.kind == RpcServer ==>
      r == [Annotation(span.endTime, ServerSend, Some(endpoint)), Annotation(span.startTime, ServerRecv, Some(endpoint))]
    ensures !span.IsRpc() ==> r == []
  {
    if span.IsRpc() then
      var isClient := span.kind == RpcClient;
      var endEvent := MakeEvent(span.endTime, if isClient then ClientRecv else ServerSend).(host := Some(endpoint));
      var startEvent := MakeEvent(span.startTime, if isClient then ClientSend else ServerRecv).(host := Some(endpoint));
      [endEvent, startEvent]
    else
      []
  }

  /** The tags `add_zipkin_annotations` appends: a peer address, or the local component. */
  function AddedTags(aton: InetAton, span: Span, endpoint: Endpoint): (r: seq<BinaryAnnotation>)
    ensures span.IsRpc() && HasPeer(span.peer) ==>
      && |r| == 1
      && r[0].key == (if span.kind == RpcClient then ServerAddr else ClientAddr)
      && r[0].annotationType == BOOL && r[0].value == "0x01"
      && r[0].host == Some(PeerEndpoint(aton, span.peer.value))
    ensures span.IsRpc() && !HasPeer(span.peer) ==> r == []
    ensures !span.IsRpc() ==> r == [BinaryAnnotation(LocalComponent, ComponentName(span), STRING, Some(endpoint))]
  {
    if span.IsRpc() then
      if HasPeer(span.peer) then
        var key := if span.kind == RpcClient then ServerAddr else ClientAddr;
        [MakePeerAddressTag(key, PeerEndpoint(aton, span.peer.value))]
      else
        []
    else
      [MakeLocalComponentTag(ComponentName(span), endpoint)]
  }

  /**
   * `add_zipkin_annotations`: appends the Zipkin RPC events and the
   * address or local-component tag; existing logs and tags are untouched.
   */
  method AddZipkinAnnotations(aton: InetAton, span: Span, endpoint: Endpoint)
    modifies span
    ensures span.logs == old(span.logs) + AddedLogs(span, endpoint)
    ensures span.tags == old(span.tags) + AddedTags(aton, span, endpoint)
  {
    if span.IsRpc() {
      var isClient := span.kind == RpcClient;

      var endEvent := MakeEvent(span.endTime, if isClient then ClientRecv else ServerSend);
      endEvent := endEvent.(host := Some(endpoint));
      span.logs := span.logs + [endEvent];

      var startEvent := MakeEvent(span.startTime, if isClient then ClientSend else ServerRecv);
      startEvent := startEvent.(host := Some(endpoint));
      span.logs := span.logs + [startEvent];

      if HasPeer(span.peer) {
        var host := PeerEndpoint(aton, span.peer.value);
        var key := if isClient then ServerAddr else ClientAddr;
        span.tags := span.tags + [MakePeerAddressTag(key, host)];
      }
    } else {
      span.tags := span.tags + [MakeLocalComponentTag(ComponentName(span), endpoint)];
    }
  }
}
