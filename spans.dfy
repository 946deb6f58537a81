/**
 * A finished span as the encoder sees it. Everything but its logs and tags is
 * fixed once the span is finished; the encoder appends to `logs` and `tags`.
 */
module Spans {
  import opened Wrappers
  import opened ZipkinCore

  /** The value of the span's `span.kind` tag: RPC client, RPC server, or neither. */
  datatype SpanKind = RpcClient | RpcServer | Local

  /** An address as given: a string to be resolved, or an already numeric address. */
  datatype Ipv4Arg = Ipv4Text(text: string) | Ipv4Number(number: int)

  /** A port as given: a string, an integer, or anything else (`None` included). */
  datatype PortArg = PortText(text: string) | PortNumber(number: int) | PortOther

  /** The span's `peer` dictionary: the keys `ipv4`, `port` and `service_name`, each optional. */
  datatype Peer = Peer(ipv4: Option<Ipv4Arg>, port: Option<PortArg>, serviceName: Option<string>)

  /** The span's `peer` is truthy: it exists and holds at least one key. */
  predicate HasPeer(peer: Option<Peer>) {
    peer.Some? && (peer.value.ipv4.Some? || peer.value.port.Some? || peer.value.serviceName.Some?)
  }

  /** What a span knows about its tracer: the service name and the tracer's own address. */
  datatype TracerInfo = TracerInfo(serviceName: string, ipAddress: Ipv4Arg)

  const SampledFlag := 1
  const DebugFlag := 2

  /** `flags & bit == bit` for a single-bit mask. */
  predicate HasFlag(flags: nat, bit: nat)
    requires bit == SampledFlag || bit == DebugFlag
  {
    (flags / bit) % 2 == 1
  }

  class Span {
    const traceId: nat
    const spanId: nat
    const parentId: Option<nat>
    const operationName: string
    const flags: nat
    const kind: SpanKind
    const peer: Option<Peer>
    const component: Option<string>
    const tracer: TracerInfo
    const startTime: int
    const endTime: int
    var logs: seq<Annotation>
    var tags: seq<BinaryAnnotation>

    constructor (traceId: nat, spanId: nat, parentId: Option<nat>, operationName: string, flags: nat,
                 kind: SpanKind, peer: Option<Peer>, component: Option<string>, tracer: TracerInfo,
                 startTime: int, endTime: int, logs: seq<Annotation>, tags: seq<BinaryAnnotation>)
      ensures this.traceId == traceId && this.spanId == spanId && this.parentId == parentId
      ensures this.operationName == operationName && this.flags == flags && this.kind == kind
      ensures this.peer == peer && this.component == component && this.tracer == tracer
      ensures this.startTime == startTime && this.endTime == endTime
      ensures this.logs == logs && this.tags == tags
    {
      this.traceId, this.spanId, this.parentId := traceId, spanId, parentId;
      this.operationName, this.flags, this.kind := operationName, flags, kind;
      this.peer, this.component, this.tracer := peer, component, tracer;
      this.startTime, this.endTime := startTime, endTime;
      this.logs, this.tags := logs, tags;
    }

    /** `span.is_debug()`: the debug bit of the span's flags. */
    predicate IsDebug() {
      HasFlag(flags, DebugFlag)
    }

    /** `span.is_rpc()`. */
    predicate IsRpc() {
      kind != Local
    }
  }

  /** No span occurs twice in the sequence. */
  predicate Distinct(spans: seq<Span>) {
    forall i, j :: 0 <= i < j < |spans| ==> spans[i] != spans[j]
  }
}
