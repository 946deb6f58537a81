/**
 * The Zipkin wire structures (Thrift `zipkincore`) that the encoder fills in,
 * and the Zipkin annotation names it uses.
 */
module ZipkinCore {
  import opened Wrappers

  /** A host: IPv4 address as a signed 32-bit integer, port as a signed 16-bit integer. */
  datatype Endpoint = Endpoint(ipv4: int, port: int, serviceName: string)

  /** A timestamped event of a span (a "log"); timestamps are microseconds. */
  datatype Annotation = Annotation(timestamp: int, value: string, host: Option<Endpoint>)

  datatype AnnotationType = BOOL | BYTES | I16 | I32 | I64 | DOUBLE | STRING

  /** A typed key/value attribute of a span (a "tag"). */
  datatype BinaryAnnotation =
    BinaryAnnotation(key: string, value: string, annotationType: AnnotationType, host: Option<Endpoint>)

  /** The Zipkin `Span` struct; every id is a signed 64-bit value. */
  datatype WireSpan = WireSpan(
    traceId: int,
    traceIdHigh: int,
    name: string,
    id: int,
    parentId: Option<int>,
    annotations: seq<Annotation>,
    binaryAnnotations: seq<BinaryAnnotation>,
    debug: bool,
    timestamp: int,
    duration: int)

  const ClientSend := "cs"
  const ClientRecv := "cr"
  const ServerSend := "ss"
  const ServerRecv := "sr"
  const ClientAddr := "ca"
  const ServerAddr := "sa"
  const LocalComponent := "lc"
}
