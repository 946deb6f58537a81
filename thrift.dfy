/** Splitting 128-bit trace ids, and building one Zipkin wire span per finished span. */
module Thrift {
  import opened Wrappers
  import opened ZipkinCore
  import opened Spans
  import opened JaegerThrift
  import opened Strings

  const TwoTo64 := 0x1_0000_0000_0000_0000

  /** `extract_from_trace_id`: the high and the low 64 bits of a trace id. */
  function ExtractFromTraceId(traceId: int): (r: (int, int))
    ensures r.0 * TwoTo64 + r.1 == traceId
    ensures 0 <= r.1 < TwoTo64
    ensures 0 <= traceId < TwoTo64 ==> r.0 == 0
    ensures 0 <= traceId < TwoTo64 * TwoTo64 ==> 0 <= r.0 < TwoTo64
  {
    (traceId / TwoTo64, traceId % TwoTo64)
  }

  /** The wire trace id halves of the trace ids checked in the tests. */
  lemma TraceIdVectors()
    ensures var (hi, lo) := ExtractFromTraceId(0x8000_0000_0000_0000);
      IdToInt(Some(hi)) == Some(0) && IdToInt(Some(lo)) == Some(-0x8000_0000_0000_0000)
    ensures var (hi, lo) := ExtractFromTraceId(0xffff_ffff_ffff_ffff_ffff_ffff_ffff_ffff);
      IdToInt(Some(hi)) == Some(-1) && IdToInt(Some(lo)) == Some(-1)
    ensures var (hi, lo) := ExtractFromTraceId(0x8000_0000_0000_0000_0000_0000_0000_0000);
      IdToInt(Some(hi)) == Some(-0x8000_0000_0000_0000) && IdToInt(Some(lo)) == Some(0)
  {
  }

  /** The wire parent id: the wrapped id, and absent when that is 0 (falsy) or there is no parent. */
  function WireParentId(parentId: Option<nat>): (r: Option<int>)
    ensures parentId.Some? && parentId.value < TwoTo64 ==>
      (r.None? <==> parentId.value == 0) && (r.Some? ==> UnsignedId(r.value) == parentId.value)
    ensures parentId.None? ==> r.None?
  {
    var p := IdToInt(parentId);
    if p.None? || p.value == 0 then None else p
  }

  /** The tracer's own endpoint that `make_zipkin_spans` attaches to a span's events. */
  function LocalEndpoint(aton: InetAton, span: Span): (e: Endpoint)
    ensures e.port == 0 && e.serviceName == Lower(span.tracer.serviceName)
    ensures span.tracer.ipAddress.Ipv4Text? ==> e.ipv4 == Ipv4ToInt(aton, span.tracer.ipAddress.text)
    ensures span.tracer.ipAddress.Ipv4Number? ==> e.ipv4 == span.tracer.ipAddress.number
  {
    MakeEndpoint(aton, span.tracer.ipAddress, PortNumber(0), span.tracer.serviceName)
  }

  /** The events with their host set to `host`. */
  function WithHost(logs: seq<Annotation>, host: Endpoint): (r: seq<Annotation>)
    ensures |r| == |logs|
    ensures forall i :: 0 <= i < |logs| ==> r[i] == logs[i].(host := Some(host))
  {
    seq(|logs|, i requires 0 <= i < |logs| => logs[i].(host := Some(host)))
  }

  /** Sets the host of each of the span's existing events to the endpoint, in place. */
  method SetLogHosts(span: Span, endpoint: Endpoint)
    modifies span
    ensures span.logs == WithHost(old(span.logs), endpoint)
    ensures span.tags == old(span.tags)
  {
    var i := 0;
    while i < |span.logs|
      invariant 0 <= i <= |span.logs| == |old(span.logs)|
      invariant span.logs[..i] == WithHost(old(span.logs)[..i], endpoint)
      invariant span.logs[i..] == old(span.logs)[i..]
      invariant span.tags == old(span.tags)
    {
      span.logs := span.logs[i := span.logs[i].(host := Some(endpoint))];
      assert span.logs[..i + 1] == span.logs[..i] + [span.logs[i]];
      i := i + 1;
    }
  }

  /** The fields of the wire span that come from the span's fixed fields. */
  predicate WireFieldsOf(w: WireSpan, span: Span) {
    var (hi, lo) := ExtractFromTraceId(span.traceId);
    && w.traceId == IdToInt(Some(lo)).value
    && w.traceIdHigh == IdToInt(Some(hi)).value
    && w.name == span.operationName
    && w.id == IdToInt(Some(span.spanId)).value
    && w.parentId == WireParentId(span.parentId)
    && w.debug == span.IsDebug()
    && w.timestamp == span.startTime
    && w.duration == span.endTime - span.startTime
  }

  /**
   * The encoding is lossless for in-range ids: every wire id is a signed
   * 64-bit value, and reading the two trace id halves and the span id back
   * as unsigned values gives the span's ids.
   */
  lemma WireIdsLossless(w: WireSpan, span: Span)
    requires WireFieldsOf(w, span)
    requires span.traceId < TwoTo64 * TwoTo64 && span.spanId < TwoTo64
    ensures -0x8000_0000_0000_0000 <= w.traceId < 0x8000_0000_0000_0000
    ensures -0x8000_0000_0000_0000 <= w.traceIdHigh < 0x8000_0000_0000_0000
    ensures -0x8000_0000_0000_0000 <= w.id < 0x8000_0000_0000_0000
    ensures UnsignedId(w.traceIdHigh) * TwoTo64 + UnsignedId(w.traceId) == span.traceId
    ensures UnsignedId(w.id) == span.spanId
    ensures span.traceId < TwoTo64 ==> w.traceIdHigh == 0
  {
    var (hi, lo) := ExtractFromTraceId(span.traceId);
    assert UnsignedId(w.traceIdHigh) == hi;
    assert UnsignedId(w.traceId) == lo;
  }

  /** What encoding did to one span and the wire span built from it. */
  predicate Encoded(aton: InetAton, span: Span, oldLogs: seq<Annotation>, oldTags: seq<BinaryAnnotation>, w: WireSpan)
    reads span
  {
    var endpoint := LocalEndpoint(aton, span);
    && span.logs == WithHost(oldLogs, endpoint) + AddedLogs(span, endpoint)
    && span.tags == oldTags + AddedTags(aton, span, endpoint)
    && w.annotations == span.logs
    && w.binaryAnnotations == span.tags
  }

  /**
   * When the spans of a batch are distinct objects, each one's logs and tags were
   * extended in place and carried into the wire span at its index.
   */
  twostate predicate BatchEncoded(aton: InetAton, spans: seq<Span>, ws: seq<WireSpan>)
    reads spans
  {
    Distinct(spans) ==> |ws| == |spans| && forall i :: 0 <= i < |spans| ==>
      Encoded(aton, spans[i], old(spans[i].logs), old(spans[i].tags), ws[i])
  }

  /** One wire span per span, in order, each with the span's fixed fields. */
  predicate WireSpansOf(ws: seq<WireSpan>, spans: seq<Span>) {
    |ws| == |spans| && forall i :: 0 <= i < |spans| ==> WireFieldsOf(ws[i], spans[i])
  }

  /**
   * The body of `make_zipkin_spans`'s loop for one span: re-host its events at the
   * tracer's endpoint, append the Zipkin annotations, and build the wire span
   * from the span's ids, name, times and the resulting logs and tags.
   */
  method EncodeSpan(aton: InetAton, span: Span) returns (zipkinSpan: WireSpan)
    modifies span
    ensures WireFieldsOf(zipkinSpan, span)
    ensures Encoded(aton, span, old(span.logs), old(span.tags), zipkinSpan)
  {
    var endpoint := LocalEndpoint(aton, span);
    SetLogHosts(span, endpoint);
    AddZipkinAnnotations(aton, span, endpoint);
    var (hi, lo) := ExtractFromTraceId(span.traceId);
    zipkinSpan := WireSpan(
      traceId := IdToInt(Some(lo)).value,
      traceIdHigh := IdToInt(Some(hi)).value,
      name := span.operationName,
      id := IdToInt(Some(span.spanId)).value,
      parentId := WireParentId(span.parentId),
      annotations := span.logs,
      binaryAnnotations := span.tags,
      debug := span.IsDebug(),
      timestamp := span.startTime,
      duration := span.endTime - span.startTime);
  }

  /**
   * `make_zipkin_spans`: one wire span per span, in order. Each span's events get
   * the tracer's endpoint as host, the Zipkin annotations are appended, and the
   * wire span carries the resulting logs and tags. When a span object occurs
   * twice in the batch, the second encoding sees the first one's appends.
   */
  method MakeZipkinSpans(aton: InetAton, spans: seq<Span>) returns (zipkinSpans: seq<WireSpan>)
    modifies spans
    ensures WireSpansOf(zipkinSpans, spans)
    ensures BatchEncoded(aton, spans, zipkinSpans)
  {
    zipkinSpans := [];
    var i := 0;
    while i < |spans|
      invariant 0 <= i <= |spans| && |zipkinSpans| == i
      invariant forall j :: 0 <= j < i ==> WireFieldsOf(zipkinSpans[j], spans[j])
      invariant Distinct(spans) ==> forall j :: 0 <= j < i ==>
        Encoded(aton, spans[j], old(spans[j].logs), old(spans[j].tags), zipkinSpans[j])
      invariant Distinct(spans) ==> forall j :: i <= j < |spans| ==>
        spans[j].logs == old(spans[j].logs) && spans[j].tags == old(spans[j].tags)
    {
      var zipkinSpan := EncodeSpan(aton, spans[i]);
      zipkinSpans := zipkinSpans + [zipkinSpan];
      i := i + 1;
    }
  }
}
