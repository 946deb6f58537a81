/**
 * `Tracer.start_span`: how a new span's context (trace id, span id, parent id,
 * flags, baggage) and its tags follow from the parent it is started under, the
 * sampler's decision and the tracer's settings. The random ids the tracer draws
 * and the sampler it consults are inputs.
 */
module Tracer {
  import opened Wrappers
  import opened Dicts
  import opened Spans
  import opened Sampler

  /** A `jaeger_client.SpanContext` as `start_span` reads it. */
  datatype SpanContext = SpanContext(
    traceId: nat,
    spanId: nat,
    parentId: Option<nat>,
    flags: nat,
    baggage: Dict<string, string>,
    debugId: string,
    /** `is_debug_id_container_only`: the context only carries a `jaeger-debug-id`. */
    debugIdContainerOnly: bool)

  /** What `child_of` or a reference holds: a context, or a span standing for its context. */
  datatype ParentArg = ContextArg(context: SpanContext) | SpanArg(spanContext: SpanContext)

  /** The `references` argument: absent, a single `Reference`, or a list of them. */
  datatype References =
    | NoReferences
    | OneReference(referenced: Option<ParentArg>)
    | ReferenceList(refs: seq<Option<ParentArg>>)

  /** The tracer's settings `start_span` uses. */
  datatype TracerConfig = TracerConfig(tags: Tags, oneSpanPerRpc: bool, debugIdHeader: string)

  /** The context of the new span, as passed to `SpanContext(...)`. */
  datatype NewContext = NewContext(
    traceId: nat, spanId: nat, parentId: Option<nat>, flags: nat, baggage: Option<Dict<string, string>>)

  const SpanKindKey := "span.kind"
  const SpanKindRpcServer := "server"

  /** The context a parent argument stands for: a span is replaced by its context. */
  function ContextOf(p: Option<ParentArg>): (r: Option<SpanContext>)
    ensures r.Some? <==> p.Some?
    ensures p.Some? ==> p.value == ContextArg(r.value) || p.value == SpanArg(r.value)
  {
    match p
    case None => None
    case Some(ContextArg(c)) => Some(c)
    case Some(SpanArg(c)) => Some(c)
  }

  /** A truthy `references` overrides `child_of`; of a list, only the first entry counts. */
  function ResolveParent(childOf: Option<ParentArg>, references: References): (r: Option<SpanContext>)
    ensures references.NoReferences? || references == ReferenceList([]) ==> r == ContextOf(childOf)
    ensures references.OneReference? ==> r == ContextOf(references.referenced)
    ensures references.ReferenceList? && references.refs != [] ==> r == ContextOf(references.refs[0])
  {
    match references
    case NoReferences => ContextOf(childOf)
    case OneReference(r) => ContextOf(r)
    case ReferenceList(refs) => if refs == [] then ContextOf(childOf) else ContextOf(refs[0])
  }

  /** Only the first reference of a non-empty list is used; `child_of` and the rest play no part. */
  lemma FirstReferenceOnly(childOf: Option<ParentArg>, childOf': Option<ParentArg>, refs: seq<Option<ParentArg>>,
                           refs': seq<Option<ParentArg>>)
    requires refs != [] && refs' != [] && refs[0] == refs'[0]
    ensures ResolveParent(childOf, ReferenceList(refs)) == ResolveParent(childOf', ReferenceList(refs'))
    ensures ResolveParent(childOf, ReferenceList(refs)) == ResolveParent(childOf', OneReference(refs[0]))
  {
  }

  /** A span given as the parent, directly or through a reference, acts as its context. */
  lemma SpanActsAsContext(c: SpanContext, refs: seq<Option<ParentArg>>)
    ensures ResolveParent(Some(SpanArg(c)), NoReferences) == Some(c)
    ensures ResolveParent(None, OneReference(Some(SpanArg(c)))) == Some(c)
    ensures ResolveParent(None, ReferenceList([Some(SpanArg(c))] + refs)) == Some(c)
    ensures ResolveParent(Some(SpanArg(c)), ReferenceList([])) == Some(c)
  {
  }

  /**
   * `rpc_server`: the tags are non-empty and their `span.kind` is `server`. The
   * emptiness test adds nothing: a `server` kind already makes the tags non-empty.
   */
  function RpcServer(tags: Option<Tags>): (r: bool)
    ensures r <==> tags.Some? && Get(tags.value, SpanKindKey) == Some(TagText(SpanKindRpcServer))
  {
    tags.Some? && tags.value != [] && Get(tags.value, SpanKindKey) == Some(TagText(SpanKindRpcServer))
  }

  /** The new context has a truthy parent id (`not parent_id` is false). */
  predicate HasParentId(c: NewContext) {
    c.parentId.Some? && c.parentId.value != 0
  }

  /** A parent the new span joins: present and more than a debug-id container. */
  predicate JoinsParent(parent: Option<SpanContext>) {
    parent.Some? && !parent.value.debugIdContainerOnly
  }

  /**
   * The new context: a new trace (fresh ids, no parent, flags from the sampler or
   * sampled-and-debug for a debug id), or a span in the parent's trace (its flags
   * and a copy of its baggage) that is either the parent's own RPC-server half
   * (`one_span_per_rpc`) or a child with a fresh span id.
   */
  function DeriveContext(parent: Option<SpanContext>, rpcServer: bool, oneSpanPerRpc: bool,
                         freshTraceId: nat, freshSpanId: nat, sampled: bool): (c: NewContext)
    ensures !JoinsParent(parent) ==>
      && c.traceId == freshTraceId && c.spanId == freshSpanId && c.parentId.None? && c.baggage.None?
      && !HasParentId(c)
    ensures parent.None? ==>
      && c.flags == (if sampled then SampledFlag else 0)
      && (HasFlag(c.flags, SampledFlag) <==> sampled)
      && !HasFlag(c.flags, DebugFlag)
    ensures parent.Some? && parent.value.debugIdContainerOnly ==>
      && c.flags == SampledFlag + DebugFlag
      && HasFlag(c.flags, SampledFlag) && HasFlag(c.flags, DebugFlag)
    ensures JoinsParent(parent) ==>
      c.traceId == parent.value.traceId && c.flags == parent.value.flags && c.baggage == Some(parent.value.baggage)
    ensures JoinsParent(parent) && rpcServer && oneSpanPerRpc ==>
      c.spanId == parent.value.spanId && c.parentId == parent.value.parentId
    ensures JoinsParent(parent) && !(rpcServer && oneSpanPerRpc) ==>
      c.spanId == freshSpanId && c.parentId == Some(parent.value.spanId)
  {
    if !JoinsParent(parent) then
      var flags := if parent.Some? then SampledFlag + DebugFlag else if sampled then SampledFlag else 0;
      NewContext(freshTraceId, freshSpanId, None, flags, None)
    else
      var p := parent.value;
      if rpcServer && oneSpanPerRpc then NewContext(p.traceId, p.spanId, p.parentId, p.flags, Some(p.baggage))
      else NewContext(p.traceId, freshSpanId, Some(p.spanId), p.flags, Some(p.baggage))
  }

  /** A span in its parent's trace keeps the parent's sampling and debug decision. */
  lemma ChildKeepsDecision(parent: SpanContext, rpcServer: bool, oneSpanPerRpc: bool,
                           freshTraceId: nat, freshSpanId: nat, sampled: bool)
    requires !parent.debugIdContainerOnly
    ensures var c := DeriveContext(Some(parent), rpcServer, oneSpanPerRpc, freshTraceId, freshSpanId, sampled);
      && (HasFlag(c.flags, SampledFlag) <==> HasFlag(parent.flags, SampledFlag))
      && (HasFlag(c.flags, DebugFlag) <==> HasFlag(parent.flags, DebugFlag))
  {
  }

  /**
   * Under the probabilistic sampler a new trace is sampled exactly when the low 64
   * bits of its fresh id are below the boundary; the high half of a 128-bit id
   * does not matter.
   */
  lemma RootSampledByBoundary(s: ProbabilisticSampler, high: int, low: nat, freshSpanId: nat, operation: string,
                              rpcServer: bool, oneSpanPerRpc: bool)
    requires low < TwoTo64 && high * TwoTo64 + low >= 0
    ensures var traceId := high * TwoTo64 + low;
      var c := DeriveContext(None, rpcServer, oneSpanPerRpc, traceId, freshSpanId, IsSampled(s, traceId, operation).0);
      HasFlag(c.flags, SampledFlag) <==> low < s.boundary
  {
    SampledIffLowBelow(s, high, low, operation);
  }

  /** The caller's tags, or an empty dict when there are none. */
  function OrEmpty(tags: Option<Tags>): Tags {
    if tags.Some? then tags.value else []
  }

  /** Writes each sampler tag into the caller's tags, in the sampler's order; sampler tags win over the caller's. */
  method MergeTags(tags: Tags, samplerTags: Tags) returns (r: Tags)
    requires DistinctKeys(samplerTags)
    ensures forall k {:trigger Get(r, k)} :: Get(r, k) == if HasKey(samplerTags, k) then Get(samplerTags, k) else Get(tags, k)
    ensures DistinctKeys(tags) ==> DistinctKeys(r)
  {
    r := tags;
    var i := 0;
    while i < |samplerTags|
      invariant 0 <= i <= |samplerTags|
      invariant DistinctKeys(samplerTags[..i])
      invariant forall k {:trigger Get(r, k)} :: Get(r, k) == if HasKey(samplerTags[..i], k) then Get(samplerTags[..i], k) else Get(tags, k)
      invariant DistinctKeys(tags) ==> DistinctKeys(r)
    {
      PutNextItem(samplerTags, i);
      var (key, value) := samplerTags[i];
      var r' := Put(r, key, value);
      forall k ensures Get(r', k) == if HasKey(samplerTags[..i + 1], k) then Get(samplerTags[..i + 1], k) else Get(tags, k) {
        if k == key {
          assert Get(samplerTags[..i + 1], k) == Some(value);
        } else {
          assert Get(samplerTags[..i + 1], k) == Get(samplerTags[..i], k);
          assert Get(r', k) == Get(r, k);
        }
      }
      r := r';
      i := i + 1;
    }
    assert samplerTags[..i] == samplerTags;
  }

  /** The span `start_span` returns, as far as its context and tags go. */
  class StartedSpan {
    const context: NewContext
    const operationName: string
    /** The `tags` dict the span was constructed with. */
    const startTags: Option<Tags>
    const startTime: Option<int>
    /** The tags added through `set_tag` after construction, in order. */
    var setTags: seq<(string, TagValue)>

    constructor (context: NewContext, operationName: string, startTags: Option<Tags>, startTime: Option<int>)
      ensures this.context == context && this.operationName == operationName
      ensures this.startTags == startTags && this.startTime == startTime
      ensures setTags == []
    {
      this.context, this.operationName := context, operationName;
      this.startTags, this.startTime := startTags, startTime;
      setTags := [];
    }

    /** `span.set_tag(key, value)`. */
    method SetTag(key: string, value: TagValue)
      modifies this
      ensures setTags == old(setTags) + [(key, value)]
    {
      setTags := setTags + [(key, value)];
    }
  }

  /** Sets each of the tracer's own tags on the span, in the tracer's order. */
  method ApplyTracerTags(span: StartedSpan, tracerTags: Tags)
    modifies span
    ensures span.setTags == old(span.setTags) + tracerTags
  {
    var i := 0;
    while i < |tracerTags|
      invariant 0 <= i <= |tracerTags|
      invariant span.setTags == old(span.setTags) + tracerTags[..i]
    {
      span.SetTag(tracerTags[i].0, tracerTags[i].1);
      assert tracerTags[..i + 1] == tracerTags[..i] + [tracerTags[i]];
      i := i + 1;
    }
    assert tracerTags[..i] == tracerTags;
  }

  /** The span is the first of its trace in this process, and sampled. */
  predicate TakesTracerTags(c: NewContext, rpcServer: bool) {
    (rpcServer || !HasParentId(c)) && HasFlag(c.flags, SampledFlag)
  }

  /**
   * `start_span`: `freshTraceId` and `freshSpanId` are what `random_trace_id` and
   * `random_id` return, and `sampler` is `self.sampler.is_sampled`.
   */
  method StartSpan(tracer: TracerConfig, sampler: (nat, string) -> (bool, Tags), freshTraceId: nat, freshSpanId: nat,
                   operationName: string, childOf: Option<ParentArg>, references: References,
                   tags: Option<Tags>, startTime: Option<int>)
    returns (span: StartedSpan)
    requires DistinctKeys(sampler(freshTraceId, operationName).1)
    ensures fresh(span)
    ensures var parent := ResolveParent(childOf, references);
      var sampled := parent.None? && sampler(freshTraceId, operationName).0;
      span.context == DeriveContext(parent, RpcServer(tags), tracer.oneSpanPerRpc, freshTraceId, freshSpanId, sampled)
    ensures span.operationName == operationName && span.startTime == startTime
    // a sampled new trace carries the sampler's tags over the caller's
    ensures var parent := ResolveParent(childOf, references);
      var (sampled, samplerTags) := sampler(freshTraceId, operationName);
      parent.None? && sampled ==>
        && span.startTags.Some?
        && forall k {:trigger Get(span.startTags.value, k)} :: Get(span.startTags.value, k) ==
             if HasKey(samplerTags, k) then Get(samplerTags, k) else Get(OrEmpty(tags), k)
    // a debug-id container's id is recorded under the tracer's debug header
    ensures var parent := ResolveParent(childOf, references);
      parent.Some? && parent.value.debugIdContainerOnly ==>
        && span.startTags.Some?
        && Get(span.startTags.value, tracer.debugIdHeader) == Some(TagText(parent.value.debugId))
        && forall k {:trigger Get(span.startTags.value, k)} :: k != tracer.debugIdHeader ==>
             Get(span.startTags.value, k) == Get(OrEmpty(tags), k)
    // otherwise the caller's tags are used as they are
    ensures var parent := ResolveParent(childOf, references);
      (parent.None? && !sampler(freshTraceId, operationName).0) || JoinsParent(parent) ==>
        span.startTags == tags
    ensures tags.Some? && DistinctKeys(tags.value) ==> span.startTags.Some? && DistinctKeys(span.startTags.value)
    ensures span.setTags == if TakesTracerTags(span.context, RpcServer(tags)) then tracer.tags else []
  {
    var parent := ResolveParent(childOf, references);
    var rpcServer := RpcServer(tags);
    var sampled := false;
    var spanTags := tags;
    if parent.None? {
      var (s, samplerTags) := sampler(freshTraceId, operationName);
      sampled := s;
      if s {
        var merged := MergeTags(OrEmpty(tags), samplerTags);
        spanTags := Some(merged);
      }
    } else if parent.value.debugIdContainerOnly {
      spanTags := Some(Put(OrEmpty(tags), tracer.debugIdHeader, TagText(parent.value.debugId)));
    }
    var ctx := DeriveContext(parent, rpcServer, tracer.oneSpanPerRpc, freshTraceId, freshSpanId, sampled);
    span := new StartedSpan(ctx, operationName, spanTags, startTime);
    if TakesTracerTags(ctx, rpcServer) {
      ApplyTracerTags(span, tracer.tags);
    }
  }
}
