# Zipkin/B3 add-on to the Jaeger client, modelled in Dafny

This project models the core of `jaeger_client_contrib`. That is the add-on that lets a Jaeger tracer take part in a Zipkin deployment. The model covers six pieces:

- **the B3 header codec** (`B3Codecs`, codecs.dfy):
  - `to_lower_hex` / `from_lower_hex`;
  - `inject` of a span context into a header carrier;
  - `extract` back out of one, matching keys case-insensitively.
- **id, port and endpoint arithmetic** (`JaegerThrift`, jaeger_thrift.dfy):
  - the signed 64-bit wrap of ids and the signed 16-bit wrap of ports;
  - the endpoint builder;
  - the annotations that `add_zipkin_annotations` appends to a span in place.
- **the wire encoding** (`Thrift`, thrift.dfy):
  - `extract_from_trace_id`, which splits a 128-bit id into halves;
  - `make_zipkin_spans`, a loop over mutable spans (`Spans.Span`, a class) that produces wire spans (a datatype in `ZipkinCore`).
- **the reporter** (`Reporter`, reporter.dfy): a class with the queue, the `stopped` flag and the metrics counters.
  - `report`, `close` and the sentinel put;
  - the consumer coroutine `_consume_queue`, as gather / take / submit steps;
  - the consumer runs sequentially: each method runs up to its next suspension point.
- **`Tracer.start_span`** (`Tracer`, tracer.dfy): parent resolution, context derivation with the one-span-per-RPC rule, the merge of sampler tags, and tracer-level tags.
- **the probabilistic sampling rule** `_is_sampled` (`Sampler`, sampler.dfy).

Supporting modules:
- `Wrappers` holds `Option` and `Result`.
- `Dicts` models a Python dict as an insertion-ordered sequence of key/value pairs, so the order `extract` iterates in is explicit.
- `Strings` holds ASCII lower-casing and decimal digit strings.

Two facts come from the caller, because the places they are made are not part of this model:
- A span context's "debug-id container" status is a field of `Tracer.SpanContext`.
- `socket.inet_aton` is a function parameter, `InetAton`.

Three behaviours of the code are easy to miss, and the model states them as the code has them:
- `inject` writes a span id of 2^64 or more as 32 hex digits, like the trace id: `to_lower_hex` chooses the width by value, not by field.
- A parent id of 0 is falsy, so `inject` does not write it and it comes back from `extract` as absent.
- Only the two low flag bits survive the round trip (`flags % 4`).

## Model

| member | source | states |
|---|---|---|
| B3Codecs.ToLowerHex | jaeger_client_contrib/zipkin/codecs.py:32-35 | exactly 16 lower-case hex digits below 2^64, exactly 32 for 2^64 up to 2^128 (at least 32 above that), and `from_lower_hex` of the result gives the id back |
| B3Codecs.FromLowerHex | jaeger_client_contrib/zipkin/codecs.py:38-39 | parsing succeeds exactly on a non-empty string of hex digits of either case; anything else is the `ValueError` of `int(v, 16)` |
| B3Codecs.HexValueOfDigits | jaeger_client_contrib/zipkin/codecs.py:32-39 | the unpadded digits of an id read back as that id (the core of the hex round trip) |
| B3Codecs.ToLowerHexVector64 | tests/zipkin/test_codecs.py:10-11 | id 0 is written as sixteen `0`s |
| B3Codecs.ToLowerHexAllF17 | jaeger_client_contrib/zipkin/codecs.py:32-35 | 16^17 - 1 is written as 15 zeros followed by 17 `f`s |
| B3Codecs.ToLowerHexVector128 | tests/zipkin/test_codecs.py:12-13 | 0xfffffffffffffffff (17 `f`s) is written as fifteen `0`s then seventeen `f`s |
| B3Codecs.FromLowerHexVector64 | tests/zipkin/test_codecs.py:16 | fifteen `0`s then `1` parses to 1 |
| B3Codecs.ToLowerHexEightShifted | jaeger_client_contrib/zipkin/codecs.py:32-35 | 8·2^64 is written as 15 zeros, `8` and 16 zeros |
| B3Codecs.FromLowerHexVector128 | tests/zipkin/test_codecs.py:17-18 | fifteen `0`s, `8`, sixteen `0`s parses to 0x80000000000000000 |
| B3Codecs.B3NamesDistinct | jaeger_client_contrib/zipkin/codecs.py:22-26 | the five header names are pairwise different, so no write of `inject` overwrites another |
| B3Codecs.LowerNames | jaeger_client_contrib/zipkin/codecs.py:65-71 | the extractor table's keys are the lower-cased header names |
| B3Codecs.PutIf | jaeger_client_contrib/zipkin/codecs.py:75-82 | a conditional carrier write: the key gets the value exactly when the condition holds, every other key is unchanged, and distinct keys stay distinct |
| B3Codecs.InjectItems | jaeger_client_contrib/zipkin/codecs.py:73-82 | every key that is not one of the five B3 names keeps its value, and a carrier with distinct keys keeps them distinct |
| B3Codecs.InjectWrites | jaeger_client_contrib/zipkin/codecs.py:73-82 | the trace id and span id are always written as `to_lower_hex`; the parent id only when present and non-zero; `X-B3-Sampled` = "1" only with flag bit 1; `X-B3-Flags` = "1" only with flag bit 2; otherwise the old carrier value stays |
| B3Codecs.Inject | jaeger_client_contrib/zipkin/codecs.py:73-82 | the carrier object's entries become the injected dict |
| B3Codecs.Extract | jaeger_client_contrib/zipkin/codecs.py:84-95 | the loop over the carrier, with its mutable partial context, computes the scan `ExtractResult` |
| B3Codecs.LastValue | jaeger_client_contrib/zipkin/codecs.py:87-91 | the value of the last entry whose lower-cased key matches and whose value is not null, or none if there is no such entry (later entries overwrite earlier ones) |
| B3Codecs.MarkedCons | jaeger_client_contrib/zipkin/codecs.py:54-61 | a flag marker is present in a carrier exactly when its first entry is a matching non-null marker or the rest holds one |
| B3Codecs.ExtractItem | jaeger_client_contrib/zipkin/codecs.py:42-61 | one item through the extractor its lower-cased key selects: it raises exactly when the key is an id key and the non-null value is not hex, and a null value or a key without an extractor changes nothing |
| B3Codecs.FlagsBits | jaeger_client_contrib/zipkin/codecs.py:54-61 | flags below 4 are the sum of their sampled and debug bits |
| B3Codecs.ExtractItemEffect | jaeger_client_contrib/zipkin/codecs.py:42-61 | one `_extract_*` call: the matching id field is set to the parsed value, null values and unknown keys change nothing, and the sampled or debug bit is OR-ed in for its markers |
| B3Codecs.ExtractSucceeds | jaeger_client_contrib/zipkin/codecs.py:87-91 | with no unparsable id value, scanning the carrier leaves each id at the last value given for it and sets the sampled bit iff some entry says "1" or "true" and the debug bit iff some entry says "1" |
| B3Codecs.ExtractItems | jaeger_client_contrib/zipkin/codecs.py:87-91 | the scan over the carrier's items in iteration order raises exactly when some recognised id key carries a non-null value that is not hex |
| B3Codecs.ExtractCaseInsensitive | jaeger_client_contrib/zipkin/codecs.py:88 | two carriers whose keys agree after lower-casing extract to the same result |
| B3Codecs.ExtractResultSpec | jaeger_client_contrib/zipkin/codecs.py:84-95 | `extract` fails on an unparsable id; otherwise it returns no context when the trace id or span id is unset, and otherwise both ids, the parent id and the flags, which start at 0 |
| B3Codecs.ExtractResult | jaeger_client_contrib/zipkin/codecs.py:84-95 | `extract` raises exactly when some id header carries a malformed value |
| B3Codecs.ForeignScan | jaeger_client_contrib/zipkin/codecs.py:87-91 | items without a B3 key, in any letter case, leave the scanned context unchanged |
| B3Codecs.ExtractForeign | jaeger_client_contrib/zipkin/codecs.py:84-95 | a carrier without B3 headers gives no context, and does not raise |
| B3Codecs.ExtractNoContext | jaeger_client_contrib/zipkin/codecs.py:93-94 | no context iff the carrier gives no trace id or no span id |
| B3Codecs.LastValueOfOnlyName | jaeger_client_contrib/zipkin/codecs.py:87-91 | when a header name is the only key of its lower-cased form, the scan sees exactly that entry's value |
| B3Codecs.FlagsLowBits | jaeger_client_contrib/zipkin/codecs.py:79-82 | the sampled and debug bits read back as `flags % 4` |
| B3Codecs.ForeignHasNoName | jaeger_client_contrib/zipkin/codecs.py:73-82 | a carrier of foreign headers has no B3 name among its keys |
| B3Codecs.InjectedKeys | jaeger_client_contrib/zipkin/codecs.py:73-82 | after `inject` into foreign headers, every key that lower-cases to a B3 key is the header name `inject` wrote |
| B3Codecs.InjectedScanView | jaeger_client_contrib/zipkin/codecs.py:73-91 | the extract scan of an injected carrier sees the written ids, the parent only when written, and each marker iff its flag bit is set |
| B3Codecs.InjectedNoBadItem | jaeger_client_contrib/zipkin/codecs.py:73-91 | every id value `inject` writes parses |
| B3Codecs.ExtractInjected | jaeger_client_contrib/zipkin/codecs.py:84-95 | a carrier the scan sees that way extracts to the context: both ids, the parent if written, and `flags % 4` |
| B3Codecs.InjectExtractRoundTrip | jaeger_client_contrib/zipkin/codecs.py:73-95 | `extract(inject(ctx))` into a carrier without B3 headers (the empty one included) gives back the trace id, span id, the parent id if non-zero, and `flags % 4` |
| JaegerThrift.IdToInt | jaeger_client_contrib/jaeger_thrift.py:62-69 | None stays None; ids above 2^63 - 1 lose 2^64, others are unchanged; on 0 up to 2^64 the result is a signed 64-bit value congruent to the id, negative exactly for the upper half |
| JaegerThrift.WrapPort | jaeger_client_contrib/jaeger_thrift.py:53-58 | ports up to 32767 unchanged; on 0 up to 65536 a signed 16-bit value congruent to the port, negative exactly above 32767 |
| JaegerThrift.PortToInt | jaeger_client_contrib/jaeger_thrift.py:49-59 | an integer, or a string of decimal digits parsed as one, is wrapped; anything else gives None |
| JaegerThrift.UnpackSignedInt | jaeger_client_contrib/jaeger_thrift.py:44 | `struct.unpack('!i')`: a signed 32-bit value congruent to the big-endian bytes |
| JaegerThrift.Ipv4ToInt | jaeger_client_contrib/jaeger_thrift.py:38-46 | a signed 32-bit value, and 0 when `inet_aton` rejects the (aliased) address, without raising |
| JaegerThrift.LoopbackAliases | jaeger_client_contrib/jaeger_thrift.py:39-42 | "localhost" and "::1" give the same value as "127.0.0.1" |
| JaegerThrift.MakeEndpoint | jaeger_client_contrib/jaeger_thrift.py:72-78 | the service name is lower-cased, a missing port becomes 0, a textual address is converted, and a numeric one passes through |
| JaegerThrift.MakeEvent | jaeger_client_contrib/jaeger_thrift.py:23-25 | an event with the given timestamp and name and no host |
| JaegerThrift.MakePeerAddressTag | jaeger_client_contrib/jaeger_thrift.py:81-89 | a BOOL binary annotation under the key, valued `0x01`, hosted at the peer |
| JaegerThrift.MakeLocalComponentTag | jaeger_client_contrib/jaeger_thrift.py:92-101 | a STRING `lc` binary annotation valued with the component name, hosted at the endpoint |
| JaegerThrift.PeerEndpoint | jaeger_client_contrib/jaeger_thrift.py:119-122 | the peer's endpoint: a missing address or port becomes 0, a missing service name the empty string; present values go through `make_endpoint` |
| JaegerThrift.ComponentName | jaeger_client_contrib/jaeger_thrift.py:128 | the span's component when it is truthy, otherwise the tracer's service name |
| JaegerThrift.AddedLogs | jaeger_client_contrib/jaeger_thrift.py:105-116 | an RPC span gets exactly two events: first the end event (`cr` for a client, `ss` for a server) at the end time, then the start event (`cs`/`sr`) at the start time, both hosted at the endpoint; other spans get none |
| JaegerThrift.AddedTags | jaeger_client_contrib/jaeger_thrift.py:117-130 | an RPC span with a peer gets one BOOL `0x01` tag, `sa` for a client or `ca` for a server, hosted at the peer endpoint; without a peer, none; a local span gets one STRING `lc` tag naming the component or else the service |
| JaegerThrift.AddZipkinAnnotations | jaeger_client_contrib/jaeger_thrift.py:104-130 | the span's logs and tags are appended to, in place, with exactly those annotations; the old lists stay as a prefix |
| Thrift.ExtractFromTraceId | jaeger_client_contrib/thrift.py:12-16 | `hi * 2^64 + lo` is the id and `lo < 2^64`; the high half is 0 for ids below 2^64 and below 2^64 for ids below 2^128 |
| Thrift.TraceIdVectors | tests/test_thrift.py:78-106 | 2^63 gives wrapped halves (0, -2^63), 2^128 - 1 gives (-1, -1), and 2^63 shifted left by 64 gives (-2^63, 0) |
| Thrift.WireParentId | jaeger_client_contrib/thrift.py:36 | a parent id of 0 or None is sent as absent, and any other 64-bit one is sent wrapped so that it unwraps to itself |
| Thrift.LocalEndpoint | jaeger_client_contrib/thrift.py:22-24 | the tracer's endpoint: port 0, the lower-cased service name, and the tracer's address converted as `make_endpoint` does |
| Thrift.WithHost | jaeger_client_contrib/thrift.py:26-27 | the same events, in order, each with its host set to the endpoint |
| Thrift.SetLogHosts | jaeger_client_contrib/thrift.py:26-27 | the loop sets the host of every existing log event in place and leaves the tags alone |
| Thrift.WireIdsLossless | jaeger_client_contrib/thrift.py:30-35 | the wire ids are signed 64-bit values from which the 128-bit trace id and the span id are recovered exactly; a 64-bit trace id has high half 0 |
| Thrift.EncodeSpan | jaeger_client_contrib/thrift.py:22-42 | for one span: its events are re-hosted at the local endpoint and the Zipkin annotations appended, in place, and the wire span carries the field mapping and the resulting logs and tags |
| Thrift.MakeZipkinSpans | jaeger_client_contrib/thrift.py:19-44 | one wire span per span, in order, with the field mapping (wrapped id halves, name, debug, parent 0 as absent, timestamps) for every batch; for distinct spans, also every old log re-hosted at the tracer endpoint with port 0, and the post-annotation logs and tags sent |
| Reporter.CheckConfigAsWritten | jaeger_client_contrib/zipkin/reporter.py:67-68 | the constructor check as written: it passes exactly when `batch_size <= queue_capacity` |
| Reporter.CheckConfig | jaeger_client_contrib/zipkin/reporter.py:67-68 | the corrected check: it passes exactly when `1 <= batch_size <= queue_capacity`, fails with the capacity error exactly when capacity is below the batch size, and passes only where the original passes |
| Reporter.QueuedSpans | jaeger_client_contrib/zipkin/reporter.py:113-123 | the spans of a queue, in queue order, sentinels left out: never more entries than the queue |
| Reporter.QueuedSpansOfStops | jaeger_client_contrib/zipkin/reporter.py:117-121 | a queue holding only sentinels holds no span |
| Reporter.QueuedSpansAppend | jaeger_client_contrib/zipkin/reporter.py:99 | the spans of a queue with entries appended are the old spans followed by the new ones (FIFO) |
| Reporter.BatchesEvery | jaeger_client_contrib/zipkin/reporter.py:107-128 | the submission history is well-formed exactly when every batch is non-empty, at most `batch_size`, full iff ended by a full batch, a timeout only with a flush interval, and only the last ended by the sentinel |
| Reporter.HistorySnoc | jaeger_client_contrib/zipkin/reporter.py:124-142 | one more well-formed submission keeps the history consistent: success and failure counts move by the batch length on the right side, and the submitted spans grow by the batch |
| Reporter.RecordKeepsHistory | jaeger_client_contrib/zipkin/reporter.py:124-142 | after one submission the history stays consistent, and submitted spans followed by queued spans are still exactly the accepted spans, in order |
| Reporter.QueueOkTail | jaeger_client_contrib/zipkin/reporter.py:113-121 | taking the head keeps the queue invariant; a sentinel at the head means `stopped` was set |
| Reporter.TakeKeepsOrder | jaeger_client_contrib/zipkin/reporter.py:113-123 | dequeuing a span appends it to the batch and dequeuing the sentinel drops it, so submitted, batch and queue together remain the accepted spans in order |
| Reporter.GatherRound | jaeger_client_contrib/zipkin/reporter.py:108-123 | one inner-loop run on queue values takes a prefix of the queue: the rest is left queued, the prefix's spans are appended to the batch in order, the sentinel was seen exactly when the prefix holds one; it waits only on an empty queue with a short batch and sees no sentinel, and otherwise ends with a full batch |
| Reporter.PrefixCons | jaeger_client_contrib/zipkin/reporter.py:113-123 | a non-empty queue prefix is its head followed by a prefix of the tail, for the spans and for the sentinel |
| Reporter.ZeroBatchSpins | jaeger_client_contrib/zipkin/reporter.py:67-128 | with `batch_size = 0` the constructor check passes, and a round takes nothing, sees no sentinel and never waits, so the consumer loops without yielding |
| Reporter.RoundProgress | jaeger_client_contrib/zipkin/reporter.py:104-128 | under the corrected check, every round waits on an empty queue without a sentinel, reaches the sentinel, or dequeues something |
| Reporter.ZipkinReporter.constructor | jaeger_client_contrib/zipkin/reporter.py:38-82 | a valid reporter with an empty queue, not stopped, all counters 0 |
| Reporter.ZipkinReporter.IsFull | jaeger_client_contrib/zipkin/reporter.py:99-101 | on a well-formed reporter, the queue is full exactly when it holds `queue_capacity` entries |
| Reporter.ZipkinReporter.Report | jaeger_client_contrib/zipkin/reporter.py:92-101 | when stopped or full, the queue is unchanged and `dropped` grows by 1; otherwise the span is appended to the back of the queue and no counter moves |
| Reporter.ZipkinReporter.Close | jaeger_client_contrib/zipkin/reporter.py:157-165 | `stopped` becomes true; nothing else changes |
| Reporter.ZipkinReporter.Flush | jaeger_client_contrib/zipkin/reporter.py:167-169 | the sentinel is appended exactly when the queue has room |
| Reporter.ZipkinReporter.Send | jaeger_client_contrib/zipkin/reporter.py:145-155 | the transport either takes the message or raises; the outcome is not determined, so there is no contract beyond the boolean result |
| Reporter.ZipkinReporter.Submit | jaeger_client_contrib/zipkin/reporter.py:131-142 | an empty batch changes nothing; otherwise the batch is encoded with `make_zipkin_spans`, one attempt is recorded with those wires; the success count grows by its length if the transport takes it, the failure count otherwise; the queue and drops are untouched |
| Reporter.ZipkinReporter.Record | jaeger_client_contrib/zipkin/reporter.py:138-140 | the attempt joins the history and exactly one of the two counters grows by the batch length |
| Reporter.ZipkinReporter.Gather | jaeger_client_contrib/zipkin/reporter.py:108-123 | the inner loop ends where `GatherRound` of the old queue and batch ends (`RoundEndsAt`): the queue left is the suffix after the prefix taken, the batch is the old one plus that prefix's spans, it ends on the sentinel exactly when the prefix holds one, and a timeout counts as a wait on the empty queue; it ends with a full batch, on the sentinel (consumer finished), on a timeout with a non-empty batch and a flush interval, or waiting on an empty queue without a sentinel; the order invariant holds |
| Reporter.GatherStep | jaeger_client_contrib/zipkin/reporter.py:112-123 | one `queue.get()` with a short batch: the sentinel ends the round with the tail queued, a span joins the batch and the round goes on from the tail |
| Reporter.ZipkinReporter.SubmitGathered | jaeger_client_contrib/zipkin/reporter.py:124-128 | after gathering, a batch that did not end in a wait is submitted and emptied, a waiting one is kept; the invariant holds, the queue and the consumer's state are untouched, and once finished every accepted span has been submitted |
| Reporter.ZipkinReporter.Take | jaeger_client_contrib/zipkin/reporter.py:113-123 | the head of the queue is removed; a span joins the batch, and the sentinel finishes the consumer |
| Reporter.ZipkinReporter.ConsumeRound | jaeger_client_contrib/zipkin/reporter.py:107-128 | one outer-loop round: gather, then submit the batch if it is non-empty; the invariant holds, the queue (or else the batch) shrinks, and once the sentinel is seen every accepted span has been submitted |
| Reporter.ZipkinReporter.ConsumeQueue | jaeger_client_contrib/zipkin/reporter.py:104-129 | the consumer runs until it waits on an empty queue or has seen the sentinel; it finishes exactly when a sentinel was queued, and then every accepted span has been submitted, in order; the history only grows |
| Reporter.ZipkinReporter.CloseAndDrain | jaeger_client_contrib/zipkin/reporter.py:104-170 | `close` as its docstring promises: after `stopped`, the sentinel put (retried once the consumer made room) and the consumer's run, the consumer has finished and every span the queue ever accepted was submitted, in order |
| Sampler.LowBits | jaeger_client_contrib/sampler.py:10 | `& 0xffffffffffffffff`: a value below 2^64, equal to the id when the id is already below 2^64 |
| Sampler.IsSampled | jaeger_client_contrib/sampler.py:9-11 | the returned tags are always the sampler's own |
| Sampler.SampledIffLowBelow | jaeger_client_contrib/sampler.py:10-11 | an id `high * 2^64 + low` is sampled exactly when `low` is below the boundary |
| Sampler.CoarseMultiple | jaeger_client_contrib/sampler.py:10 | a non-zero multiple of 2^64 is at least 2^64 away from 0, so two ids with equal low bits differ by such a multiple |
| Sampler.HighBitsIgnored | jaeger_client_contrib/sampler.py:10 | adding any multiple of 2^64 leaves the result unchanged |
| Sampler.OperationIgnored | jaeger_client_contrib/sampler.py:9-11 | the operation name has no effect |
| Sampler.Monotone | jaeger_client_contrib/sampler.py:11 | if an id is sampled, so is every id with smaller low 64 bits |
| Sampler.HalfRateVector | tests/test_sampler.py:23-45 | at boundary 2^63, 2^63 - 10 is sampled and 2^63 + 10 is not, with or without any high half |
| Tracer.FirstReferenceOnly | jaeger_client_contrib/tracer.py:44-49 | with a list of references only the first counts, and it overrides `child_of` |
| Tracer.SpanActsAsContext | jaeger_client_contrib/tracer.py:51-53 | a span given as parent, directly or as the first reference, stands for its context |
| Tracer.ContextOf | jaeger_client_contrib/tracer.py:51-53 | a parent given as a context or as a span stands for that context; none stays none |
| Tracer.ResolveParent | jaeger_client_contrib/tracer.py:44-53 | without truthy references the parent is `child_of`; a single reference, or the first of a non-empty list, overrides it |
| Tracer.RpcServer | jaeger_client_contrib/tracer.py:55-56 | the span is an RPC server exactly when tags are given and their `span.kind` is `server` (which already makes them non-empty) |
| Tracer.DeriveContext | jaeger_client_contrib/tracer.py:58-90 | no parent: fresh ids, no parent id, no baggage, flags exactly `SAMPLED_FLAG` when the sampler says so and 0 otherwise; a debug-id container: fresh ids, flags exactly `SAMPLED_FLAG` + `DEBUG_FLAG` (3); a real parent: its trace id, flags and a copy of its baggage, with its span and parent ids for an RPC server under one-span-per-RPC, and a fresh span id under it otherwise |
| Tracer.ChildKeepsDecision | jaeger_client_contrib/tracer.py:76-86 | a child of a real parent keeps the parent's sampled and debug bits |
| Tracer.RootSampledByBoundary | jaeger_client_contrib/tracer.py:64-68 | a root span is sampled exactly when the low 64 bits of its fresh trace id are below the sampler's boundary |
| Tracer.MergeTags | jaeger_client_contrib/tracer.py:69-71 | each sampler tag is written into the tags, overriding the caller's, and every other tag is kept |
| Tracer.StartedSpan.constructor | jaeger_client_contrib/tracer.py:91-93 | the span holds the context, the operation name, the start tags and the start time, with no tag set yet |
| Tracer.StartedSpan.SetTag | jaeger_client_contrib/tracer.py:98 | the tag is appended to the span's set tags |
| Tracer.ApplyTracerTags | jaeger_client_contrib/tracer.py:97-98 | every tracer tag is set on the span, in order |
| Tracer.StartSpan | jaeger_client_contrib/tracer.py:21-102 | the new span's context is the derivation from the resolved parent, the rpc-server tag, the fresh ids and the sampler's decision (asked only for a root); a sampled root carries the sampler tags over the caller's, a debug-id container records its id under the debug header, otherwise the caller's tags are used as given; tracer tags are set iff the span is sampled and is an RPC server or has no parent id |

## Left out

- B3Codecs.FromLowerHex: Python's `int(v, 16)` also accepts a sign, surrounding whitespace, a `0x` prefix, underscores and non-ASCII decimal digits (`int('٣', 16)` is 3); the model accepts only plain hex digits and treats the rest as the error.
- JaegerThrift.PortToInt: the digit test is ASCII-only. Python's `str.isdigit` is also true for other Unicode digits: for a decimal digit such as '٣' the source's `int(port)` gives 3 where the model gives None, and for a digit such as '²' the source raises `ValueError` where the model gives None.
- Lower-casing is modelled as ASCII lower-casing. That is exact for matching the five B3 keys. It does not follow Unicode `str.lower` for other characters.
- `socket.inet_aton` is a parameter of the model (`InetAton`). Only the loopback aliases, the zero-on-failure rule and the `struct.unpack('!i')` arithmetic are modelled.
- `make_endpoint` tests for `basestring`, which exists only in Python 2. The model follows its intent: a textual address is converted, and a numeric one passes through.
- Timestamps and durations are integer microseconds given as input; `timestamp_micros`'s float multiply-and-truncate is not modelled.
- Thrift.MakeZipkinSpans: the field mapping and the lossless ids (`WireSpansOf`, `WireIdsLossless`) hold for every batch. Only the re-hosted logs and the appended annotations are stated just for a batch of pairwise distinct span objects. When the same object appears twice, its second encoding sees the first one's appends, and the model does not describe those lists.
- `thrift_objs_in_bytes` and the Thrift binary protocol are foreign code. `_send` is a transport that either takes the message or fails (`Send`).
- Tornado is not modelled: the IOLoop, `add_callback`/`spawn_callback`, coroutines, `queue.task_done`, `queue.join`, the `Future` that `close` returns, and `stop_lock`.
  - The consumer is modelled as sequential steps.
  - The timed `queue.get` becomes a nondeterministic flush-now exit, taken only with a flush interval and a non-empty batch.
  - The sentinel put of `_flush` is a non-blocking try (`Flush`) that the caller repeats.
- The constructor's branches for a missing IOLoop or a non-callable transport (reporter.py lines 70-82) are not modelled. The model is the configured reporter.
- Reporter.ZipkinReporter.constructor requires a configuration that passes the check. The `ValueError` path is `CheckConfig`'s failure result.
- Metrics and the error reporter are plain counters (`dropped`, `success`, `failure`). The log message is not modelled.
- Reporter.ZipkinReporter.ConsumeQueue: its modifies frame names every span ever accepted. The source's batch holds only spans taken from the queue, which are among those.
- Tracer.StartSpan:
  - the fresh ids are parameters, because `random_trace_id` and `random_id` are random;
  - the sampler is a function parameter, because the sampler classes live in `jaeger_client`;
  - `set_tag` is an append to the span's tag list;
  - `_emit_span_metrics` is not modelled;
  - how far the caller's own tags dict is mutated (the tracer may write sampler tags or the debug id into it) is not modelled; the span's start tags describe the dict after those writes.
- `Span` construction inside `jaeger_client`, the span's `is_debug_id_container_only` computation and the baggage `dict` copy are taken as given. The copy is a value, so aliasing of the parent's baggage is not modelled.
- The sampler's boundary is an integer parameter. It is computed from the sampling rate in `jaeger_client` (floating point), which is not part of this model. The monkey-patching of `ProbabilisticSampler.is_sampled` is also out.
- `config.py`, `setup.py`, `__init__.py` and the test fixtures are not part of this model.

## Findings

| source | as written | input that shows it | evidently intended | confidence | as-written member | corrected member |
|---|---|---|---|---|---|---|
| jaeger_client_contrib/zipkin/reporter.py:67-68 | the constructor rejects only `queue_capacity < batch_size` | `batch_size = 0` with any capacity: the check passes; in `_consume_queue` the loop `while len(spans) < 0` never runs, nothing is submitted, and the outer `while not stopped` loop repeats without reaching a `yield` | reject `batch_size < 1`, so that every round of the consumer waits, sees the sentinel or dequeues a span (`RoundProgress`) | not executed | Reporter.ZeroBatchSpins | Reporter.CheckConfig |
