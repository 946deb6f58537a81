/**
 * The probabilistic sampling rule: a trace is sampled when the low 64 bits of
 * its id fall below the sampler's boundary. The high half of a 128-bit id plays
 * no part, so all spans of a trace get the same decision whatever the id width.
 */
module Sampler {
  import opened Dicts

  /** A tag value as the sampler and the tracer attach them to spans. */
  datatype TagValue = TagText(text: string) | TagNumber(number: int) | TagBool(flag: bool)

  type Tags = Dict<string, TagValue>

  const TwoTo64: int := 0x1_0000_0000_0000_0000

  /** `trace_id & 0xffffffffffffffff`: Python's `&` on a non-negative mask keeps the low 64 bits. */
  function LowBits(traceId: int): (r: nat)
    ensures r < TwoTo64
    ensures 0 <= traceId < TwoTo64 ==> r == traceId
  {
    traceId % TwoTo64
  }

  /** The sampler state `_is_sampled` reads: the boundary and the fixed tags. */
  datatype ProbabilisticSampler = ProbabilisticSampler(boundary: int, tags: Tags)

  /** `_is_sampled(self, trace_id, operation)`: the decision and the sampler's tags. */
  function IsSampled(sampler: ProbabilisticSampler, traceId: int, operation: string): (r: (bool, Tags))
    ensures r.1 == sampler.tags
  {
    (LowBits(traceId) < sampler.boundary, sampler.tags)
  }

  /** An id with high half `high` and low half `low` is sampled exactly when `low` is below the boundary. */
  lemma SampledIffLowBelow(sampler: ProbabilisticSampler, high: int, low: int, operation: string)
    requires 0 <= low < TwoTo64
    ensures IsSampled(sampler, high * TwoTo64 + low, operation).0 <==> low < sampler.boundary
  {
    var t := high * TwoTo64 + low;
    var q := t / TwoTo64;
    assert t == q * TwoTo64 + LowBits(t);
    assert (high - q) * TwoTo64 == LowBits(t) - low;
    CoarseMultiple(high - q);
  }

  /** A non-zero multiple of 2^64 is at least 2^64 away from zero. */
  lemma CoarseMultiple(d: int)
    ensures d >= 1 ==> d * TwoTo64 >= TwoTo64
    ensures d <= -1 ==> d * TwoTo64 <= -TwoTo64
  {
  }

  /** Changing the high half of the id (adding any multiple of 2^64) leaves the decision alone. */
  lemma HighBitsIgnored(sampler: ProbabilisticSampler, traceId: int, high: int, operation: string)
    ensures IsSampled(sampler, traceId + high * TwoTo64, operation) == IsSampled(sampler, traceId, operation)
  {
    var low := LowBits(traceId);
    var q := traceId / TwoTo64;
    assert traceId == q * TwoTo64 + low;
    SampledIffLowBelow(sampler, q, low, operation);
    assert traceId + high * TwoTo64 == (q + high) * TwoTo64 + low;
    SampledIffLowBelow(sampler, q + high, low, operation);
  }

  /** The operation name has no effect on the decision or the tags. */
  lemma OperationIgnored(sampler: ProbabilisticSampler, traceId: int, operation: string, other: string)
    ensures IsSampled(sampler, traceId, operation) == IsSampled(sampler, traceId, other)
  {
  }

  /** A sampled id samples every id whose low 64 bits are smaller. */
  lemma Monotone(sampler: ProbabilisticSampler, traceId: int, smaller: int, operation: string)
    requires LowBits(smaller) <= LowBits(traceId)
    requires IsSampled(sampler, traceId, operation).0
    ensures IsSampled(sampler, smaller, operation).0
  {
  }

  /** The half-rate boundary 2^63: ids just below it are sampled, ids just above are not, for 64-bit and 128-bit ids. */
  lemma HalfRateVector(tags: Tags, high: nat, operation: string)
    requires high < TwoTo64
    ensures var s := ProbabilisticSampler(0x8000_0000_0000_0000, tags);
      && IsSampled(s, 0x8000_0000_0000_0000 - 10, operation) == (true, tags)
      && IsSampled(s, 0x8000_0000_0000_0000 + 10, operation) == (false, tags)
      && IsSampled(s, high * TwoTo64 + 0x8000_0000_0000_0000 - 10, operation) == (true, tags)
      && IsSampled(s, high * TwoTo64 + 0x8000_0000_0000_0000 + 10, operation) == (false, tags)
  {
    var s := ProbabilisticSampler(0x8000_0000_0000_0000, tags);
    HighBitsIgnored(s, 0x8000_0000_0000_0000 - 10, high, operation);
    HighBitsIgnored(s, 0x8000_0000_0000_0000 + 10, high, operation);
  }
}
