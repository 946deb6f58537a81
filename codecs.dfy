/**
 * The B3 header codec: a span context travels as the OpenZipkin B3 headers
 * X-B3-TraceId, X-B3-SpanId, X-B3-ParentSpanId (zero-padded lower-case hex),
 * X-B3-Sampled and X-B3-Flags ("1" markers).
 */
module B3Codecs {
  import opened Wrappers
  import opened Strings
  import opened Dicts
  import opened Spans

  const TraceIdName := "X-B3-TraceId"
  const SpanIdName := "X-B3-SpanId"
  const ParentSpanIdName := "X-B3-ParentSpanId"
  const SampledName := "X-B3-Sampled"
  const FlagsName := "X-B3-Flags"

  /** The header names lower-cased: the keys `extract` recognises. */
  const TraceIdKey := "x-b3-traceid"
  const SpanIdKey := "x-b3-spanid"
  const ParentSpanIdKey := "x-b3-parentspanid"
  const SampledKey := "x-b3-sampled"
  const FlagsKey := "x-b3-flags"

  /** The context the codec reads and writes; flag bit 1 is "sampled", bit 2 "debug". */
  datatype B3Context = B3Context(traceId: nat, spanId: nat, parentId: Option<nat>, flags: nat)

  // ---------------------------------------------------------------------------
  // Hexadecimal ids

  function Pow16(k: nat): (p: nat)
    ensures p >= 1
    ensures k >= 1 ==> p >= 16
  {
    if k == 0 then 1 else 16 * Pow16(k - 1)
  }

  predicate IsLowerHexChar(c: char) {
    '0' <= c <= '9' || 'a' <= c <= 'f'
  }

  /** A digit `int(_, 16)` accepts: either case. */
  predicate IsHexChar(c: char) {
    IsLowerHexChar(c) || 'A' <= c <= 'F'
  }

  predicate IsHexString(s: string) {
    |s| > 0 && forall i :: 0 <= i < |s| ==> IsHexChar(s[i])
  }

  function HexChar(d: nat): (c: char)
    requires d < 16
    ensures IsLowerHexChar(c)
  {
    if d < 10 then ('0' as int + d) as char else ('a' as int + d - 10) as char
  }

  function HexCharValue(c: char): (d: nat)
    requires IsHexChar(c)
    ensures d < 16
  {
    if '0' <= c <= '9' then c as int - '0' as int
    else if 'a' <= c <= 'f' then c as int - 'a' as int + 10
    else c as int - 'A' as int + 10
  }

  /** `format(v, 'x')`: the digits of `v` in lower-case hex, without leading zeros. */
  function HexDigits(v: nat): (s: string)
    ensures |s| >= 1
    ensures forall i :: 0 <= i < |s| ==> IsLowerHexChar(s[i])
  {
    if v < 16 then [HexChar(v)] else HexDigits(v / 16) + [HexChar(v % 16)]
  }

  /** The number a string of hex digits denotes, most significant digit first. */
  function HexValue(s: string): nat
    requires forall i :: 0 <= i < |s| ==> IsHexChar(s[i])
  {
    if s == [] then 0 else HexValue(s[..|s| - 1]) * 16 + HexCharValue(s[|s| - 1])
  }

  lemma {:induction false} HexValueOfDigits(v: nat)
    ensures HexValue(HexDigits(v)) == v
  {
    if v >= 16 {
      var s := HexDigits(v);
      assert s[..|s| - 1] == HexDigits(v / 16);
      HexValueOfDigits(v / 16);
    }
  }

  /** `v` needs at most `k` hex digits exactly when it is below 16^k. */
  lemma {:induction false} HexDigitsLength(v: nat, k: nat)
    requires k >= 1
    ensures |HexDigits(v)| <= k <==> v < Pow16(k)
  {
    if v >= 16 && k >= 2 {
      HexDigitsLength(v / 16, k - 1);
    }
  }

  function Zeros(n: nat): (s: string)
    ensures |s| == n
    ensures forall i :: 0 <= i < n ==> s[i] == '0'
  {
    seq(n, i => '0')
  }

  /** Python's `'{:0Nx}'` zero fill: pads on the left up to `width`, never truncates. */
  function ZeroPad(s: string, width: nat): (r: string)
    ensures |r| == if |s| < width then width else |s|
  {
    if |s| < width then Zeros(width - |s|) + s else s
  }

  lemma {:induction false} HexValueZeroPrefix(n: nat, s: string)
    requires forall i :: 0 <= i < |s| ==> IsHexChar(s[i])
    ensures forall i :: 0 <= i < |Zeros(n) + s| ==> IsHexChar((Zeros(n) + s)[i])
    ensures HexValue(Zeros(n) + s) == HexValue(s)
    decreases n + |s|
  {
    var z := Zeros(n) + s;
    assert forall i :: 0 <= i < |z| ==> IsHexChar(z[i]) by {
      forall i | 0 <= i < |z| ensures IsHexChar(z[i]) {
        if i >= n { assert z[i] == s[i - n]; }
      }
    }
    if s == [] {
      if n > 0 {
        assert z[..|z| - 1] == Zeros(n - 1) + [];
        HexValueZeroPrefix(n - 1, []);
      }
    } else {
      assert z[..|z| - 1] == Zeros(n) + s[..|s| - 1];
      HexValueZeroPrefix(n, s[..|s| - 1]);
    }
  }

  const TwoTo64 := 0x1_0000_0000_0000_0000
  const TwoTo128 := 0x1_0000_0000_0000_0000_0000_0000_0000_0000

  lemma Pow16Bounds()
    ensures Pow16(16) == TwoTo64 && Pow16(32) == TwoTo128
  {
    assert Pow16(1) == 16;
    assert Pow16(2) == 256;
    assert Pow16(3) == 4096;
    assert Pow16(4) == 65536;
    assert Pow16(5) == 1048576;
    assert Pow16(6) == 16777216;
    assert Pow16(7) == 268435456;
    assert Pow16(8) == 4294967296;
    assert Pow16(9) == 68719476736;
    assert Pow16(10) == 1099511627776;
    assert Pow16(11) == 17592186044416;
    assert Pow16(12) == 281474976710656;
    assert Pow16(13) == 4503599627370496;
    assert Pow16(14) == 72057594037927936;
    assert Pow16(15) == 1152921504606846976;
    assert Pow16(16) == 18446744073709551616;
    assert Pow16(17) == 295147905179352825856;
    assert Pow16(18) == 4722366482869645213696;
    assert Pow16(19) == 75557863725914323419136;
    assert Pow16(20) == 1208925819614629174706176;
    assert Pow16(21) == 19342813113834066795298816;
    assert Pow16(22) == 309485009821345068724781056;
    assert Pow16(23) == 4951760157141521099596496896;
    assert Pow16(24) == 79228162514264337593543950336;
    assert Pow16(25) == 1267650600228229401496703205376;
    assert Pow16(26) == 20282409603651670423947251286016;
    assert Pow16(27) == 324518553658426726783156020576256;
    assert Pow16(28) == 5192296858534827628530496329220096;
    assert Pow16(29) == 83076749736557242056487941267521536;
    assert Pow16(30) == 1329227995784915872903807060280344576;
    assert Pow16(31) == 21267647932558653966460912964485513216;
    assert Pow16(32) == 340282366920938463463374607431768211456;
  }

  /** `int(v, 16)` raises `ValueError` on a string that is not hex. */
  datatype HexError = InvalidLiteral(text: string)

  /** `from_lower_hex`. */
  function FromLowerHex(s: string): (r: Result<nat, HexError>)
    ensures r.Success? <==> IsHexString(s)
  {
    if IsHexString(s) then Success(HexValue(s)) else Failure(InvalidLiteral(s))
  }

  lemma {:induction false} ZeroPadHex(s: string, width: nat)
    requires forall i :: 0 <= i < |s| ==> IsLowerHexChar(s[i])
    ensures forall i :: 0 <= i < |ZeroPad(s, width)| ==> IsLowerHexChar(ZeroPad(s, width)[i])
    ensures |s| > 0 ==> IsHexString(ZeroPad(s, width))
    ensures HexValue(ZeroPad(s, width)) == HexValue(s)
  {
    var r := ZeroPad(s, width);
    if |s| < width {
      forall i | 0 <= i < |r| ensures IsLowerHexChar(r[i]) {
        if i >= width - |s| { assert r[i] == s[i - (width - |s|)]; }
      }
      HexValueZeroPrefix(width - |s|, s);
    }
  }

  lemma HexDigitsWidth(v: nat)
    ensures v < TwoTo64 ==> |HexDigits(v)| <= 16
    ensures v < TwoTo128 ==> |HexDigits(v)| <= 32
  {
    Pow16Bounds();
    HexDigitsLength(v, 16);
    HexDigitsLength(v, 32);
  }

  /**
   * `to_lower_hex`: 16 zero-padded lower-case hex digits for a 64-bit id,
   * 32 for a larger one; `from_lower_hex` reads the id back.
   */
  function ToLowerHex(v: nat): (s: string)
    ensures v < TwoTo64 ==> |s| == 16
    ensures TwoTo64 <= v < TwoTo128 ==> |s| == 32
    ensures TwoTo64 <= v ==> |s| >= 32
    ensures forall i :: 0 <= i < |s| ==> IsLowerHexChar(s[i])
    ensures FromLowerHex(s) == Success(v)
  {
    var digits := HexDigits(v);
    var width := if v / TwoTo64 == 0 then 16 else 32;
    HexDigitsWidth(v);
    HexValueOfDigits(v);
    ZeroPadHex(digits, width);
    ZeroPad(digits, width)
  }

  /** The largest id with `n` hex digits is written as `n` digits `f`. */
  lemma {:induction false} HexDigitsOfAllF(n: nat)
    requires n >= 1
    ensures HexDigits(Pow16(n) - 1) == seq(n, i => 'f')
  {
    if n >= 2 {
      var v := Pow16(n) - 1;
      assert v == 16 * (Pow16(n - 1) - 1) + 15;
      assert v / 16 == Pow16(n - 1) - 1 && v % 16 == 15;
      HexDigitsOfAllF(n - 1);
      assert seq(n - 1, i => 'f') + ['f'] == seq(n, i => 'f');
    }
  }

  /** Shifting an id left by `n` hex digits appends `n` zero digits. */
  lemma {:induction false} HexDigitsShift(v: nat, n: nat)
    requires v >= 1
    ensures HexDigits(v * Pow16(n)) == HexDigits(v) + Zeros(n)
  {
    if n >= 1 {
      var w := v * Pow16(n - 1);
      assert v * Pow16(n) == 16 * w + 0;
      assert w >= 1;
      HexDigitsShift(v, n - 1);
      assert HexDigits(v) + Zeros(n - 1) + ['0'] == HexDigits(v) + Zeros(n);
    } else {
      assert HexDigits(v) + Zeros(0) == HexDigits(v);
    }
  }

  /** The 64-bit `to_lower_hex` vector of the codec's unit tests. */
  lemma ToLowerHexVector64()
    ensures ToLowerHex(0) == "0000000000000000"
  {
    assert ZeroPad(HexDigits(0), 16) == "0000000000000000";
  }

  /** The largest 68-bit id is written as 15 zeros and 17 digits `f`. */
  lemma ToLowerHexAllF17()
    ensures ToLowerHex(Pow16(17) - 1) == Zeros(15) + seq(17, i => 'f')
  {
    var v := Pow16(17) - 1;
    HexDigitsOfAllF(17);
    Pow16Bounds();
    assert v / TwoTo64 == 15;
  }

  /** The 128-bit `to_lower_hex` vector of the codec's unit tests. */
  lemma ToLowerHexVector128()
    ensures ToLowerHex(0xf_ffff_ffff_ffff_ffff) == "000000000000000fffffffffffffffff"
  {
    assert Zeros(15) + seq(17, i => 'f') == "000000000000000fffffffffffffffff";
    assert Pow16(17) - 1 == 0xf_ffff_ffff_ffff_ffff by {
      Pow16Bounds();
      assert Pow16(17) == 16 * Pow16(16);
    }
    ToLowerHexAllF17();
  }

  /** The 64-bit `from_lower_hex` vector of the codec's unit tests. */
  lemma FromLowerHexVector64()
    ensures FromLowerHex("0000000000000001") == Success(1)
  {
    assert ZeroPad(HexDigits(1), 16) == "0000000000000001";
    assert ToLowerHex(1) == "0000000000000001";
  }

  /** The 128-bit `from_lower_hex` vector of the codec's unit tests. */
  lemma FromLowerHexVector128()
    ensures FromLowerHex("00000000000000080000000000000000") == Success(0x8_0000_0000_0000_0000)
  {
    assert Zeros(15) + (['8'] + Zeros(16)) == "00000000000000080000000000000000";
    assert 8 * Pow16(16) == 0x8_0000_0000_0000_0000 by {
      Pow16Bounds();
    }
    ToLowerHexEightShifted();
  }

  /** `8 << 64` is written as 15 zeros, the digit `8` and 16 zeros. */
  lemma ToLowerHexEightShifted()
    ensures ToLowerHex(8 * Pow16(16)) == Zeros(15) + (['8'] + Zeros(16))
  {
    var v := 8 * Pow16(16);
    assert HexDigits(v) == ['8'] + Zeros(16) by {
      HexDigitsShift(8, 16);
      assert HexDigits(8) == ['8'];
    }
    assert v / TwoTo64 == 8 by {
      Pow16Bounds();
    }
  }

  // ---------------------------------------------------------------------------
  // inject

  /** The five B3 header names, as `inject` writes them. */
  predicate IsB3Name(k: string) {
    k == TraceIdName || k == SpanIdName || k == ParentSpanIdName || k == SampledName || k == FlagsName
  }

  lemma B3NamesDistinct()
    ensures TraceIdName != SpanIdName && TraceIdName != ParentSpanIdName && TraceIdName != SampledName
    ensures TraceIdName != FlagsName && SpanIdName != ParentSpanIdName && SpanIdName != SampledName
    ensures SpanIdName != FlagsName && ParentSpanIdName != SampledName && ParentSpanIdName != FlagsName
    ensures SampledName != FlagsName
  {
    assert TraceIdName[5] != SampledName[5];
  }

  /** The parent id is written when it is truthy: present and not zero. */
  predicate ParentWritten(ctx: B3Context) {
    ctx.parentId.Some? && ctx.parentId.value != 0
  }

  /** `d` with `k` set to `v` when `cond` holds, and `d` itself otherwise. */
  function PutIf(d: Dict<string, Option<string>>, cond: bool, k: string, v: Option<string>): (r: Dict<string, Option<string>>)
    ensures Get(r, k) == if cond then Some(v) else Get(d, k)
    ensures forall k' {:trigger Get(d, k')} :: k' != k ==> Get(r, k') == Get(d, k')
    ensures DistinctKeys(d) ==> DistinctKeys(r)
  {
    if cond then Put(d, k, v) else d
  }

  /** The carrier after `inject` wrote `ctx` into it; keys other than the five B3 names keep their values. */
  function InjectItems(ctx: B3Context, carrier: Dict<string, Option<string>>): (r: Dict<string, Option<string>>)
    ensures forall k {:trigger Get(carrier, k)} :: !IsB3Name(k) ==> Get(r, k) == Get(carrier, k)
    ensures DistinctKeys(carrier) ==> DistinctKeys(r)
  {
    var c1 := PutIf(carrier, true, TraceIdName, Some(ToLowerHex(ctx.traceId)));
    var c2 := PutIf(c1, ParentWritten(ctx), ParentSpanIdName,
                    Some(if ParentWritten(ctx) then ToLowerHex(ctx.parentId.value) else ""));
    var c3 := PutIf(c2, true, SpanIdName, Some(ToLowerHex(ctx.spanId)));
    var c4 := PutIf(c3, HasFlag(ctx.flags, SampledFlag), SampledName, Some("1"));
    PutIf(c4, HasFlag(ctx.flags, DebugFlag), FlagsName, Some("1"))
  }

  /**
   * `inject` always writes the trace id and the span id; it writes the parent id
   * only when it is truthy, "1" under X-B3-Sampled only when the sampled bit is
   * set and "1" under X-B3-Flags only when the debug bit is set. A header it does
   * not write keeps the value it had.
   */
  lemma InjectWrites(ctx: B3Context, carrier: Dict<string, Option<string>>)
    ensures var r := InjectItems(ctx, carrier);
      && Get(r, TraceIdName) == Some(Some(ToLowerHex(ctx.traceId)))
      && Get(r, SpanIdName) == Some(Some(ToLowerHex(ctx.spanId)))
      && Get(r, ParentSpanIdName) ==
           (if ParentWritten(ctx) then Some(Some(ToLowerHex(ctx.parentId.value))) else Get(carrier, ParentSpanIdName))
      && Get(r, SampledName) == (if HasFlag(ctx.flags, SampledFlag) then Some(Some("1")) else Get(carrier, SampledName))
      && Get(r, FlagsName) == (if HasFlag(ctx.flags, DebugFlag) then Some(Some("1")) else Get(carrier, FlagsName))
  {
    var c1 := PutIf(carrier, true, TraceIdName, Some(ToLowerHex(ctx.traceId)));
    var c2 := PutIf(c1, ParentWritten(ctx), ParentSpanIdName,
                    Some(if ParentWritten(ctx) then ToLowerHex(ctx.parentId.value) else ""));
    var c3 := PutIf(c2, true, SpanIdName, Some(ToLowerHex(ctx.spanId)));
    var c4 := PutIf(c3, HasFlag(ctx.flags, SampledFlag), SampledName, Some("1"));
    var c5 := PutIf(c4, HasFlag(ctx.flags, DebugFlag), FlagsName, Some("1"));
    B3NamesDistinct();
    assert Get(c5, TraceIdName) == Get(c1, TraceIdName);
    assert Get(c5, SpanIdName) == Get(c3, SpanIdName);
    assert Get(c5, ParentSpanIdName) == Get(c2, ParentSpanIdName);
    assert Get(c5, SampledName) == Get(c4, SampledName);
    assert Get(c1, SampledName) == Get(carrier, SampledName);
    assert Get(c2, SampledName) == Get(c1, SampledName);
    assert Get(c3, SampledName) == Get(c2, SampledName);
    assert Get(c1, FlagsName) == Get(carrier, FlagsName);
    assert Get(c2, FlagsName) == Get(c1, FlagsName);
    assert Get(c3, FlagsName) == Get(c2, FlagsName);
    assert Get(c4, FlagsName) == Get(c3, FlagsName);
  }

  /** An HTTP header carrier: a Python dict of header names to values (`None` allowed). */
  class Carrier {
    var entries: Dict<string, Option<string>>

    constructor ()
      ensures entries == []
    {
      entries := [];
    }
  }

  /** `B3Codec.inject`. */
  method Inject(ctx: B3Context, carrier: Carrier)
    modifies carrier
    ensures carrier.entries == InjectItems(ctx, old(carrier.entries))
  {
    carrier.entries := Put(carrier.entries, TraceIdName, Some(ToLowerHex(ctx.traceId)));
    if ctx.parentId.Some? && ctx.parentId.value != 0 {
      carrier.entries := Put(carrier.entries, ParentSpanIdName, Some(ToLowerHex(ctx.parentId.value)));
    }
    carrier.entries := Put(carrier.entries, SpanIdName, Some(ToLowerHex(ctx.spanId)));
    if HasFlag(ctx.flags, SampledFlag) {
      carrier.entries := Put(carrier.entries, SampledName, Some("1"));
    }
    if HasFlag(ctx.flags, DebugFlag) {
      carrier.entries := Put(carrier.entries, FlagsName, Some("1"));
    }
  }

  // ---------------------------------------------------------------------------
  // extract

  /** The context `extract` fills in while it scans the carrier. */
  datatype Partial = Partial(traceId: Option<nat>, spanId: Option<nat>, parentId: Option<nat>, flags: nat)

  /** The context `extract` starts from: no ids and no flags. */
  const EmptyPartial := Partial(None, None, None, 0)

  /** `flags |= bit`. */
  function SetFlag(flags: nat, bit: nat): nat
    requires bit == SampledFlag || bit == DebugFlag
  {
    if HasFlag(flags, bit) then flags else flags + bit
  }

  /** One carrier item through the extractor its lower-cased key selects. */
  function ExtractItem(ctx: Partial, key: string, value: Option<string>): (r: Result<Partial, HexError>)
    ensures r.Failure? <==> BadItem(key, value)
    ensures value.None? || !IsB3Key(Lower(key)) ==> r == Success(ctx)
  {
    var k := Lower(key);
    if value.None? then Success(ctx)
    else
      var v := value.value;
      if k == TraceIdKey then
        match FromLowerHex(v)
        case Success(n) => Success(ctx.(traceId := Some(n)))
        case Failure(e) => Failure(e)
      else if k == SpanIdKey then
        match FromLowerHex(v)
        case Success(n) => Success(ctx.(spanId := Some(n)))
        case Failure(e) => Failure(e)
      else if k == ParentSpanIdKey then
        match FromLowerHex(v)
        case Success(n) => Success(ctx.(parentId := Some(n)))
        case Failure(e) => Failure(e)
      else if k == SampledKey then
        Success(if v == "1" || v == "true" then ctx.(flags := SetFlag(ctx.flags, SampledFlag)) else ctx)
      else if k == FlagsKey then
        Success(if v == "1" then ctx.(flags := SetFlag(ctx.flags, DebugFlag)) else ctx)
      else
        Success(ctx)
  }

  /** The carrier's items through their extractors, in iteration order; the first error stops the scan. */
  function ExtractItems(ctx: Partial, items: Dict<string, Option<string>>): (r: Result<Partial, HexError>)
    ensures r.Failure? <==> !NoBadItem(items)
    decreases |items|
  {
    if items == [] then Success(ctx)
    else
      assert forall i :: 0 <= i < |items| - 1 ==> items[1..][i] == items[i + 1];
      match ExtractItem(ctx, items[0].0, items[0].1)
      case Failure(e) => Failure(e)
      case Success(c) => ExtractItems(c, items[1..])
  }

  /** The result of `extract`: `None` unless both the trace id and the span id were found. */
  function ExtractResult(items: Dict<string, Option<string>>): (r: Result<Option<B3Context>, HexError>)
    ensures r.Failure? <==> !NoBadItem(items)
  {
    match ExtractItems(EmptyPartial, items)
    case Failure(e) => Failure(e)
    case Success(c) =>
      if c.traceId.None? || c.spanId.None? then Success(None)
      else Success(Some(B3Context(c.traceId.value, c.spanId.value, c.parentId, c.flags)))
  }

  /** `B3Codec.extract`. */
  method Extract(carrier: Carrier) returns (r: Result<Option<B3Context>, HexError>)
    ensures r == ExtractResult(carrier.entries)
  {
    var items := carrier.entries;
    var spanContext := EmptyPartial;
    var i := 0;
    while i < |items|
      invariant 0 <= i <= |items|
      invariant ExtractItems(EmptyPartial, items) == ExtractItems(spanContext, items[i..])
    {
      var (k, v) := items[i];
      assert items[i..][1..] == items[i + 1..];
      var lowered := Lower(k);
      if v.Some? {
        if lowered == TraceIdKey || lowered == SpanIdKey || lowered == ParentSpanIdKey {
          var parsed := FromLowerHex(v.value);
          if parsed.Failure? {
            return Failure(parsed.error);
          }
          if lowered == TraceIdKey {
            spanContext := spanContext.(traceId := Some(parsed.value));
          } else if lowered == SpanIdKey {
            spanContext := spanContext.(spanId := Some(parsed.value));
          } else {
            spanContext := spanContext.(parentId := Some(parsed.value));
          }
        } else if lowered == SampledKey {
          if v.value == "1" || v.value == "true" {
            spanContext := spanContext.(flags := SetFlag(spanContext.flags, SampledFlag));
          }
        } else if lowered == FlagsKey {
          if v.value == "1" {
            spanContext := spanContext.(flags := SetFlag(spanContext.flags, DebugFlag));
          }
        }
      }
      i := i + 1;
    }
    if spanContext.traceId.None? || spanContext.spanId.None? {
      return Success(None);
    }
    return Success(Some(B3Context(spanContext.traceId.value, spanContext.spanId.value,
                                  spanContext.parentId, spanContext.flags)));
  }

  // ---------------------------------------------------------------------------
  // What extract computes, stated without the scan

  /** The keys whose extractor parses a hex id. */
  predicate IsIdKey(k: string) {
    k == TraceIdKey || k == SpanIdKey || k == ParentSpanIdKey
  }

  /** An item whose id extractor raises: a present value under an id key that is not hex. */
  predicate BadItem(key: string, value: Option<string>) {
    value.Some? && IsIdKey(Lower(key)) && !IsHexString(value.value)
  }

  predicate NoBadItem(items: Dict<string, Option<string>>) {
    forall i :: 0 <= i < |items| ==> !BadItem(items[i].0, items[i].1)
  }

  /** Item `i` is present under the lower-cased `key`. */
  predicate PresentAt(items: Dict<string, Option<string>>, key: string, i: int)
    requires 0 <= i < |items|
  {
    Lower(items[i].0) == key && items[i].1.Some?
  }

  /** The value of the last item whose lower-cased key is `key` and whose value is not `None`. */
  function LastValue(items: Dict<string, Option<string>>, key: string): (r: Option<string>)
    ensures r.None? <==> forall i :: 0 <= i < |items| ==> !PresentAt(items, key, i)
    ensures r.Some? ==>
      exists i :: (0 <= i < |items| && PresentAt(items, key, i) && items[i].1 == r
        && forall j :: i < j < |items| ==> !PresentAt(items, key, j))
    decreases |items|
  {
    if items == [] then None
    else
      var rest := LastValue(items[1..], key);
      if rest.Some? then
        assert forall i :: 1 <= i < |items| ==> items[1..][i - 1] == items[i];
        var i :| 0 <= i < |items| - 1 && PresentAt(items[1..], key, i) && items[1..][i].1 == rest
          && forall j :: i < j < |items| - 1 ==> !PresentAt(items[1..], key, j);
        assert PresentAt(items, key, i + 1);
        assert forall j :: i + 1 < j < |items| ==> !PresentAt(items, key, j) by {
          forall j | i + 1 < j < |items| ensures !PresentAt(items, key, j) {
            assert !PresentAt(items[1..], key, j - 1);
          }
        }
        rest
      else
        assert forall i :: 1 <= i < |items| ==> !PresentAt(items, key, i) by {
          forall i | 1 <= i < |items| ensures !PresentAt(items, key, i) {
            assert !PresentAt(items[1..], key, i - 1);
          }
        }
        if PresentAt(items, key, 0) then items[0].1 else None
  }

  /** The id held after the scan: the last value under `key` parsed, else what the context held before. */
  function IdAfter(prev: Option<nat>, items: Dict<string, Option<string>>, key: string): (r: Option<nat>)
    requires NoBadItem(items)
    requires IsIdKey(key)
  {
    match LastValue(items, key)
    case None => prev
    case Some(v) =>
      assert IsHexString(v) by {
        var i :| 0 <= i < |items| && PresentAt(items, key, i) && items[i].1 == Some(v)
          && forall j :: i < j < |items| ==> !PresentAt(items, key, j);
        assert !BadItem(items[i].0, items[i].1);
      }
      Some(HexValue(v))
  }

  /** Some present item under `key` carries one of the `accepted` markers. */
  predicate Marked(items: Dict<string, Option<string>>, key: string, accepted: set<string>) {
    exists i :: 0 <= i < |items| && Lower(items[i].0) == key && items[i].1.Some? && items[i].1.value in accepted
  }

  /** The flags after the scan: bit 1 for a sampled marker, bit 2 for a debug marker, on top of `prev`'s. */
  function FlagsAfter(prev: nat, items: Dict<string, Option<string>>): nat {
    (if HasFlag(prev, SampledFlag) || Marked(items, SampledKey, {"1", "true"}) then SampledFlag else 0)
    + (if HasFlag(prev, DebugFlag) || Marked(items, FlagsKey, {"1"}) then DebugFlag else 0)
  }

  /** Splitting a marker over the first item and the rest. */
  lemma MarkedCons(items: Dict<string, Option<string>>, key: string, accepted: set<string>)
    requires items != []
    ensures Marked(items, key, accepted) <==>
      (Lower(items[0].0) == key && items[0].1.Some? && items[0].1.value in accepted)
      || Marked(items[1..], key, accepted)
  {
    if Marked(items[1..], key, accepted) {
      var i :| 0 <= i < |items[1..]| && Lower(items[1..][i].0) == key
        && items[1..][i].1.Some? && items[1..][i].1.value in accepted;
      assert items[i + 1] == items[1..][i];
    }
    if Marked(items, key, accepted) && !(Lower(items[0].0) == key && items[0].1.Some? && items[0].1.value in accepted) {
      var i :| 0 <= i < |items| && Lower(items[i].0) == key && items[i].1.Some? && items[i].1.value in accepted;
      assert i > 0;
      assert items[1..][i - 1] == items[i];
    }
  }

  /** A flags value below 4 is the sum of its two bits. */
  lemma FlagsBits(f: nat)
    requires f < 4
    ensures f == (if HasFlag(f, SampledFlag) then SampledFlag else 0) + (if HasFlag(f, DebugFlag) then DebugFlag else 0)
  {
    assert f == 0 || f == 1 || f == 2 || f == 3;
  }

  /** One item through its extractor, when it does not raise. */
  lemma ExtractItemEffect(ctx: Partial, key: string, value: Option<string>)
    requires ctx.flags < 4
    requires !BadItem(key, value)
    ensures var k := Lower(key);
      ExtractItem(ctx, key, value) == Success(Partial(
        if k == TraceIdKey && value.Some? then Some(HexValue(value.value)) else ctx.traceId,
        if k == SpanIdKey && value.Some? then Some(HexValue(value.value)) else ctx.spanId,
        if k == ParentSpanIdKey && value.Some? then Some(HexValue(value.value)) else ctx.parentId,
        FlagsAfter(ctx.flags, [(key, value)])))
  {
    var one: Dict<string, Option<string>> := [(key, value)];
    assert Marked(one, SampledKey, {"1", "true"}) <==>
      Lower(key) == SampledKey && value.Some? && value.value in {"1", "true"} by {
      MarkedCons(one, SampledKey, {"1", "true"});
    }
    assert Marked(one, FlagsKey, {"1"}) <==> Lower(key) == FlagsKey && value.Some? && value.value in {"1"} by {
      MarkedCons(one, FlagsKey, {"1"});
    }
    FlagsBits(ctx.flags);
  }

  /**
   * A scan that meets no malformed id succeeds, and its result is stated per field:
   * each id is the last value under its (case-insensitive) header, and each flag bit
   * is set when any header carries its marker.
   */
  lemma {:induction false} ExtractSucceeds(ctx: Partial, items: Dict<string, Option<string>>)
    requires ctx.flags < 4
    requires NoBadItem(items)
    ensures ExtractItems(ctx, items) == Success(Partial(
      IdAfter(ctx.traceId, items, TraceIdKey),
      IdAfter(ctx.spanId, items, SpanIdKey),
      IdAfter(ctx.parentId, items, ParentSpanIdKey),
      FlagsAfter(ctx.flags, items)))
    decreases |items|
  {
    if items == [] {
      FlagsBits(ctx.flags);
    } else {
      var (key, value) := items[0];
      assert !BadItem(key, value);
      ExtractItemEffect(ctx, key, value);
      var c := ExtractItem(ctx, key, value).value;
      var rest := items[1..];
      assert NoBadItem(rest) by {
        forall i | 0 <= i < |rest| ensures !BadItem(rest[i].0, rest[i].1) {
          assert rest[i] == items[i + 1];
        }
      }
      assert c.flags < 4;
      ExtractSucceeds(c, rest);
      MarkedCons(items, SampledKey, {"1", "true"});
      MarkedCons(items, FlagsKey, {"1"});
      var one: Dict<string, Option<string>> := [(key, value)];
      MarkedCons(one, SampledKey, {"1", "true"});
      MarkedCons(one, FlagsKey, {"1"});
      assert FlagsAfter(c.flags, rest) == FlagsAfter(ctx.flags, items);
    }
  }

  /** Headers without a B3 key leave the context as it was. */
  lemma {:induction false} ForeignScan(ctx: Partial, items: Dict<string, Option<string>>)
    ensures ForeignHeaders(items) ==> ExtractItems(ctx, items) == Success(ctx)
    decreases |items|
  {
    if items != [] && ForeignHeaders(items) {
      var rest := items[1..];
      assert ForeignHeaders(rest) by {
        assert forall i :: 0 <= i < |rest| ==> rest[i] == items[i + 1];
      }
      ForeignScan(ctx, rest);
    }
  }

  /** A carrier without B3 headers, in any letter case, gives no context. */
  lemma ExtractForeign(items: Dict<string, Option<string>>)
    requires ForeignHeaders(items)
    ensures ExtractResult(items) == Success(None)
  {
    ForeignScan(EmptyPartial, items);
  }

  /** Header names match case-insensitively: only the lower-cased keys and the values matter. */
  lemma {:induction false} ExtractCaseInsensitive(ctx: Partial, a: Dict<string, Option<string>>, b: Dict<string, Option<string>>)
    requires |a| == |b|
    requires forall i :: 0 <= i < |a| ==> Lower(a[i].0) == Lower(b[i].0) && a[i].1 == b[i].1
    ensures ExtractItems(ctx, a) == ExtractItems(ctx, b)
    decreases |a|
  {
    if a != [] {
      assert ExtractItem(ctx, a[0].0, a[0].1) == ExtractItem(ctx, b[0].0, b[0].1);
      match ExtractItem(ctx, a[0].0, a[0].1)
      case Failure(_) =>
      case Success(c) =>
        assert forall i :: 0 <= i < |a| - 1 ==> a[1..][i] == a[i + 1] && b[1..][i] == b[i + 1];
        ExtractCaseInsensitive(c, a[1..], b[1..]);
    }
  }

  /**
   * `extract` as a whole: it raises on a malformed id; otherwise it returns no context
   * exactly when no trace id or no span id was found, and else the last trace id,
   * span id and parent id found, with flags that start at 0 and gain a bit per marker.
   */
  lemma ExtractResultSpec(items: Dict<string, Option<string>>)
    ensures !NoBadItem(items) ==> ExtractResult(items).Failure?
    ensures NoBadItem(items) ==>
      (ExtractResult(items) ==
        var traceId := IdAfter(None, items, TraceIdKey);
        var spanId := IdAfter(None, items, SpanIdKey);
        if traceId.None? || spanId.None? then Success(None)
        else Success(Some(B3Context(traceId.value, spanId.value, IdAfter(None, items, ParentSpanIdKey),
                                    FlagsAfter(0, items)))))
  {
    if NoBadItem(items) {
      ExtractSucceeds(EmptyPartial, items);
    }
  }

  /** `extract` finds no context exactly when no trace id or no span id header had a value. */
  lemma ExtractNoContext(items: Dict<string, Option<string>>)
    requires NoBadItem(items)
    ensures ExtractResult(items) == Success(None) <==>
      LastValue(items, TraceIdKey).None? || LastValue(items, SpanIdKey).None?
  {
    ExtractResultSpec(items);
  }

  // ---------------------------------------------------------------------------
  // inject, then extract

  /** A key `extract` has an extractor for. */
  predicate IsB3Key(k: string) {
    IsIdKey(k) || k == SampledKey || k == FlagsKey
  }

  lemma LowerNames()
    ensures Lower(TraceIdName) == TraceIdKey && Lower(SpanIdName) == SpanIdKey
    ensures Lower(ParentSpanIdName) == ParentSpanIdKey && Lower(SampledName) == SampledKey
    ensures Lower(FlagsName) == FlagsKey
  {
  }

  /** No item's key lower-cases to one of the B3 keys. */
  predicate ForeignHeaders(carrier: Dict<string, Option<string>>) {
    forall i :: 0 <= i < |carrier| ==> !IsB3Key(Lower(carrier[i].0))
  }

  /** When `name` is the only key that lower-cases to `key`, the scan sees exactly the item under `name`. */
  lemma LastValueOfOnlyName(items: Dict<string, Option<string>>, name: string, key: string)
    requires DistinctKeys(items)
    requires Lower(name) == key
    requires forall i :: 0 <= i < |items| && Lower(items[i].0) == key ==> items[i].0 == name
    ensures LastValue(items, key) == Get(items, name).GetOr(None)
    ensures forall accepted: set<string> {:trigger Marked(items, key, accepted)} ::
      Marked(items, key, accepted) <==> Get(items, name).GetOr(None).Some? && Get(items, name).GetOr(None).value in accepted
  {
    var r := LastValue(items, key);
    if r.Some? {
      var i :| 0 <= i < |items| && PresentAt(items, key, i) && items[i].1 == r
        && forall j :: i < j < |items| ==> !PresentAt(items, key, j);
      assert items[i].0 == name;
    }
    forall accepted: set<string> ensures
      Marked(items, key, accepted) <==> Get(items, name).GetOr(None).Some? && Get(items, name).GetOr(None).value in accepted
    {
      if Marked(items, key, accepted) {
        var i :| 0 <= i < |items| && Lower(items[i].0) == key && items[i].1.Some? && items[i].1.value in accepted;
        assert items[i].0 == name;
      }
      if Get(items, name).GetOr(None).Some? {
        var i :| 0 <= i < |items| && items[i].0 == name;
        assert PresentAt(items, key, i);
      }
    }
  }

  /** The two flag bits read back as a value: `flags & 3`. */
  lemma FlagsLowBits(f: nat)
    ensures (if HasFlag(f, SampledFlag) then SampledFlag else 0) + (if HasFlag(f, DebugFlag) then DebugFlag else 0) == f % 4
  {
    assert f % 4 == f % 2 + 2 * ((f / 2) % 2);
  }

  /**
   * `r` is what `inject` leaves in `carrier` for `ctx`: the B3 headers as `InjectWrites`
   * states them, every other key unchanged, and no key repeated.
   */
  ghost predicate InjectedFrom(ctx: B3Context, carrier: Dict<string, Option<string>>, r: Dict<string, Option<string>>) {
    && Get(r, TraceIdName) == Some(Some(ToLowerHex(ctx.traceId)))
    && Get(r, SpanIdName) == Some(Some(ToLowerHex(ctx.spanId)))
    && Get(r, ParentSpanIdName) ==
         (if ParentWritten(ctx) then Some(Some(ToLowerHex(ctx.parentId.value))) else Get(carrier, ParentSpanIdName))
    && Get(r, SampledName) == (if HasFlag(ctx.flags, SampledFlag) then Some(Some("1")) else Get(carrier, SampledName))
    && Get(r, FlagsName) == (if HasFlag(ctx.flags, DebugFlag) then Some(Some("1")) else Get(carrier, FlagsName))
    && (forall k {:trigger Get(carrier, k)} :: !IsB3Name(k) ==> Get(r, k) == Get(carrier, k))
    && DistinctKeys(r)
  }

  /** A carrier without B3 headers has none of the B3 names as a key. */
  lemma ForeignHasNoName(carrier: Dict<string, Option<string>>, k: string)
    requires ForeignHeaders(carrier)
    requires IsB3Name(k)
    ensures Get(carrier, k) == None
  {
    LowerNames();
  }

  /** After `inject`, the only key under each B3 header's lower-cased form is the header itself. */
  lemma InjectedKeys(ctx: B3Context, carrier: Dict<string, Option<string>>, r: Dict<string, Option<string>>, i: int)
    requires ForeignHeaders(carrier)
    requires InjectedFrom(ctx, carrier, r)
    requires 0 <= i < |r|
    ensures var k := r[i].0;
      && (Lower(k) == TraceIdKey ==> k == TraceIdName)
      && (Lower(k) == SpanIdKey ==> k == SpanIdName)
      && (Lower(k) == ParentSpanIdKey ==> k == ParentSpanIdName)
      && (Lower(k) == SampledKey ==> k == SampledName)
      && (Lower(k) == FlagsKey ==> k == FlagsName)
  {
    var k := r[i].0;
    LowerNames();
    if !IsB3Name(k) {
      assert HasKey(r, k);
      assert Get(carrier, k).Some?;
      var j :| 0 <= j < |carrier| && carrier[j].0 == k;
      assert !IsB3Key(Lower(carrier[j].0));
    }
  }

  /** What the scan sees in the carrier `inject` produced: one value per B3 header. */
  lemma InjectedScanView(ctx: B3Context, carrier: Dict<string, Option<string>>, r: Dict<string, Option<string>>)
    requires ForeignHeaders(carrier)
    requires InjectedFrom(ctx, carrier, r)
    ensures LastValue(r, TraceIdKey) == Some(ToLowerHex(ctx.traceId))
    ensures LastValue(r, SpanIdKey) == Some(ToLowerHex(ctx.spanId))
    ensures LastValue(r, ParentSpanIdKey) == (if ParentWritten(ctx) then Some(ToLowerHex(ctx.parentId.value)) else None)
    ensures Marked(r, SampledKey, {"1", "true"}) <==> HasFlag(ctx.flags, SampledFlag)
    ensures Marked(r, FlagsKey, {"1"}) <==> HasFlag(ctx.flags, DebugFlag)
  {
    LowerNames();
    forall i | 0 <= i < |r| ensures
      var k := r[i].0;
      && (Lower(k) == TraceIdKey ==> k == TraceIdName)
      && (Lower(k) == SpanIdKey ==> k == SpanIdName)
      && (Lower(k) == ParentSpanIdKey ==> k == ParentSpanIdName)
      && (Lower(k) == SampledKey ==> k == SampledName)
      && (Lower(k) == FlagsKey ==> k == FlagsName)
    {
      InjectedKeys(ctx, carrier, r, i);
    }
    ForeignHasNoName(carrier, ParentSpanIdName);
    ForeignHasNoName(carrier, SampledName);
    ForeignHasNoName(carrier, FlagsName);
    LastValueOfOnlyName(r, TraceIdName, TraceIdKey);
    LastValueOfOnlyName(r, SpanIdName, SpanIdKey);
    LastValueOfOnlyName(r, ParentSpanIdName, ParentSpanIdKey);
    LastValueOfOnlyName(r, SampledName, SampledKey);
    LastValueOfOnlyName(r, FlagsName, FlagsKey);
  }

  /** Every item `inject` wrote under an id header holds a `to_lower_hex` string. */
  lemma InjectedNoBadItem(ctx: B3Context, carrier: Dict<string, Option<string>>, r: Dict<string, Option<string>>)
    requires ForeignHeaders(carrier)
    requires InjectedFrom(ctx, carrier, r)
    ensures NoBadItem(r)
  {
    forall i | 0 <= i < |r| ensures !BadItem(r[i].0, r[i].1) {
      var k := r[i].0;
      InjectedKeys(ctx, carrier, r, i);
      if r[i].1.Some? && IsIdKey(Lower(k)) {
        assert Get(r, k) == Some(r[i].1);
        if k == ParentSpanIdName {
          ForeignHasNoName(carrier, k);
        }
        var n := if k == TraceIdName then ctx.traceId else if k == SpanIdName then ctx.spanId else ctx.parentId.value;
        assert r[i].1.value == ToLowerHex(n);
        assert FromLowerHex(ToLowerHex(n)).Success?;
      }
    }
  }

  /** The scan over a carrier holding one well-formed value per B3 header. */
  lemma ExtractInjected(ctx: B3Context, r: Dict<string, Option<string>>)
    requires NoBadItem(r)
    requires LastValue(r, TraceIdKey) == Some(ToLowerHex(ctx.traceId))
    requires LastValue(r, SpanIdKey) == Some(ToLowerHex(ctx.spanId))
    requires LastValue(r, ParentSpanIdKey) == (if ParentWritten(ctx) then Some(ToLowerHex(ctx.parentId.value)) else None)
    requires Marked(r, SampledKey, {"1", "true"}) <==> HasFlag(ctx.flags, SampledFlag)
    requires Marked(r, FlagsKey, {"1"}) <==> HasFlag(ctx.flags, DebugFlag)
    ensures ExtractResult(r) ==
      Success(Some(B3Context(ctx.traceId, ctx.spanId, if ParentWritten(ctx) then ctx.parentId else None, ctx.flags % 4)))
  {
    ExtractSucceeds(EmptyPartial, r);
    assert FromLowerHex(ToLowerHex(ctx.traceId)) == Success(ctx.traceId);
    assert FromLowerHex(ToLowerHex(ctx.spanId)) == Success(ctx.spanId);
    assert IdAfter(None, r, TraceIdKey) == Some(ctx.traceId);
    assert IdAfter(None, r, SpanIdKey) == Some(ctx.spanId);
    if ParentWritten(ctx) {
      assert FromLowerHex(ToLowerHex(ctx.parentId.value)) == Success(ctx.parentId.value);
    }
    assert IdAfter(None, r, ParentSpanIdKey) == if ParentWritten(ctx) then ctx.parentId else None;
    FlagsLowBits(ctx.flags);
    assert FlagsAfter(0, r) == ctx.flags % 4;
  }

  /**
   * `extract` reads back what `inject` wrote: the trace id, the span id, the parent id
   * when it was written, and the two flag bits, provided the carrier held no other
   * B3 header in any letter case.
   */
  lemma InjectExtractRoundTrip(ctx: B3Context, carrier: Dict<string, Option<string>>)
    requires DistinctKeys(carrier)
    requires ForeignHeaders(carrier)
    ensures ExtractResult(InjectItems(ctx, carrier)) ==
      Success(Some(B3Context(ctx.traceId, ctx.spanId, if ParentWritten(ctx) then ctx.parentId else None, ctx.flags % 4)))
  {
    var r := InjectItems(ctx, carrier);
    InjectWrites(ctx, carrier);
    InjectedScanView(ctx, carrier, r);
    InjectedNoBadItem(ctx, carrier, r);
    ExtractInjected(ctx, r);
  }
}
