/**
 * The Zipkin reporter: spans reported by the tracer wait in a bounded FIFO
 * queue; a consumer takes them off in batches of at most `batch_size`, turns
 * each batch into wire spans and hands it to the transport, counting what was
 * delivered, what failed and what was dropped.
 *
 * The single IOLoop thread the reporter runs on is modelled sequentially: each
 * method below runs to its next suspension point, and the environment
 * interleaves `Report`, `Close`, `Flush` and `ConsumeQueue` calls.
 */
module Reporter {
  import opened Wrappers
  import opened ZipkinCore
  import opened Spans
  import opened JaegerThrift
  import opened Thrift

  // ---------------------------------------------------------------------------
  // Configuration

  datatype ConfigError = CapacityBelowBatch | BatchSizeNotPositive

  /** The check `__init__` makes, as written: only `queue_capacity < batch_size` raises. */
  function CheckConfigAsWritten(queueCapacity: int, batchSize: int): (r: Result<(), ConfigError>)
    ensures r.Success? <==> batchSize <= queueCapacity
  {
    if queueCapacity < batchSize then Failure(CapacityBelowBatch) else Success(())
  }

  /**
   * The check the consumer needs: besides capacity at least the batch size, a
   * batch size of at least 1, so that every round of the consumer takes a span
   * or waits for one.
   */
  function CheckConfig(queueCapacity: int, batchSize: int): (r: Result<(), ConfigError>)
    ensures r.Success? <==> 1 <= batchSize <= queueCapacity
    ensures r == Failure(CapacityBelowBatch) <==> queueCapacity < batchSize
    ensures r.Success? ==> CheckConfigAsWritten(queueCapacity, batchSize).Success?
  {
    if queueCapacity < batchSize then Failure(CapacityBelowBatch)
    else if batchSize < 1 then Failure(BatchSizeNotPositive)
    else Success(())
  }

  // ---------------------------------------------------------------------------
  // The queue and the submission history

  /** A queue entry: a span, or the `stop` sentinel `close` puts. */
  datatype Item = SpanItem(span: Span) | Stop

  /** The spans of a queue, in queue order. */
  function QueuedSpans(q: seq<Item>): (r: seq<Span>)
    ensures |r| <= |q|
  {
    if q == [] then []
    else (if q[0].SpanItem? then [q[0].span] else []) + QueuedSpans(q[1..])
  }

  /** Every entry is the sentinel. */
  predicate OnlyStops(q: seq<Item>) {
    forall i :: 0 <= i < |q| ==> q[i].Stop?
  }

  /** A queue holding only sentinels holds no span. */
  lemma {:induction false} QueuedSpansOfStops(q: seq<Item>)
    requires OnlyStops(q)
    ensures QueuedSpans(q) == []
  {
    if q != [] {
      assert forall i :: 0 <= i < |q| - 1 ==> q[1..][i] == q[i + 1];
      QueuedSpansOfStops(q[1..]);
    }
  }

  lemma {:induction false} QueuedSpansAppend(q: seq<Item>, r: seq<Item>)
    ensures QueuedSpans(q + r) == QueuedSpans(q) + QueuedSpans(r)
  {
    if q == [] {
      assert q + r == r;
    } else {
      assert (q + r)[0] == q[0] && (q + r)[1..] == q[1..] + r;
      QueuedSpansAppend(q[1..], r);
    }
  }

  predicate HasStop(q: seq<Item>) {
    exists i :: 0 <= i < |q| && q[i].Stop?
  }

  /** Why the consumer left its gathering loop with the batch it holds. */
  datatype Trigger = Full | Timeout | StopSeen

  /** How the gathering loop ended: with a batch to submit, or waiting on an empty queue. */
  datatype Gathered = Ready(trigger: Trigger) | Waiting

  /** One call of `_submit`: the batch, its wire spans, why it was sent, and whether the transport took it. */
  datatype Attempt = Attempt(spans: seq<Span>, wires: seq<WireSpan>, trigger: Trigger, delivered: bool)

  /** All submitted spans, batch after batch. */
  function Flatten(attempts: seq<Attempt>): (r: seq<Span>)
    ensures attempts == [] ==> r == []
  {
    if attempts == [] then [] else Flatten(attempts[..|attempts| - 1]) + attempts[|attempts| - 1].spans
  }

  /** Spans in the batches the transport accepted (`delivered`) or refused. */
  function Counted(attempts: seq<Attempt>, delivered: bool): nat {
    if attempts == [] then 0
    else
      var last := attempts[|attempts| - 1];
      Counted(attempts[..|attempts| - 1], delivered) + (if last.delivered == delivered then |last.spans| else 0)
  }

  lemma FlattenSnoc(attempts: seq<Attempt>, a: Attempt)
    ensures Flatten(attempts + [a]) == Flatten(attempts) + a.spans
    ensures Counted(attempts + [a], true) == Counted(attempts, true) + (if a.delivered then |a.spans| else 0)
    ensures Counted(attempts + [a], false) == Counted(attempts, false) + (if a.delivered then 0 else |a.spans|)
  {
    assert (attempts + [a])[..|attempts|] == attempts;
  }

  /** A batch as `_consume_queue` submits it: non-empty, at most `batchSize` spans, full exactly when the trigger is `Full`. */
  predicate WellFormedAttempt(a: Attempt, batchSize: nat, flushEnabled: bool) {
    && 1 <= |a.spans| <= batchSize
    && (a.trigger == Full <==> |a.spans| == batchSize)
    && (a.trigger == Timeout ==> flushEnabled)
  }

  /** Batch after batch, each well-formed, and none but the last cut short by the sentinel. */
  predicate Batches(attempts: seq<Attempt>, batchSize: nat, flushEnabled: bool) {
    attempts == [] ||
    var prefix := attempts[..|attempts| - 1];
    && Batches(prefix, batchSize, flushEnabled)
    && WellFormedAttempt(attempts[|attempts| - 1], batchSize, flushEnabled)
    && (prefix != [] ==> prefix[|prefix| - 1].trigger != StopSeen)
  }

  /** `Batches` says of every batch that it is well-formed and of every batch but the last that the sentinel did not end it. */
  lemma {:induction false} BatchesEvery(attempts: seq<Attempt>, batchSize: nat, flushEnabled: bool)
    ensures Batches(attempts, batchSize, flushEnabled) <==>
      && (forall i :: 0 <= i < |attempts| ==> WellFormedAttempt(attempts[i], batchSize, flushEnabled))
      && (forall i :: 0 <= i < |attempts| - 1 ==> attempts[i].trigger != StopSeen)
  {
    if attempts != [] {
      var prefix := attempts[..|attempts| - 1];
      BatchesEvery(prefix, batchSize, flushEnabled);
      assert forall i :: 0 <= i < |prefix| ==> prefix[i] == attempts[i];
    }
  }

  /**
   * The submission history as `_consume_queue` produces it: well-formed batches, only the
   * last of them cut short by the sentinel (and then the consumer is done), and the
   * success and failure metrics counting the spans of delivered and refused batches.
   */
  predicate HistoryOk(attempts: seq<Attempt>, batchSize: nat, flushEnabled: bool, finished: bool,
                      success: nat, failure: nat) {
    && Batches(attempts, batchSize, flushEnabled)
    && (attempts != [] && attempts[|attempts| - 1].trigger == StopSeen ==> finished)
    && success == Counted(attempts, true)
    && failure == Counted(attempts, false)
  }

  /** Recording one more well-formed submission keeps the history consistent. */
  lemma HistorySnoc(attempts: seq<Attempt>, a: Attempt, batchSize: nat, flushEnabled: bool, finished: bool,
                    success: nat, failure: nat)
    requires HistoryOk(attempts, batchSize, flushEnabled, finished, success, failure)
    requires WellFormedAttempt(a, batchSize, flushEnabled)
    requires a.trigger == StopSeen ==> finished
    requires attempts == [] || attempts[|attempts| - 1].trigger != StopSeen
    ensures HistoryOk(attempts + [a], batchSize, flushEnabled, finished,
                      success + (if a.delivered then |a.spans| else 0), failure + (if a.delivered then 0 else |a.spans|))
    ensures Flatten(attempts + [a]) == Flatten(attempts) + a.spans
  {
    FlattenSnoc(attempts, a);
    BatchesSnoc(attempts, a, batchSize, flushEnabled);
  }

  lemma BatchesSnoc(attempts: seq<Attempt>, a: Attempt, batchSize: nat, flushEnabled: bool)
    requires Batches(attempts, batchSize, flushEnabled)
    requires WellFormedAttempt(a, batchSize, flushEnabled)
    requires attempts == [] || attempts[|attempts| - 1].trigger != StopSeen
    ensures Batches(attempts + [a], batchSize, flushEnabled)
  {
    var all := attempts + [a];
    assert all[..|all| - 1] == attempts;
  }

  /** A submitted batch moves from the consumer's hands into the history, in order. */
  lemma RecordKeepsOrder(attempts: seq<Attempt>, a: Attempt, queued: seq<Span>, accepted: seq<Span>)
    requires Flatten(attempts) + a.spans + queued == accepted
    ensures Flatten(attempts + [a]) + [] + queued == accepted
  {
    FlattenSnoc(attempts, a);
    assert Flatten(attempts + [a]) + [] == Flatten(attempts) + a.spans;
  }

  /** After a submission the history is still consistent and still lists the accepted spans in order. */
  lemma RecordKeepsHistory(attempts: seq<Attempt>, a: Attempt, batchSize: nat, flushEnabled: bool, finished: bool,
                           success: nat, failure: nat, queued: seq<Span>, accepted: seq<Span>)
    requires HistoryOk(attempts, batchSize, flushEnabled, finished, success, failure)
    requires WellFormedAttempt(a, batchSize, flushEnabled)
    requires a.trigger == StopSeen ==> finished
    requires attempts == [] || attempts[|attempts| - 1].trigger != StopSeen
    requires Flatten(attempts) + a.spans + queued == accepted
    ensures HistoryOk(attempts + [a], batchSize, flushEnabled, finished,
                      success + (if a.delivered then |a.spans| else 0), failure + (if a.delivered then 0 else |a.spans|))
    ensures Flatten(attempts + [a]) + [] + queued == accepted
  {
    HistorySnoc(attempts, a, batchSize, flushEnabled, finished, success, failure);
    RecordKeepsOrder(attempts, a, queued, accepted);
  }

  /** The queue is bounded, holds the sentinel only once `stopped` is set, and nothing sits behind a sentinel. */
  predicate QueueOk(queue: seq<Item>, queueCapacity: nat, stopped: bool) {
    && |queue| <= queueCapacity
    && (HasStop(queue) ==> stopped)
    && (forall i, j :: 0 <= i < j < |queue| && queue[i].Stop? ==> queue[j].Stop?)
  }

  /** Taking the head off a well-formed queue leaves a well-formed queue, holding the sentinel unless the head was it. */
  lemma QueueOkTail(queue: seq<Item>, queueCapacity: nat, stopped: bool)
    requires QueueOk(queue, queueCapacity, stopped) && queue != []
    ensures QueueOk(queue[1..], queueCapacity, stopped)
    ensures HasStop(queue) <==> queue[0].Stop? || HasStop(queue[1..])
    ensures queue[0].Stop? ==> stopped
  {
    assert forall i :: 0 <= i < |queue| - 1 ==> queue[1..][i] == queue[i + 1];
    if HasStop(queue) && !queue[0].Stop? {
      var i :| 0 <= i < |queue| && queue[i].Stop?;
      assert queue[1..][i - 1].Stop?;
    }
    assert queue[0].Stop? ==> HasStop(queue);
  }

  /** Moving the head of the queue into the batch keeps the order of the spans. */
  lemma TakeKeepsOrder(done: seq<Span>, pending: seq<Span>, queue: seq<Item>, accepted: seq<Span>)
    requires done + pending + QueuedSpans(queue) == accepted && queue != []
    ensures queue[0].Stop? ==> done + pending + QueuedSpans(queue[1..]) == accepted
    ensures queue[0].SpanItem? ==> done + (pending + [queue[0].span]) + QueuedSpans(queue[1..]) == accepted
  {
    var rest := QueuedSpans(queue[1..]);
    if queue[0].Stop? {
      assert QueuedSpans(queue) == [] + rest;
      assert [] + rest == rest;
    } else {
      var head := [queue[0].span];
      assert QueuedSpans(queue) == head + rest;
      assert done + pending + (head + rest) == done + (pending + head) + rest;
    }
  }

  /** The spans of a contiguous piece of a sequence are elements of the sequence. */
  lemma MiddleIn(prefix: seq<Span>, middle: seq<Span>, suffix: seq<Span>, whole: seq<Span>)
    requires prefix + middle + suffix == whole
    ensures forall k :: 0 <= k < |middle| ==> middle[k] in whole
  {
    forall k | 0 <= k < |middle|
      ensures middle[k] in whole
    {
      assert whole[|prefix| + k] == middle[k];
    }
  }

  // ---------------------------------------------------------------------------
  // One round of the consumer, without a flush interval

  /** Where a round of the consumer's gathering loop leaves it. */
  datatype Round = Round(queue: seq<Item>, batch: seq<Span>, stopSeen: bool, waits: bool)

  /**
   * The inner loop of `_consume_queue` with no flush interval, on an integer batch
   * size as the constructor lets through: take entries while the batch is shorter
   * than `batchSize`; stop at the sentinel; wait on an empty queue.
   */
  function GatherRound(batchSize: int, queue: seq<Item>, batch: seq<Span>): (r: Round)
    ensures TakesPrefix(queue, batch, r)
    ensures r.waits ==> r.queue == [] && !r.stopSeen && |r.batch| < batchSize
    ensures !r.waits && !r.stopSeen ==> |r.batch| >= batchSize
    decreases |queue|
  {
    if |batch| >= batchSize then
      TakenNothing(queue, batch, false);
      Round(queue, batch, false, false)
    else if queue == [] then
      TakenNothing(queue, batch, true);
      Round(queue, batch, false, true)
    else if queue[0].Stop? then
      TakenStop(queue, batch);
      Round(queue[1..], batch, true, false)
    else
      var r := GatherRound(batchSize, queue[1..], batch + [queue[0].span]);
      TakenPrefixCons(queue, batch, r);
      r
  }

  /**
   * `r` is where a round leaves the consumer after taking a prefix of `queue`: the
   * rest stays queued, the prefix's spans join `batch` in order, and the sentinel
   * was seen exactly when the prefix holds one.
   */
  predicate TakesPrefix(queue: seq<Item>, batch: seq<Span>, r: Round) {
    && |r.queue| <= |queue|
    && var k := |queue| - |r.queue|;
    && r.queue == queue[k..]
    && r.batch == batch + QueuedSpans(queue[..k])
    && (r.stopSeen <==> HasStop(queue[..k]))
  }

  /** A round that takes nothing leaves the whole queue. */
  lemma TakenNothing(queue: seq<Item>, batch: seq<Span>, waits: bool)
    ensures TakesPrefix(queue, batch, Round(queue, batch, false, waits))
  {
    assert queue[..0] == [];
  }

  /** A round that takes the sentinel at the head takes no span and sees the sentinel. */
  lemma TakenStop(queue: seq<Item>, batch: seq<Span>)
    requires queue != [] && queue[0].Stop?
    ensures TakesPrefix(queue, batch, Round(queue[1..], batch, true, false))
  {
    PrefixCons(queue, 1);
    assert queue[1..][..0] == [];
  }

  /** What a round took from the tail of a queue whose head was a span, it took from the whole queue. */
  lemma TakenPrefixCons(queue: seq<Item>, batch: seq<Span>, r: Round)
    requires queue != [] && queue[0].SpanItem?
    requires TakesPrefix(queue[1..], batch + [queue[0].span], r)
    ensures TakesPrefix(queue, batch, r)
  {
    var k := |queue| - |r.queue|;
    PrefixCons(queue, k);
    assert queue[1..][k - 1..] == queue[k..];
    assert batch + [queue[0].span] + QueuedSpans(queue[1..][..k - 1]) == batch + ([queue[0].span] + QueuedSpans(queue[1..][..k - 1]));
  }

  /** A non-empty prefix of a queue is its head followed by a prefix of its tail. */
  lemma PrefixCons(queue: seq<Item>, k: nat)
    requires 1 <= k <= |queue|
    ensures QueuedSpans(queue[..k]) == (if queue[0].SpanItem? then [queue[0].span] else []) + QueuedSpans(queue[1..][..k - 1])
    ensures HasStop(queue[..k]) <==> queue[0].Stop? || HasStop(queue[1..][..k - 1])
  {
    var p := queue[..k];
    assert p[0] == queue[0] && p[1..] == queue[1..][..k - 1];
    assert forall i :: 0 <= i < k - 1 ==> p[1..][i] == p[i + 1];
    if HasStop(p) && !p[0].Stop? {
      var i :| 0 <= i < k && p[i].Stop?;
      assert p[1..][i - 1].Stop?;
    }
    assert p[0].Stop? ==> HasStop(p);
  }

  /**
   * Gathering from `queue` and `batch` ended as `g` with `rest` still queued and
   * `taken` in the batch: exactly where `GatherRound` leaves it, a timeout counting
   * as a wait on the empty queue.
   */
  predicate RoundEndsAt(batchSize: int, queue: seq<Item>, batch: seq<Span>, rest: seq<Item>, taken: seq<Span>, g: Gathered) {
    GatherRound(batchSize, queue, batch) == Round(rest, taken, g == Ready(StopSeen), g == Waiting || g == Ready(Timeout))
  }

  /** One step of a round: a short batch takes the head of a non-empty queue. */
  lemma GatherStep(batchSize: int, queue: seq<Item>, batch: seq<Span>)
    requires |batch| < batchSize && queue != []
    ensures GatherRound(batchSize, queue, batch) == if queue[0].Stop? then Round(queue[1..], batch, true, false)
      else GatherRound(batchSize, queue[1..], batch + [queue[0].span])
  {
  }

  /**
   * With `batch_size = 0` the constructor's check passes and a round starting with an
   * empty batch takes nothing, submits nothing and does not wait: the outer loop
   * repeats the same round forever without yielding to the IOLoop.
   */
  lemma ZeroBatchSpins(queueCapacity: nat, queue: seq<Item>)
    ensures CheckConfigAsWritten(queueCapacity, 0).Success?
    ensures GatherRound(0, queue, []) == Round(queue, [], false, false)
  {
  }

  /** Under the corrected check every round either waits, sees the sentinel, or takes a span. */
  lemma {:induction false} RoundProgress(queueCapacity: int, batchSize: int, queue: seq<Item>, batch: seq<Span>)
    requires CheckConfig(queueCapacity, batchSize).Success? && |batch| < batchSize
    ensures var r := GatherRound(batchSize, queue, batch);
      r.waits || r.stopSeen || |r.queue| < |queue|
    ensures var r := GatherRound(batchSize, queue, batch);
      r.waits ==> r.queue == [] && !HasStop(queue)
    ensures GatherRound(batchSize, queue, batch).stopSeen ==> HasStop(queue)
  {
    if queue != [] {
      assert forall i :: 0 <= i < |queue| - 1 ==> queue[1..][i] == queue[i + 1];
      if queue[0].Stop? {
        assert HasStop(queue);
      } else if |batch| + 1 < batchSize {
        RoundProgress(queueCapacity, batchSize, queue[1..], batch + [queue[0].span]);
        if HasStop(queue) {
          var i :| 0 <= i < |queue| && queue[i].Stop?;
          assert queue[1..][i - 1].Stop?;
        }
      }
    }
  }

  // ---------------------------------------------------------------------------
  // The reporter

  class ZipkinReporter {
    const queueCapacity: nat
    const batchSize: nat
    /** `flush_interval` is truthy: a partial batch is flushed when no span arrives in time. */
    const flushEnabled: bool
    /** `socket.inet_aton`, used by `make_zipkin_spans`. */
    const aton: InetAton

    var queue: seq<Item>
    var stopped: bool
    /** The `reporter_dropped`, `reporter_success` and `reporter_failure` metrics. */
    var dropped: nat
    var success: nat
    var failure: nat
    /** The consumer's `spans` list, kept while it waits for the queue. */
    var pending: seq<Span>
    /** The consumer has seen the sentinel and left its loop. */
    var finished: bool

    /** Every span the queue accepted, in order. */
    ghost var accepted: seq<Span>
    /** Every `_submit` call so far. */
    ghost var attempts: seq<Attempt>

    /** The invariant of the reporter between two steps. */
    ghost predicate Valid()
      reads this
    {
      && Bookkeeping()
      // FIFO: what was submitted, then what the consumer holds, then what is queued is what was accepted
      && Flatten(attempts) + pending + QueuedSpans(queue) == accepted
      && (finished ==> pending == [])
      && (!finished ==> |pending| < batchSize)
    }

    /** The part of `Valid` that also holds while a batch is being submitted. */
    ghost predicate Bookkeeping()
      reads this
    {
      && CheckConfig(queueCapacity, batchSize).Success?
      && QueueOk(queue, queueCapacity, stopped)
      && (finished ==> stopped)
      // the consumer has taken the sentinel, and nothing but sentinels can follow it
      && (finished ==> OnlyStops(queue))
      && HistoryOk(attempts, batchSize, flushEnabled, finished, success, failure)
    }

    /** `__init__` with a configuration that passes the check. */
    constructor (queueCapacity: nat, batchSize: nat, flushEnabled: bool, aton: InetAton)
      requires CheckConfig(queueCapacity, batchSize).Success?
      ensures Valid()
      ensures this.queueCapacity == queueCapacity && this.batchSize == batchSize
      ensures this.flushEnabled == flushEnabled && this.aton == aton
      ensures queue == [] && !stopped && dropped == 0 && success == 0 && failure == 0
      ensures pending == [] && !finished && accepted == [] && attempts == []
    {
      this.queueCapacity, this.batchSize := queueCapacity, batchSize;
      this.flushEnabled, this.aton := flushEnabled, aton;
      queue, stopped := [], false;
      dropped, success, failure := 0, 0, 0;
      pending, finished := [], false;
      accepted, attempts := [], [];
    }

    /** Tornado's `Queue.full()` for `maxsize = queueCapacity`. */
    function IsFull(): (r: bool)
      reads this
      ensures Bookkeeping() ==> (r <==> |queue| == queueCapacity)
    {
      queueCapacity > 0 && |queue| >= queueCapacity
    }

    /** `_report_span_from_ioloop`: drop when stopped or full, otherwise enqueue at the back. */
    method Report(span: Span)
      requires Valid()
      modifies this
      ensures Valid()
      ensures old(stopped || IsFull()) ==>
        queue == old(queue) && dropped == old(dropped) + 1 && accepted == old(accepted)
      ensures !old(stopped || IsFull()) ==>
        queue == old(queue) + [SpanItem(span)] && dropped == old(dropped) && accepted == old(accepted) + [span]
      ensures stopped == old(stopped) && pending == old(pending) && finished == old(finished)
      ensures success == old(success) && failure == old(failure) && attempts == old(attempts)
    {
      if stopped || IsFull() {
        dropped := dropped + 1;
      } else {
        QueuedSpansAppend(queue, [SpanItem(span)]);
        queue := queue + [SpanItem(span)];
        accepted := accepted + [span];
      }
    }

    /** `close`, as far as the reporter's state goes: set `stopped`. */
    method Close()
      requires Valid()
      modifies this
      ensures Valid()
      ensures stopped
      ensures queue == old(queue) && dropped == old(dropped) && pending == old(pending) && finished == old(finished)
      ensures success == old(success) && failure == old(failure)
      ensures accepted == old(accepted) && attempts == old(attempts)
    {
      stopped := true;
    }

    /**
     * The sentinel put of `_flush`, scheduled by `close`. Tornado's `put` waits while
     * the queue is full; here a full queue leaves the sentinel out (`put` is false)
     * and the caller tries again later.
     */
    method Flush() returns (put: bool)
      requires Valid()
      requires stopped
      modifies this
      ensures Valid()
      ensures put <==> !old(IsFull())
      ensures queue == if put then old(queue) + [Stop] else old(queue)
      ensures stopped == old(stopped) && dropped == old(dropped) && pending == old(pending) && finished == old(finished)
      ensures success == old(success) && failure == old(failure)
      ensures accepted == old(accepted) && attempts == old(attempts)
    {
      if IsFull() {
        return false;
      }
      QueuedSpansAppend(queue, [Stop]);
      queue := queue + [Stop];
      return true;
    }

    /** The transport handler: it either takes the message or raises. */
    method Send(wires: seq<WireSpan>) returns (ok: bool)
    {
      ok := *;
    }

    /**
     * `_submit`: an empty batch changes nothing; otherwise encode the batch with
     * `make_zipkin_spans` and send it, and a failure of the transport is counted
     * and goes no further.
     */
    method Submit(batch: seq<Span>, trigger: Trigger)
      requires Bookkeeping()
      requires |batch| <= batchSize
      requires batch != [] ==> (trigger == Full <==> |batch| == batchSize)
      requires batch != [] && trigger == Timeout ==> flushEnabled
      requires batch != [] && trigger == StopSeen ==> finished
      requires batch != [] ==> attempts == [] || attempts[|attempts| - 1].trigger != StopSeen
      requires pending == [] && Flatten(attempts) + batch + QueuedSpans(queue) == accepted
      modifies this, batch
      ensures Valid()
      ensures batch == [] ==> attempts == old(attempts) && success == old(success) && failure == old(failure)
      ensures batch != [] ==> |attempts| == |old(attempts)| + 1 && attempts[..|old(attempts)|] == old(attempts)
      ensures batch != [] ==> var a := attempts[|attempts| - 1];
        && a.spans == batch && a.trigger == trigger && WireSpansOf(a.wires, batch)
        && success == old(success) + (if a.delivered then |batch| else 0)
        && failure == old(failure) + (if a.delivered then 0 else |batch|)
      ensures queue == old(queue) && stopped == old(stopped) && dropped == old(dropped)
      ensures pending == old(pending) && finished == old(finished) && accepted == old(accepted)
    {
      if batch == [] {
        assert Flatten(attempts) + pending + QueuedSpans(queue) == accepted;
        return;
      }
      var wires := MakeZipkinSpans(aton, batch);
      var ok := Send(wires);
      assert WellFormedAttempt(Attempt(batch, wires, trigger, ok), batchSize, flushEnabled);
      Record(Attempt(batch, wires, trigger, ok));
      assert attempts[|attempts| - 1].wires == wires;
    }

    /** The bookkeeping after a send: the attempt joins the history and its spans are counted. */
    method Record(a: Attempt)
      requires Bookkeeping()
      requires WellFormedAttempt(a, batchSize, flushEnabled)
      requires a.trigger == StopSeen ==> finished
      requires attempts == [] || attempts[|attempts| - 1].trigger != StopSeen
      requires pending == [] && Flatten(attempts) + a.spans + QueuedSpans(queue) == accepted
      modifies this`attempts, this`success, this`failure
      ensures Bookkeeping()
      ensures Flatten(attempts) + pending + QueuedSpans(queue) == accepted
      ensures attempts == old(attempts) + [a]
      ensures success == old(success) + (if a.delivered then |a.spans| else 0)
      ensures failure == old(failure) + (if a.delivered then 0 else |a.spans|)
    {
      ghost var before, succeeded, failed := attempts, success, failure;
      attempts, success, failure := attempts + [a],
        success + (if a.delivered then |a.spans| else 0), failure + (if a.delivered then 0 else |a.spans|);
      RecordKeepsHistory(before, a, batchSize, flushEnabled, finished, succeeded, failed, QueuedSpans(queue), accepted);
    }

    /**
     * The inner loop of `_consume_queue`: take spans off the queue into the batch
     * until it holds `batchSize` spans (`Full`), the sentinel arrives (`StopSeen`),
     * or the queue is empty: then, with a flush interval and a non-empty batch, the
     * wait may time out (`Timeout`); otherwise the coroutine waits (`Waiting`).
     */
    method Gather() returns (g: Gathered)
      requires Valid() && !finished
      modifies this
      ensures Bookkeeping()
      ensures Flatten(attempts) + pending + QueuedSpans(queue) == accepted
      ensures |queue| <= |old(queue)|
      ensures g == Waiting ==> Valid() && queue == [] && !HasStop(old(queue))
      ensures g == Ready(Full) ==> !finished && |pending| == batchSize
      ensures g == Ready(Timeout) ==> !finished && flushEnabled && queue == [] && 1 <= |pending| < batchSize
      ensures g == Ready(StopSeen) ==> finished && |pending| < batchSize && HasStop(old(queue))
      ensures g != Ready(StopSeen) ==> !finished && (HasStop(queue) <==> HasStop(old(queue)))
      ensures g.Ready? && g.trigger != Timeout ==> |queue| < |old(queue)|
      ensures g == Ready(Timeout) && |queue| == |old(queue)| ==> pending == old(pending)
      ensures RoundEndsAt(batchSize, old(queue), old(pending), queue, pending, g)
      ensures attempts == old(attempts) && accepted == old(accepted)
      ensures stopped == old(stopped) && dropped == old(dropped)
    {
      ghost var round := GatherRound(batchSize, queue, pending);
      while |pending| < batchSize
        invariant Bookkeeping() && !finished && |pending| <= batchSize
        invariant GatherRound(batchSize, queue, pending) == round
        invariant Flatten(attempts) + pending + QueuedSpans(queue) == accepted
        invariant |queue| <= |old(queue)|
        invariant HasStop(queue) <==> HasStop(old(queue))
        invariant |queue| == |old(queue)| ==> pending == old(pending)
        invariant attempts == old(attempts) && accepted == old(accepted)
        invariant stopped == old(stopped) && dropped == old(dropped)
        decreases |queue|
      {
        if queue == [] {
          if flushEnabled && pending != [] {
            // `queue.get(timeout=...)` raised `TimeoutError`, or a span arrived in time
            var fire: bool := *;
            if fire {
              return Ready(Timeout);
            }
          }
          // the coroutine waits for the next put
          return Waiting;
        }
        ghost var before, taken := queue, pending;
        var item := Take();
        GatherStep(batchSize, before, taken);
        if item.Stop? {
          return Ready(StopSeen);
        }
      }
      return Ready(Full);
    }

    /** One `queue.get()` of the inner loop: the sentinel ends gathering, a span joins the batch. */
    method Take() returns (item: Item)
      requires Bookkeeping() && !finished && |pending| < batchSize && queue != []
      requires Flatten(attempts) + pending + QueuedSpans(queue) == accepted
      modifies this
      ensures item == old(queue[0]) && queue == old(queue[1..])
      ensures item.Stop? ==> finished && pending == old(pending)
      ensures item.SpanItem? ==> !finished && pending == old(pending) + [item.span]
      ensures Bookkeeping()
      ensures Flatten(attempts) + pending + QueuedSpans(queue) == accepted
      ensures HasStop(old(queue)) <==> item.Stop? || HasStop(queue)
      ensures attempts == old(attempts) && accepted == old(accepted)
      ensures stopped == old(stopped) && dropped == old(dropped)
    {
      item := queue[0];
      QueueOkTail(queue, queueCapacity, stopped);
      TakeKeepsOrder(Flatten(attempts), pending, queue, accepted);
      if item.Stop? {
        queue, finished := queue[1..], true;
      } else {
        queue, pending := queue[1..], pending + [item.span];
      }
    }

    /**
     * One round of the outer loop of `_consume_queue`: gather a batch and submit it
     * when it is not empty. A round that does not wait consumes a queue entry or
     * empties the batch.
     */
    method ConsumeRound() returns (g: Gathered)
      requires Valid() && !finished
      modifies this, accepted
      ensures Valid()
      ensures g == Waiting ==> !finished && queue == [] && !HasStop(old(queue))
      ensures finished ==> HasStop(old(queue))
      ensures !finished ==> (HasStop(queue) <==> HasStop(old(queue)))
      ensures g.Ready? ==> |queue| < |old(queue)| || (|queue| == |old(queue)| && |pending| < |old(pending)|)
      ensures |queue| <= |old(queue)|
      ensures |attempts| >= |old(attempts)| && attempts[..|old(attempts)|] == old(attempts)
      ensures finished ==> Flatten(attempts) == accepted
      ensures accepted == old(accepted) && stopped == old(stopped) && dropped == old(dropped)
    {
      g := Gather();
      SubmitGathered(g);
    }

    /** The second half of a round: submit what `Gather` ended with, unless it waits. */
    method SubmitGathered(g: Gathered)
      requires Bookkeeping() && Flatten(attempts) + pending + QueuedSpans(queue) == accepted
      requires attempts == [] || attempts[|attempts| - 1].trigger != StopSeen
      requires |pending| <= batchSize && (g == Waiting ==> Valid() && !finished)
      requires g == Ready(Full) ==> !finished && |pending| == batchSize
      requires g == Ready(Timeout) ==> !finished && flushEnabled && 1 <= |pending| < batchSize
      requires g == Ready(StopSeen) ==> finished && |pending| < batchSize
      modifies this, accepted
      ensures Valid()
      ensures g == Waiting ==> pending == old(pending) && attempts == old(attempts)
      ensures g.Ready? ==> pending == []
      ensures |attempts| >= |old(attempts)| && attempts[..|old(attempts)|] == old(attempts)
      ensures finished ==> Flatten(attempts) == accepted
      ensures queue == old(queue) && finished == old(finished)
      ensures accepted == old(accepted) && stopped == old(stopped) && dropped == old(dropped)
    {
      if g.Ready? && pending != [] {
        var batch := pending;
        MiddleIn(Flatten(attempts), batch, QueuedSpans(queue), accepted);
        pending := [];
        Submit(batch, g.trigger);
      }
      if finished {
        QueuedSpansOfStops(queue);
      }
    }

    /**
     * `_consume_queue`, from where it last waited to where it waits next: rounds of
     * gathering and submitting until the sentinel has been seen or the queue is
     * empty. It waits only on an empty queue.
     */
    method ConsumeQueue()
      requires Valid()
      modifies this, accepted
      ensures Valid()
      ensures finished <==> old(finished) || HasStop(old(queue))
      ensures !finished ==> queue == []
      ensures |attempts| >= |old(attempts)| && attempts[..|old(attempts)|] == old(attempts)
      ensures finished ==> Flatten(attempts) == accepted
      ensures accepted == old(accepted) && stopped == old(stopped) && dropped == old(dropped)
    {
      if finished {
        QueuedSpansOfStops(queue);
      }
      while !finished
        invariant Valid()
        invariant finished ==> Flatten(attempts) == accepted
        invariant |queue| <= |old(queue)|
        invariant old(finished) ==> finished
        invariant finished ==> old(finished) || HasStop(old(queue))
        invariant !finished ==> (HasStop(queue) <==> HasStop(old(queue)))
        invariant |attempts| >= |old(attempts)| && attempts[..|old(attempts)|] == old(attempts)
        invariant accepted == old(accepted) && stopped == old(stopped) && dropped == old(dropped)
        decreases |queue|, |pending|
      {
        var g := ConsumeRound();
        if g == Waiting {
          return;
        }
      }
    }

    /**
     * `close` as its docstring promises: set `stopped`, put the sentinel (trying again
     * once the consumer has made room), and let the consumer run. Afterwards the
     * consumer has finished and every span the queue ever accepted was submitted,
     * in order.
     */
    method CloseAndDrain()
      requires Valid()
      modifies this, accepted
      ensures Valid()
      ensures finished && Flatten(attempts) == accepted
      ensures accepted == old(accepted) && stopped && dropped == old(dropped)
    {
      Close();
      var put := Flush();
      if !put {
        ConsumeQueue();
        if !finished {
          put := Flush();
        }
      }
      if !finished {
        assert queue[|queue| - 1].Stop?;
      }
      ConsumeQueue();
    }
  }
}
