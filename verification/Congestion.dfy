/** The Vegas congestion controller (`phinet-core/src/congestion.rs`, after section 3.2 of Tor proposal
    324). Durations and instants are nanoseconds. Machine counters wrap as in a release build. */
module Congestion {
  import opened Wrappers
  import opened Bytes
  import opened NumberTheory

  const SENDME_INC: nat := 31
  const CWND_MIN: nat := 124
  const CWND_MAX: nat := 20_000
  const CWND_INIT: nat := 124
  const CWND_INC: nat := 31
  const CWND_INC_RATE: nat := 1
  const ALPHA: nat := 93
  const BETA: nat := 186
  const GAMMA: nat := 155

  type Nanos = nat

  /** The value of a `Vegas`. */
  datatype State = State(
    cwnd: u32, inflight: u32, slowStart: bool, rttMin: Option<Nanos>, rttEwma: Option<Nanos>,
    triggerSent: Option<Nanos>, totalSent: u64, acksSinceInc: u32)

  const NEW_STATE: State := State(CWND_INIT, 0, true, None, None, None, 0, 0)

  // ── What each operation does ────────────────────────────────────────

  function SatAdd32(a: u32, b: u32): u32 {
    if a + b >= U32_LIMIT then U32_LIMIT - 1 else a + b
  }

  function SatSub(a: nat, b: nat): nat {
    if a < b then 0 else a - b
  }

  function Clamp(target: u32): u32 {
    if target < CWND_MIN then CWND_MIN else if target > CWND_MAX then CWND_MAX else target
  }

  function OnSend(v: State, now: Nanos): State {
    var total := (v.totalSent + 1) % U64_LIMIT;
    v.(inflight := SatAdd32(v.inflight, 1), totalSent := total,
       triggerSent := if total % SENDME_INC == 0 then Some(now) else v.triggerSent)
  }

  /** The average is cut to 64 bits. */
  function Average(before: Nanos, sample: Nanos): Nanos {
    ((before * 7 + sample * 1) / 8) % U64_LIMIT
  }

  function FoldRtt(v: State, sample: Nanos): State {
    v.(rttMin := Some(if v.rttMin.Some? && v.rttMin.value <= sample then v.rttMin.value else sample),
       rttEwma := Some(if v.rttEwma.None? then sample else Average(v.rttEwma.value, sample)))
  }

  function QueueAt(cwnd: nat, rtt: Nanos, min: Nanos): u32 {
    if rtt == 0 then 0
    else
      var q := (cwnd * SatSub(rtt, min)) / rtt;
      if q >= U32_LIMIT then U32_LIMIT - 1 else q
  }

  function QueueEstimate(v: State): u32 {
    if v.rttEwma.None? || v.rttMin.None? then 0 else QueueAt(v.cwnd, v.rttEwma.value, v.rttMin.value)
  }

  function UpdateCwnd(v: State): State {
    var queue := QueueEstimate(v);
    if v.slowStart then
      if queue > GAMMA then v.(slowStart := false, cwnd := Clamp((v.cwnd * 3 / 4) % U32_LIMIT))
      else v.(cwnd := Clamp(SatAdd32(v.cwnd, SENDME_INC)))
    else
      var acks := (v.acksSinceInc + 1) % U32_LIMIT;
      if queue < ALPHA then
        if acks >= CWND_INC_RATE then v.(acksSinceInc := 0, cwnd := Clamp(SatAdd32(v.cwnd, CWND_INC)))
        else v.(acksSinceInc := acks)
      else if queue > BETA then v.(acksSinceInc := 0, cwnd := Clamp(SatSub(v.cwnd, CWND_INC)))
      else v.(acksSinceInc := acks)
  }

  /** The sample a SENDME arriving now would give. */
  function SampleAt(v: State, now: Nanos): Option<Nanos> {
    if v.triggerSent.None? then None else Some(SatSub(now, v.triggerSent.value))
  }

  function OnSendme(v: State, now: Nanos): State {
    var acked := if v.inflight < SENDME_INC then v.inflight else SENDME_INC;
    var v1 := v.(inflight := v.inflight - acked, triggerSent := None);
    var sample := SampleAt(v, now);
    var v2 := if sample.Some? then FoldRtt(v1, sample.value) else v1;
    if v2.rttEwma.Some? then UpdateCwnd(v2) else v2
  }

  // ── The controller ──────────────────────────────────────────────────

  class Vegas {
    var cwnd: u32
    var inflight: u32
    var slowStart: bool
    var rttMin: Option<Nanos>
    var rttEwma: Option<Nanos>
    var sendmeTriggerSent: Option<Nanos>
    var totalSent: u64
    var acksSinceInc: u32

    ghost function View(): State
      reads this
    {
      State(cwnd, inflight, slowStart, rttMin, rttEwma, sendmeTriggerSent, totalSent, acksSinceInc)
    }

    constructor ()
      ensures View() == NEW_STATE
    {
      cwnd, inflight, slowStart := CWND_INIT, 0, true;
      rttMin, rttEwma, sendmeTriggerSent, totalSent, acksSinceInc := None, None, None, 0, 0;
    }

    method Send(now: Nanos)
      modifies this
      ensures View() == OnSend(old(View()), now)
    {
      inflight := SatAdd32(inflight, 1);
      totalSent := (totalSent + 1) % U64_LIMIT;
      if totalSent % SENDME_INC == 0 {
        sendmeTriggerSent := Some(now);
      }
    }

    method Sendme(now: Nanos) returns (rtt: Option<Nanos>)
      modifies this
      ensures View() == OnSendme(old(View()), now) && rtt == SampleAt(old(View()), now)
    {
      var acked := if inflight < SENDME_INC then inflight else SENDME_INC;
      inflight := inflight - acked;
      rtt := None;
      if sendmeTriggerSent.Some? {
        var sample := SatSub(now, sendmeTriggerSent.value);
        sendmeTriggerSent := None;
        Fold(sample);
        rtt := Some(sample);
      }
      if rttEwma.Some? {
        Update();
      }
    }

    method Fold(sample: Nanos)
      modifies this
      ensures View() == FoldRtt(old(View()), sample)
    {
      rttMin := Some(if rttMin.Some? && rttMin.value <= sample then rttMin.value else sample);
      if rttEwma.None? {
        rttEwma := Some(sample);
      } else {
        var mixed := (rttEwma.value * 7 + sample * (8 - 7)) / 8;
        rttEwma := Some(mixed % U64_LIMIT);
      }
    }

    method Estimate() returns (queue: u32)
      ensures queue == QueueEstimate(View())
    {
      if rttEwma.None? || rttMin.None? {
        return 0;
      }
      var rtt := rttEwma.value;
      if rtt == 0 {
        return 0;
      }
      var excess := SatSub(rtt, rttMin.value);
      var q := (cwnd * excess) / rtt;
      return if q < U32_LIMIT - 1 then q else U32_LIMIT - 1;
    }

    method Update()
      modifies this
      ensures View() == UpdateCwnd(old(View()))
    {
      var queue := Estimate();
      if slowStart {
        if queue > GAMMA {
          slowStart := false;
          cwnd := Clamp((cwnd * 3 / 4) % U32_LIMIT);
        } else {
          cwnd := Clamp(SatAdd32(cwnd, SENDME_INC));
        }
        return;
      }
      acksSinceInc := (acksSinceInc + 1) % U32_LIMIT;
      if queue < ALPHA {
        if acksSinceInc >= CWND_INC_RATE {
          acksSinceInc := 0;
          cwnd := Clamp(SatAdd32(cwnd, CWND_INC));
        }
      } else if queue > BETA {
        acksSinceInc := 0;
        cwnd := Clamp(SatSub(cwnd, CWND_INC));
      }
    }
  }

  // ── Runs ────────────────────────────────────────────────────────────

  datatype Event = Send(now: Nanos) | Sendme(now: Nanos)

  function Step(v: State, e: Event): State {
    match e
    case Send(now) => OnSend(v, now)
    case Sendme(now) => OnSendme(v, now)
  }

  function Run(v: State, events: seq<Event>): State
    decreases |events|
  {
    if events == [] then v else Step(Run(v, events[..|events| - 1]), events[|events| - 1])
  }

  lemma {:induction false} RunConcat(v: State, a: seq<Event>, b: seq<Event>)
    ensures Run(v, a + b) == Run(Run(v, a), b)
    decreases |b|
  {
    if b == [] {
      assert a + b == a;
    } else {
      var b0 := b[..|b| - 1];
      assert (a + b)[..|a + b| - 1] == a + b0;
      RunConcat(v, a, b0);
    }
  }

  /** The sample that `e` takes in state `v`, if it takes one. */
  function SampleOf(v: State, e: Event): Option<Nanos> {
    if e.Sendme? then SampleAt(v, e.now) else None
  }

  /** Every sample taken in the run fits 64 bits. */
  ghost predicate SmallSamples(v: State, events: seq<Event>) {
    forall k :: 0 <= k < |events| ==> SampleOf(Run(v, events[..k]), events[k]).GetOr(0) < U64_LIMIT
  }

  /** Every sample taken in the run is `c`. */
  ghost predicate Constant(v: State, events: seq<Event>, c: Nanos) {
    forall k :: 0 <= k < |events| ==> SampleOf(Run(v, events[..k]), events[k]).GetOr(c) == c
  }

  /** How many samples and how many SENDMEs the run has. */
  function Samples(v: State, events: seq<Event>): nat
    decreases |events|
  {
    if events == [] then 0
    else
      var before := events[..|events| - 1];
      Samples(v, before) + (if SampleOf(Run(v, before), events[|events| - 1]).Some? then 1 else 0)
  }

  function Sendmes(events: seq<Event>): nat
    decreases |events|
  {
    if events == [] then 0
    else Sendmes(events[..|events| - 1]) + (if events[|events| - 1].Sendme? then 1 else 0)
  }

  // ── What holds in every reachable state ─────────────────────────────

  /** Whatever the samples. */
  predicate Fair(v: State) {
    CWND_MIN <= v.cwnd <= CWND_MAX && v.rttMin.Some? == v.rttEwma.Some?
  }

  /** As long as the samples fit 64 bits. */
  predicate Sane(v: State) {
    Fair(v) && (v.rttEwma.Some? ==> v.rttMin.value <= v.rttEwma.value < U64_LIMIT)
  }

  /** Between the old average and the sample, as long as nothing is cut off. */
  lemma AverageBetween(before: Nanos, sample: Nanos)
    ensures (before * 7 + sample) / 8 < U64_LIMIT ==>
      var a := Average(before, sample);
      if before <= sample then before <= a <= sample else sample <= a < before
    ensures before < U64_LIMIT && sample < U64_LIMIT ==> (before * 7 + sample) / 8 < U64_LIMIT
  {
  }

  /** Beyond that the truncation shows: the average of two equal samples can be zero. */
  lemma AverageTruncates()
    ensures Average(U64_LIMIT, U64_LIMIT) == 0
  {
  }

  lemma FairStep(v: State, e: Event)
    requires Fair(v)
    ensures Fair(Step(v, e))
  {
    hide QueueEstimate, Average;
  }

  lemma SaneStep(v: State, e: Event)
    requires Sane(v) && SampleOf(v, e).GetOr(0) < U64_LIMIT
    ensures Sane(Step(v, e))
  {
    hide QueueEstimate;
    FairStep(v, e);
    if e.Sendme? && SampleOf(v, e).Some? && v.rttEwma.Some? {
      AverageBetween(v.rttEwma.value, SampleOf(v, e).value);
    }
  }

  lemma {:induction false} SaneRun(v: State, events: seq<Event>)
    requires Sane(v) && SmallSamples(v, events)
    ensures Sane(Run(v, events))
    decreases |events|
  {
    if events != [] {
      var last := |events| - 1;
      var before := events[..last];
      assert forall k :: 0 <= k < last ==> before[..k] == events[..k];
      SaneRun(v, before);
      SaneStep(Run(v, before), events[last]);
    }
  }

  lemma {:induction false} FairRun(v: State, events: seq<Event>)
    requires Fair(v)
    ensures Fair(Run(v, events))
    decreases |events|
  {
    if events != [] {
      var before := events[..|events| - 1];
      FairRun(v, before);
      FairStep(Run(v, before), events[|events| - 1]);
    }
  }

  /** Every state a controller can be in. */
  lemma Reachable(events: seq<Event>)
    ensures Fair(Run(NEW_STATE, events)) && 124 <= Run(NEW_STATE, events).cwnd <= 20_000
    ensures SmallSamples(NEW_STATE, events) ==>
      var u := Run(NEW_STATE, events);
      Sane(u) && (u.rttEwma.Some? ==> u.rttMin.Some? && u.rttMin.value <= u.rttEwma.value < U64_LIMIT)
  {
    FairRun(NEW_STATE, events);
    if SmallSamples(NEW_STATE, events) {
      SaneRun(NEW_STATE, events);
    }
  }

  // ── The smoothed RTT ────────────────────────────────────────────────

  /** The sample, or up to seven nanoseconds below. */
  predicate Near(v: State, c: Nanos) {
    v.rttEwma.Some? && v.rttEwma.value <= c <= v.rttEwma.value + 7
  }

  /** The fixed points: smoothing near the sample and within 64 bits, and the minimum not above it. */
  predicate AtRest(v: State, c: Nanos) {
    Near(v, c) && v.rttEwma.value < U64_LIMIT && v.rttMin.Some? && v.rttMin.value <= c
  }

  /** The largest samples smoothing can follow are the first seven beyond 64 bits: an average just below
      the limit is near them. */
  const FOLLOWED: nat := U64_LIMIT + 7

  function Distance(a: nat, b: nat): nat {
    if a < b then b - a else a - b
  }

  /** How many more samples smoothing may need once it has its first. */
  function RankFrom(before: Nanos, c: Nanos): nat {
    if before >= U64_LIMIT then 1 + Distance(Average(before, c), c)
    else if before <= c <= before + 7 then 0
    else Distance(before, c)
  }

  /** How many more samples smoothing may need. */
  function Rank(v: State, c: Nanos): nat {
    if v.rttEwma.None? then 1 + RankFrom(c, c)
    else RankFrom(v.rttEwma.value, c) + (if v.rttMin.Some? && v.rttMin.value > c then 1 else 0)
  }

  /** Smoothing moves toward the sample, never past it, and stops exactly at the fixed points. */
  lemma AverageMoves(before: Nanos, c: Nanos)
    requires before < U64_LIMIT && c < FOLLOWED
    ensures var a := Average(before, c);
            && (before > c ==> c <= a < before)
            && (before <= c ==> before <= a <= c)
            && (a == before <==> before <= c <= before + 7)
  {
  }

  /** Beyond `FOLLOWED` the average is always cut to something too far below. */
  lemma AverageMisses(before: Nanos, c: Nanos)
    requires c >= FOLLOWED
    ensures Average(before, c) + 7 < c
  {
  }

  lemma RankFalls(before: Nanos, c: Nanos)
    requires c < FOLLOWED && !(before < U64_LIMIT && before <= c <= before + 7)
    ensures RankFrom(Average(before, c), c) < RankFrom(before, c)
  {
    hide Average;
    assert Average(before, c) < U64_LIMIT by {
      AverageCut(before, c);
    }
    if before < U64_LIMIT {
      AverageMoves(before, c);
    }
  }

  lemma AverageCut(before: Nanos, c: Nanos)
    ensures Average(before, c) < U64_LIMIT
  {
  }

  lemma SampledStep(v: State, e: Event, c: Nanos)
    requires Fair(v) && SampleOf(v, e) == Some(c)
    ensures AtRest(v, c) && c < FOLLOWED ==> Step(v, e).rttEwma == v.rttEwma && Step(v, e).rttMin == v.rttMin
    ensures !AtRest(v, c) && c < FOLLOWED ==> Rank(Step(v, e), c) < Rank(v, c)
    ensures v.rttEwma.Some? && c <= v.rttEwma.value < U64_LIMIT && c < FOLLOWED ==>
              c <= Step(v, e).rttEwma.value < U64_LIMIT
    ensures v.rttEwma.Some? && c >= FOLLOWED ==> !Near(Step(v, e), c)
  {
    hide QueueEstimate, Average, RankFrom;
    if v.rttEwma.Some? {
      var before := v.rttEwma.value;
      AverageCut(before, c);
      if c >= FOLLOWED {
        AverageMisses(before, c);
      } else if before < U64_LIMIT {
        AverageMoves(before, c);
      }
      if c < FOLLOWED && !(before < U64_LIMIT && before <= c <= before + 7) {
        RankFalls(before, c);
      }
    }
  }

  lemma UnsampledStep(v: State, e: Event)
    requires SampleOf(v, e).None?
    ensures Step(v, e).rttEwma == v.rttEwma && Step(v, e).rttMin == v.rttMin
  {
    hide QueueEstimate;
  }

  lemma ConstantPrefix(v: State, events: seq<Event>, c: Nanos)
    requires Constant(v, events, c) && events != []
    ensures Constant(v, events[..|events| - 1], c)
    ensures SampleOf(Run(v, events[..|events| - 1]), events[|events| - 1]).GetOr(c) == c
  {
    var before := events[..|events| - 1];
    assert forall k :: 0 <= k < |before| ==> before[..k] == events[..k];
  }

  /** Nothing smoothed yet, or something not below the sample. */
  predicate FromAbove(v: State, c: Nanos) {
    c < U64_LIMIT && (v.rttEwma.Some? ==> c <= v.rttEwma.value < U64_LIMIT)
  }

  lemma SomeStays(v: State, e: Event)
    ensures v.rttEwma.Some? || SampleOf(v, e).Some? ==> Step(v, e).rttEwma.Some?
  {
    hide QueueEstimate, Average;
  }

  /** After enough samples of a size it can follow the smoothed RTT is at rest, exactly at the sample if
      it came from above, and it never moves again. Beyond that size it is not even near after two. */
  lemma {:induction false} EwmaConverges(v: State, events: seq<Event>, c: Nanos)
    requires Fair(v) && Constant(v, events, c)
    ensures var u := Run(v, events);
            && Fair(u)
            && (u.rttEwma.None? ==> v.rttEwma.None? && Samples(v, events) == 0)
            && (c < FOLLOWED ==>
                 && (Samples(v, events) >= Rank(v, c) ==> AtRest(u, c))
                 && (!AtRest(u, c) ==> Rank(u, c) + Samples(v, events) <= Rank(v, c))
                 && (FromAbove(v, c) ==> FromAbove(u, c))
                 && (AtRest(v, c) ==> u.rttEwma == v.rttEwma && u.rttMin == v.rttMin))
            && (c >= FOLLOWED && Samples(v, events) >= (if v.rttEwma.None? then 2 else 1) ==> !Near(u, c))
    decreases |events|
  {
    hide Step, Constant, RankFrom;
    if events != [] {
      var before, e := events[..|events| - 1], events[|events| - 1];
      ConstantPrefix(v, events, c);
      EwmaConverges(v, before, c);
      var u := Run(v, before);
      FairStep(u, e);
      if SampleOf(u, e).Some? {
        SampledStep(u, e, c);
        if u.rttEwma.None? {
          FirstSample(u, e, c);
        }
        SomeStays(u, e);
      } else {
        UnsampledStep(u, e);
      }
    }
    if Rank(Run(v, events), c) == 0 {
      NoRankLeft(Run(v, events), c);
    }
  }

  lemma FirstSample(v: State, e: Event, c: Nanos)
    requires Fair(v) && SampleOf(v, e) == Some(c) && v.rttEwma.None?
    ensures Step(v, e).rttEwma == Some(c) && Step(v, e).rttMin == Some(c)
    ensures c < U64_LIMIT ==> AtRest(Step(v, e), c)
  {
    hide QueueEstimate;
  }

  lemma NoRankLeft(v: State, c: Nanos)
    requires Fair(v) && Rank(v, c) == 0
    ensures AtRest(v, c)
  {
  }

  // ── The window ──────────────────────────────────────────────────────

  /** One more step of the window moves the queue estimate by at most one step. */
  lemma QueueMoves(w: nat, w': nat, rtt: Nanos, min: Nanos)
    requires w <= w' <= w + SENDME_INC && w' <= CWND_MAX
    ensures QueueAt(w, rtt, min) <= QueueAt(w', rtt, min) <= QueueAt(w, rtt, min) + SENDME_INC
    ensures QueueAt(w, rtt, min) <= w
  {
    if rtt > 0 {
      var excess := SatSub(rtt, min);
      assert w * excess <= w' * excess <= (w + SENDME_INC) * excess by {
        Scaled(w, w', excess);
        Scaled(w', w + SENDME_INC, excess);
      }
      assert SENDME_INC * excess <= SENDME_INC * rtt;
      QuotientMonotone(w * excess, w' * excess, rtt);
      QuotientMonotone(w' * excess, w * excess + SENDME_INC * rtt, rtt);
      QuotientShift(w * excess, SENDME_INC, rtt);
      Scaled(excess, rtt, w);
      QuotientMonotone(w * excess, w * rtt, rtt);
      QuotientShift(0, w, rtt);
      Scaled(excess, rtt, w');
      QuotientMonotone(w' * excess, w' * rtt, rtt);
      QuotientShift(0, w', rtt);
    }
  }

  lemma Scaled(a: nat, b: nat, k: nat)
    requires a <= b
    ensures a * k <= b * k && k * a <= k * b
  {
    assert (b - a) * k >= 0;
    assert b * k - a * k == (b - a) * k;
  }

  lemma QuotientMonotone(a: nat, b: nat, n: nat)
    requires a <= b && n > 0
    ensures a / n <= b / n
  {
    var q, rest := a / n, a % n + (b - a);
    QuotientShift(rest, q, n);
    assert b == rest + q * n;
  }

  lemma QuotientShift(a: nat, k: nat, n: nat)
    requires n > 0
    ensures (a + k * n) / n == a / n + k
  {
    var q, r := a / n, a % n;
    assert a + k * n == (q + k) * n + r;
    ModUnique(a + k * n, q + k, r, n);
  }

  /** Nothing is left for the window to do: the queue is in the band, or the window is at its maximum
      and the queue below the point at which it would shrink. */
  predicate Settled(v: State) {
    var q := QueueEstimate(v);
    if v.slowStart then q <= GAMMA && v.cwnd == CWND_MAX
    else ALPHA <= q <= BETA || (q < ALPHA && v.cwnd == CWND_MAX)
  }

  /** How much is left for the window to do. Leaving slow start is worth more than anything after it;
      after it the window only ever moves one way. */
  function Effort(v: State): nat
    requires v.cwnd <= CWND_MAX
  {
    if Settled(v) then 0
    else if v.slowStart then 100_000 + (CWND_MAX - v.cwnd)
    else if QueueEstimate(v) < ALPHA then
      2 * (CWND_MAX - v.cwnd) + (if v.acksSinceInc == U32_LIMIT - 1 then 1 else 0)
    else 2 * v.cwnd
  }

  /** One update with the round-trip estimates as they are. */
  lemma UpdateProgresses(v: State)
    requires Fair(v) && v.rttEwma.Some?
    ensures var u := UpdateCwnd(v);
            && Fair(u) && u.rttEwma == v.rttEwma && u.rttMin == v.rttMin
            && (Settled(v) ==> Settled(u) && u.cwnd == v.cwnd && QueueEstimate(u) == QueueEstimate(v))
            && (!Settled(v) ==> Effort(u) < Effort(v))
  {
    hide QueueAt;
    var u := UpdateCwnd(v);
    var rtt, min := v.rttEwma.value, v.rttMin.value;
    if u.cwnd > v.cwnd {
      QueueMoves(v.cwnd, u.cwnd, rtt, min);
    } else if !v.slowStart {
      QueueMoves(u.cwnd, v.cwnd, rtt, min);
    }
  }

  /** No oscillation: in steady state the queue never crosses the band, so the window that grows never
      shrinks later, nor the other way round. */
  lemma OneWay(v: State)
    requires Fair(v) && v.rttEwma.Some? && !v.slowStart
    ensures var u := UpdateCwnd(v);
            && !u.slowStart
            && (QueueEstimate(v) <= BETA ==> u.cwnd >= v.cwnd && QueueEstimate(u) <= BETA)
            && (QueueEstimate(v) >= ALPHA ==> u.cwnd <= v.cwnd && QueueEstimate(u) >= ALPHA)
  {
    hide QueueAt;
    var u := UpdateCwnd(v);
    var rtt, min := v.rttEwma.value, v.rttMin.value;
    if u.cwnd > v.cwnd {
      QueueMoves(v.cwnd, u.cwnd, rtt, min);
    } else {
      QueueMoves(u.cwnd, v.cwnd, rtt, min);
    }
  }

  /** By how much one update moves the window: in slow start a step up until the queue passes gamma, then down to
      three quarters, once; afterwards a step up below alpha and a step down above beta. */
  lemma UpdateMoves(v: State)
    requires Fair(v)
    ensures var u, q, w: int := UpdateCwnd(v), QueueEstimate(v), v.cwnd;
            && (v.slowStart && q > 155 ==> !u.slowStart && u.cwnd == if w * 3 / 4 < 124 then 124 else w * 3 / 4)
            && (v.slowStart && q <= 155 ==> u.slowStart && u.cwnd == if w + 31 > 20_000 then 20_000 else w + 31)
            && (!v.slowStart ==> !u.slowStart)
            && (!v.slowStart && q < 93 && v.acksSinceInc < U32_LIMIT - 1 ==>
                 u.cwnd == (if w + 31 > 20_000 then 20_000 else w + 31) && u.acksSinceInc == 0)
            && (!v.slowStart && q > 186 ==> u.cwnd == (if w - 31 < 124 then 124 else w - 31) && u.acksSinceInc == 0)
            && (!v.slowStart && 93 <= q <= 186 ==>
                 u.cwnd == w && u.acksSinceInc == (v.acksSinceInc + 1) % U32_LIMIT)
  {
    hide QueueEstimate;
  }

  /** A SENDME once smoothing is at rest. */
  lemma RestingStep(v: State, e: Event, c: Nanos)
    requires Fair(v) && AtRest(v, c) && c < FOLLOWED && SampleOf(v, e).GetOr(c) == c
    ensures var u := Step(v, e);
            && Fair(u) && AtRest(u, c)
            && u.rttEwma == v.rttEwma && u.rttMin == v.rttMin
            && (Settled(v) ==> Settled(u) && u.cwnd == v.cwnd)
            && (!Settled(v) ==> Effort(u) + (if e.Sendme? then 1 else 0) <= Effort(v))
  {
    hide QueueAt;
    var u := Step(v, e);
    FairStep(v, e);
    if SampleOf(v, e).Some? {
      SampledStep(v, e, c);
    } else {
      UnsampledStep(v, e);
    }
    if e.Sendme? {
      UpdateProgresses(BeforeUpdate(v, e));
    }
  }

  /** The state from which a SENDME's window update starts. */
  function BeforeUpdate(v: State, e: Event): State
    requires e.Sendme?
  {
    var acked := if v.inflight < SENDME_INC then v.inflight else SENDME_INC;
    var v1 := v.(inflight := v.inflight - acked, triggerSent := None);
    if SampleAt(v, e.now).Some? then FoldRtt(v1, SampleAt(v, e.now).value) else v1
  }

  lemma {:induction false} CwndConverges(v: State, events: seq<Event>, c: Nanos)
    requires Fair(v) && AtRest(v, c) && c < FOLLOWED && Constant(v, events, c)
    ensures var u := Run(v, events);
            && Fair(u) && AtRest(u, c) && u.rttEwma == v.rttEwma && u.rttMin == v.rttMin
            && (Settled(v) ==> Settled(u) && u.cwnd == v.cwnd)
            && (Sendmes(events) >= Effort(v) ==> Settled(u))
            && (!Settled(u) ==> Effort(u) + Sendmes(events) <= Effort(v))
    decreases |events|
  {
    hide Step, Constant, QueueEstimate;
    if events != [] {
      var before, e := events[..|events| - 1], events[|events| - 1];
      ConstantPrefix(v, events, c);
      CwndConverges(v, before, c);
      RestingStep(Run(v, before), e, c);
    }
  }

  lemma ConstantSplit(v: State, a: seq<Event>, b: seq<Event>, c: Nanos)
    requires Constant(v, a + b, c)
    ensures Constant(v, a, c) && Constant(Run(v, a), b, c)
  {
    var all := a + b;
    forall k | 0 <= k < |a|
      ensures SampleOf(Run(v, a[..k]), a[k]).GetOr(c) == c
    {
      assert all[..k] == a[..k] && all[k] == a[k];
    }
    forall k | 0 <= k < |b|
      ensures SampleOf(Run(Run(v, a), b[..k]), b[k]).GetOr(c) == c
    {
      assert all[..|a| + k] == a + b[..k] && all[|a| + k] == b[k];
      RunConcat(v, a, b[..k]);
    }
  }

  /** What a settled controller looks like from outside. */
  predicate Balanced(v: State) {
    ALPHA <= QueueEstimate(v) <= BETA || v.cwnd == CWND_MAX
  }

  const CONVERGED: nat := 120_000

  /** A sample beyond what smoothing can follow keeps it away. */
  lemma {:induction false} StaysFar(v: State, events: seq<Event>, c: Nanos)
    requires Fair(v) && Constant(v, events, c) && c >= FOLLOWED && v.rttEwma.Some? && !Near(v, c)
    ensures var u := Run(v, events); u.rttEwma.Some? && !Near(u, c)
    decreases |events|
  {
    hide Step, Constant, RankFrom;
    if events != [] {
      var before, e := events[..|events| - 1], events[|events| - 1];
      ConstantPrefix(v, events, c);
      StaysFar(v, before, c);
      EwmaConverges(v, before, c);
      var u := Run(v, before);
      if SampleOf(u, e).Some? {
        SampledStep(u, e, c);
        SomeStays(u, e);
      } else {
        UnsampledStep(u, e);
      }
    }
  }

  /** Convergence. Take any state a controller can reach and feed it the constant sample `c`, with any
      sends and SENDMEs without a sample in between. Once `Rank` samples have been taken the smoothed RTT
      is near `c` exactly if `c` is below `FOLLOWED`, and however long the run, it is so later exactly in
      that case. It is then `c` itself if it came from above; once as many SENDMEs again as `CONVERGED`
      have come in, the queue estimate is in the band or the window at its maximum; and from then on
      nothing moves. */
  lemma Convergence(v: State, first: seq<Event>, second: seq<Event>, more: seq<Event>, c: Nanos)
    requires Fair(v) && Constant(v, first + second + more, c)
    requires Samples(v, first) >= Rank(v, c) && Samples(v, first) >= (if v.rttEwma.None? then 2 else 1)
    requires Sendmes(second) >= CONVERGED
    ensures var u, later := Run(v, first + second), Run(v, first + second + more);
            && (Near(u, c) <==> c < FOLLOWED)
            && (Near(later, c) <==> c < FOLLOWED)
            && (FromAbove(v, c) ==> u.rttEwma == Some(c))
            && (c < FOLLOWED ==>
                 && Balanced(u)
                 && later.rttEwma == u.rttEwma && later.rttMin == u.rttMin && later.cwnd == u.cwnd && Balanced(later))
  {
    hide Constant, Step, QueueEstimate, RankFrom;
    var both := first + second;
    ConstantSplit(v, both, more, c);
    ConstantSplit(v, first, second, c);
    RunConcat(v, first, second);
    RunConcat(v, both, more);
    EwmaConverges(v, first, c);
    if c < FOLLOWED {
      CwndConverges(Run(v, first), second, c);
      CwndConverges(Run(v, both), more, c);
    } else {
      StaysFar(Run(v, first), second, c);
      EwmaConverges(Run(v, first), second, c);
      StaysFar(Run(v, both), more, c);
    }
  }

  // ── Flow control ────────────────────────────────────────────────────

  predicate CanSend(v: State) {
    v.inflight < v.cwnd
  }

  /** Sends gated on `can_send`. */
  ghost predicate Gated(v: State, events: seq<Event>) {
    forall k :: 0 <= k < |events| && events[k].Send? ==> CanSend(Run(v, events[..k]))
  }

  function Sends(events: seq<Event>): nat
    decreases |events|
  {
    if events == [] then 0
    else Sends(events[..|events| - 1]) + (if events[|events| - 1].Send? then 1 else 0)
  }

  lemma InflightStep(v: State, e: Event)
    requires Fair(v) && v.inflight <= CWND_MAX && (e.Send? ==> CanSend(v))
    ensures Step(v, e).inflight == if e.Send? then v.inflight + 1 else SatSub(v.inflight, SENDME_INC)
  {
    hide QueueEstimate, Average;
  }

  /** With gated sends the cells in flight never exceed the largest window, and are at least those sent
      beyond what SENDMEs have acknowledged. */
  lemma {:induction false} InflightBounds(events: seq<Event>)
    requires Gated(NEW_STATE, events)
    ensures var u := Run(NEW_STATE, events);
            && u.inflight <= CWND_MAX
            && u.inflight >= Sends(events) - SENDME_INC * Sendmes(events)
    decreases |events|
  {
    hide Step;
    if events != [] {
      var last := |events| - 1;
      var before := events[..last];
      assert forall k :: 0 <= k < last ==> before[..k] == events[..k];
      InflightBounds(before);
      FairRun(NEW_STATE, before);
      assert events[last].Send? ==> CanSend(Run(NEW_STATE, events[..last]));
      InflightStep(Run(NEW_STATE, before), events[last]);
    }
  }
}
