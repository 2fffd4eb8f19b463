/** When a batch is sealed: the accumulator, and the tuner that follows bitrate and free memory. */
module Batching {
  import opened Arithmetic
  import opened Wrappers
  import opened Segments

  function SumOf(xs: seq<real>): (r: real)
    ensures xs == [] ==> r == 0.0
  {
    if xs == [] then 0.0 else SumOf(xs[..|xs| - 1]) + xs[|xs| - 1]
  }

  lemma {:induction false} SumOfOne(xs: seq<real>, x: real)
    ensures SumOf(xs + [x]) == SumOf(xs) + x
  {
    assert (xs + [x])[..|xs|] == xs;
  }

  function DurationsNow(segments: seq<LiveSegment>): seq<real>
    reads segments
  {
    seq(|segments|, i requires 0 <= i < |segments| reads segments => segments[i].duration)
  }

  type Batch = seq<LiveSegment>

  class Accumulator {
    var targetSeconds: real
    var maxBytes: nat
    var segments: Batch
    var duration: real
    var bytes: nat
    /** The durations that the segments had when they came in. */
    ghost var added: seq<real>

    /** The byte counter is exact. The duration counter is exact for the durations at arrival, and
        a playlist may have changed some of them since. */
    ghost predicate Valid()
      reads this
    {
      bytes == DataSize(segments) && |added| == |segments| && duration == SumOf(added)
    }

    /** Empty, or below both targets by its own counters. */
    predicate Open()
      reads this
    {
      segments == [] || (duration < targetSeconds && bytes < maxBytes)
    }

    constructor (targetSeconds: real, maxBytes: nat)
      ensures Valid() && segments == [] && Open()
      ensures this.targetSeconds == targetSeconds && this.maxBytes == maxBytes
    {
      this.targetSeconds, this.maxBytes := targetSeconds, maxBytes;
      segments, duration, bytes, added := [], 0.0, 0, [];
    }

    method Pop() returns (batch: Option<Batch>)
      requires Valid()
      modifies this
      ensures Valid() && segments == [] && Open()
      ensures batch == if old(segments) == [] then None else Some(old(segments))
      ensures old(segments) != [] ==> duration == 0.0 && bytes == 0
      ensures targetSeconds == old(targetSeconds) && maxBytes == old(maxBytes)
    {
      if segments == [] {
        return None;
      }
      batch := Some(segments);
      segments, duration, bytes, added := [], 0.0, 0, [];
    }

    /** New targets seal at once what has crossed them. */
    method Tune(seconds: real, limit: int) returns (batch: Option<Batch>)
      requires Valid()
      modifies this
      ensures Valid() && Open()
      ensures targetSeconds == RealMax(0.001, seconds) && maxBytes == Max(1, limit)
      ensures batch.Some? <==> old(segments) != [] && (old(duration) >= targetSeconds || old(bytes) >= maxBytes)
      ensures if batch.Some? then batch.value == old(segments) && segments == [] && duration == 0.0 && bytes == 0
              else segments == old(segments) && duration == old(duration) && bytes == old(bytes)
    {
      targetSeconds := RealMax(0.001, seconds);
      maxBytes := Max(1, limit);
      if segments != [] && (duration >= targetSeconds || bytes >= maxBytes) {
        batch := Pop();
      } else {
        batch := None;
      }
    }

    method Add(segment: LiveSegment) returns (batch: Option<Batch>)
      requires Valid()
      modifies this
      ensures Valid() && Open()
      ensures targetSeconds == old(targetSeconds) && maxBytes == old(maxBytes)
      ensures batch.Some? <==>
                old(duration) + segment.duration >= targetSeconds || old(bytes) + |segment.data| >= maxBytes
      ensures if batch.Some? then batch.value == old(segments) + [segment] && segments == [] && duration == 0.0
              else segments == old(segments) + [segment] && duration == old(duration) + segment.duration
    {
      DataSizeOne(segments, segment);
      SumOfOne(added, segment.duration);
      segments := segments + [segment];
      added := added + [segment.duration];
      duration := duration + segment.duration;
      bytes := bytes + |segment.data|;
      if duration >= targetSeconds || bytes >= maxBytes {
        batch := Pop();
      } else {
        batch := None;
      }
    }
  }

  function Changes(now: seq<real>, before: seq<real>): seq<real>
    requires |now| == |before|
  {
    seq(|now|, i requires 0 <= i < |now| => now[i] - before[i])
  }

  lemma {:induction false} SumOfDifferences(xs: seq<real>, ys: seq<real>, ds: seq<real>)
    requires |xs| == |ys| == |ds| && forall i :: 0 <= i < |xs| ==> ds[i] == xs[i] - ys[i]
    ensures SumOf(xs) - SumOf(ys) == SumOf(ds)
  {
    if |xs| > 0 {
      var n := |xs| - 1;
      SumOfDifferences(xs[..n], ys[..n], ds[..n]);
    }
  }

  // ---- Tuning -------------------------------------------------------------

  const MIB := 1024 * 1024

  /** `adaptive`: the targets follow bitrate and memory; otherwise they stay as they were set. */
  datatype Config = Config(adaptive: bool, targetMb: nat, minSeconds: real, maxSeconds: real, percent: real,
        reserveMb: nat, cap: nat, cameras: nat)

  predicate ValidConfig(c: Config) {
    && 1 <= c.targetMb && 0.0 < c.minSeconds <= c.maxSeconds && 0.0 <= c.percent && 1 <= c.cap && 1 <= c.cameras
  }

  /** Payload bytes per second of one segment. */
  function InstantRate(bytes: nat, duration: real): (r: real)
    ensures r >= 0.0
  {
    (bytes as real) / RealMax(0.001, duration)
  }

  predicate Within(x: real, xs: seq<real>) {
    (exists i :: 0 <= i < |xs| && xs[i] <= x) && (exists i :: 0 <= i < |xs| && x <= xs[i])
  }

  /** Five-minute exponential smoothing; the first sample counts in full. */
  function Smoothed(previous: real, instant: real, duration: real): real {
    if previous <= 0.0 then instant
    else previous + RealMin(1.0, RealMax(0.01, RealMax(0.001, duration) / 300.0)) * (instant - previous)
  }

  /** Smoothing moves the estimate towards the sample as far as the sample is long, five minutes being
      the whole way and three seconds the least; so it stays between the two. */
  lemma {:induction false} SmoothedIsBetween(previous: real, instant: real, duration: real)
    ensures previous <= 0.0 || duration >= 300.0 ==> Smoothed(previous, instant, duration) == instant
    ensures previous > 0.0 && 3.0 <= duration <= 300.0 ==>
              300.0 * (Smoothed(previous, instant, duration) - previous) == duration * (instant - previous)
    ensures previous > 0.0 && duration <= 3.0 ==>
              100.0 * (Smoothed(previous, instant, duration) - previous) == instant - previous
    ensures previous > 0.0 ==>
              RealMin(previous, instant) <= Smoothed(previous, instant, duration) <= RealMax(previous, instant)
  {
    var alpha, delta := RealMin(1.0, RealMax(0.01, RealMax(0.001, duration) / 300.0)), instant - previous;
    assert previous > 0.0 ==> Smoothed(previous, instant, duration) == previous + alpha * delta;
    if delta >= 0.0 {
      PartOf(alpha, delta);
    } else {
      PartOfNegative(alpha, delta);
    }
  }

  lemma {:induction false} PartOf(alpha: real, whole: real)
    requires 0.0 <= alpha <= 1.0 && 0.0 <= whole
    ensures 0.0 <= alpha * whole <= whole
  {
  }

  lemma {:induction false} PartOfNegative(alpha: real, whole: real)
    requires 0.0 <= alpha <= 1.0 && whole <= 0.0
    ensures whole <= alpha * whole <= 0.0
  {
  }

  lemma {:induction false} WithinGrows(x: real, xs: seq<real>, y: real, next: real)
    requires Within(x, xs) && RealMin(x, y) <= next <= RealMax(x, y)
    ensures Within(next, xs + [y])
  {
    var lo :| 0 <= lo < |xs| && xs[lo] <= x;
    var hi :| 0 <= hi < |xs| && x <= xs[hi];
    var ys := xs + [y];
    assert ys[lo] == xs[lo] && ys[hi] == xs[hi] && ys[|xs|] == y;
    assert ys[if x <= y then lo else |xs|] <= next;
    assert next <= ys[if x <= y then |xs| else hi];
  }

  lemma {:induction false} SampleIsWithin(xs: seq<real>, x: real)
    ensures Within(x, xs + [x])
  {
    assert (xs + [x])[|xs|] == x;
  }

  class Tuner {
    const config: Config
    var rate: real
    var targetBytes: nat
    var targetSeconds: real
    /** Every instantaneous rate seen so far. */
    ghost var rates: seq<real>

    ghost predicate Valid()
      reads this
    {
      && ValidConfig(config)
      && (rates == [] ==> rate == 0.0)
      && (rates != [] ==> Within(rate, rates))
    }

    constructor (config: Config, chunkSeconds: real)
      requires ValidConfig(config)
      ensures Valid() && this.config == config && rates == []
      ensures targetBytes == (if config.adaptive then Largest(config) else config.cap) && targetSeconds == chunkSeconds
    {
      this.config := config;
      rate, targetSeconds, rates := 0.0, chunkSeconds, [];
      targetBytes := if config.adaptive then Largest(config) else config.cap;
    }

    /** The exponential estimate of the payload rate. */
    method Estimate(bytes: nat, duration: real)
      requires Valid()
      modifies `rate, `rates
      ensures Valid() && rates == old(rates) + [InstantRate(bytes, duration)]
      ensures rate == Smoothed(old(rate), InstantRate(bytes, duration), duration)
    {
      var instant := InstantRate(bytes, duration);
      SmoothedIsBetween(rate, instant, duration);
      hide InstantRate;
      var next := Smoothed(rate, instant, duration);
      if rates != [] {
        if rate <= 0.0 {
          SampleIsWithin(rates, instant);
        } else {
          WithinGrows(rate, rates, instant, next);
        }
      } else {
        SampleIsWithin(rates, instant);
      }
      hide Within, Smoothed;
      rate := next;
      rates := rates + [instant];
    }

    /** `memory` is the last sample of available memory, if one could be taken. */
    method Retarget(segment: LiveSegment, memory: Option<nat>)
      requires Valid() && |segment.data| <= config.cap
      modifies this
      ensures Valid()
      ensures rates == old(rates) + [InstantRate(|segment.data|, segment.duration)]
      ensures 1 <= targetBytes && |segment.data| <= targetBytes <= config.cap && targetBytes >= Min(MIB, config.cap)
      ensures targetBytes <= Max(|segment.data|, Max(Min(MIB, config.cap), Largest(config)))
      ensures memory.None? ==> targetBytes >= Largest(config)
      ensures memory.Some? ==> targetBytes >= Min(Largest(config), Share(config, memory.value))
      ensures memory.Some? ==>
                targetBytes <= Max(|segment.data|, Max(Min(MIB, config.cap), Share(config, memory.value)))
      ensures rate == Smoothed(old(rate), InstantRate(|segment.data|, segment.duration), segment.duration)
      ensures config.minSeconds <= targetSeconds <= config.maxSeconds
      ensures var seconds := SecondsFor(targetBytes, rate);
              && (targetSeconds > config.minSeconds ==> targetSeconds <= seconds)
              && (targetSeconds < config.maxSeconds ==> targetSeconds >= seconds)
    {
      Estimate(|segment.data|, segment.duration);
      hide InstantRate, SecondsFor, Within, Share, Smoothed;
      var least := Largest(config);
      if memory.Some? {
        least := Min(least, Share(config, memory.value));
      }
      targetBytes := Min(config.cap, Max(1, Max(|segment.data|, Max(Min(MIB, config.cap), least))));
      targetSeconds := RealMin(config.maxSeconds, RealMax(config.minSeconds, SecondsFor(targetBytes, rate)));
    }
  }

  /** What a batch grows to when memory is plentiful: the target object, or a third of the cap. */
  function Largest(c: Config): nat { Min(c.targetMb * MIB, Max(1, c.cap / 3)) }

  /** One camera's share of the free memory. */
  function Share(c: Config, memory: nat): int
    requires ValidConfig(c)
  {
    ((Max(0, memory - c.reserveMb * MIB) as real) * c.percent / 100.0).Floor / c.cameras
  }

  /** How long the estimated rate takes to fill a target. */
  function SecondsFor(bytes: nat, rate: real): real { (bytes as real) / RealMax(1.0, rate) }

  /** The largest number of bytes that is within the target object and a third of the cap. */
  lemma {:induction false} LargestIsLargest(c: Config, n: nat)
    requires ValidConfig(c)
    ensures 1 <= Largest(c) <= c.cap
    ensures n <= Largest(c) <==> n <= c.targetMb * MIB && (n <= 1 || 3 * n <= c.cap)
  {
  }

  /** The cameras' shares are all that may be used of what is free beyond the reserve, but for less
      than one byte a camera. */
  lemma {:induction false} ShareIsFair(c: Config, memory: nat)
    requires ValidConfig(c)
    ensures memory <= c.reserveMb * MIB ==> Share(c, memory) == 0
    ensures memory >= c.reserveMb * MIB ==>
              var pool := ((memory - c.reserveMb * MIB) as real) * c.percent;
              && ((c.cameras * Share(c, memory)) as real) * 100.0 <= pool
              && pool < ((c.cameras * (Share(c, memory) + 1)) as real) * 100.0
  {
    var free := Max(0, memory - c.reserveMb * MIB);
    var exact := (free as real) * c.percent / 100.0;
    var whole := exact.Floor;
    assert exact * 100.0 == (free as real) * c.percent;
    WholeParts(whole, c.cameras);
    if free == 0 {
      assert exact == 0.0;
      SmallQuotient(c.cameras);
    }
  }

  lemma {:induction false} WholeParts(whole: int, parts: nat)
    requires parts > 0
    ensures parts * (whole / parts) <= whole <= parts * (whole / parts + 1) - 1
  {
  }

  lemma {:induction false} SmallQuotient(parts: nat)
    requires parts > 0
    ensures 0 / parts == 0
  {
  }

  /** A segment's rate brings its bytes in its duration, and at the estimated rate the time for a target
      brings just its bytes. */
  lemma {:induction false} RateTimesSeconds(bytes: nat, rate: real, duration: real)
    ensures duration >= 0.001 ==> InstantRate(bytes, duration) * duration == bytes as real
    ensures duration <= 0.001 ==> InstantRate(bytes, duration) == 1000.0 * bytes as real
    ensures rate >= 1.0 ==> SecondsFor(bytes, rate) * rate == bytes as real
    ensures rate <= 1.0 ==> SecondsFor(bytes, rate) == bytes as real
  {
  }

  function Flat(batches: seq<Batch>): Batch {
    if batches == [] then [] else Flat(batches[..|batches| - 1]) + batches[|batches| - 1]
  }

  lemma {:induction false} FlatNone()
    ensures Flat([]) == []
  {
  }

  lemma {:induction false} FlatOne(batches: seq<Batch>, batch: Batch)
    ensures Flat(batches + [batch]) == Flat(batches) + batch
  {
    assert (batches + [batch])[..|batches|] == batches;
  }

  /** A counter has come to its target. */
  predicate Reached(duration: real, bytes: nat, seconds: real, limit: nat) {
    duration >= seconds || bytes >= limit
  }

  /** One `add` of the manager without the waiting: retarget, make room under the cap, accumulate.
      What was held comes out if it has crossed the new targets, or the segment would pass the cap;
      what is then held, with the segment, comes out if it reaches the targets. Nothing else does. At
      most two batches come out; with the accumulator they hold the segments in order, and none is
      over the cap. */
  method AddSegment(tuner: Tuner, acc: Accumulator, segment: LiveSegment, memory: Option<nat>)
    returns (batches: seq<Batch>)
    requires tuner.Valid() && acc.Valid() && acc.bytes <= tuner.config.cap && |segment.data| <= tuner.config.cap
    modifies tuner, acc
    ensures tuner.Valid() && acc.Valid() && acc.Open() && acc.bytes <= tuner.config.cap
    ensures if tuner.config.adaptive
            then acc.maxBytes == tuner.targetBytes <= tuner.config.cap
                 && acc.targetSeconds == RealMax(0.001, tuner.targetSeconds)
            else acc.maxBytes == old(acc.maxBytes) && acc.targetSeconds == old(acc.targetSeconds)
    ensures var held := old(acc.segments);
            var crossed := tuner.config.adaptive
                           && Reached(old(acc.duration), old(acc.bytes), acc.targetSeconds, acc.maxBytes);
            var out := held != [] && (crossed || old(acc.bytes) + |segment.data| > tuner.config.cap);
            var duration, bytes := if out then 0.0 else old(acc.duration), if out then 0 else old(acc.bytes);
            var full := Reached(duration + segment.duration, bytes + |segment.data|, acc.targetSeconds, acc.maxBytes);
            var rest := if out then [segment] else held + [segment];
            && batches == (if out then [held] else []) + (if full then [rest] else [])
            && acc.segments == (if full then [] else rest)
            && acc.duration == (if full then 0.0 else duration + segment.duration)
    ensures |batches| <= 2 && Flat(batches) + acc.segments == old(acc.segments) + [segment]
    ensures forall b :: b in batches ==> b != [] && DataSize(b) <= tuner.config.cap
  {
    hide DataSize, SumOf, Within, Flat, InstantRate, SecondsFor, Share, Smoothed, Largest, Tuner.Valid;
    NothingHeld(acc);
    ghost var held, duration, bytes := acc.segments, acc.duration, acc.bytes;
    batches := [];
    var batch: Option<Batch>;
    if tuner.config.adaptive {
      tuner.Retarget(segment, memory);
      batch := acc.Tune(tuner.targetSeconds, tuner.targetBytes);
      if batch.Some? {
        batches := batches + [batch.value];
      }
    }
    if acc.bytes > 0 && acc.bytes + |segment.data| > tuner.config.cap {
      batch := acc.Pop();
      batches := batches + [batch.value];
    }
    ghost var crossed := tuner.config.adaptive && Reached(duration, bytes, acc.targetSeconds, acc.maxBytes);
    ghost var out := held != [] && (crossed || bytes + |segment.data| > tuner.config.cap);
    assert batches == if out then [held] else [];
    assert acc.segments == if out then [] else held;
    assert acc.duration == (if out then 0.0 else duration) && acc.bytes == if out then 0 else bytes;
    batch := acc.Add(segment);
    if batch.Some? {
      batches := batches + [batch.value];
    }
    ghost var rest, full := if out then [segment] else held + [segment], batch.Some?;
    assert [] + [segment] == [segment];
    assert batches == (if out then [held] else []) + (if full then [rest] else []);
    HoldsAll(batches, held, acc.segments, segment, out, full);
    SealedFit(held, segment);
  }

  lemma {:induction false} NothingHeld(acc: Accumulator)
    requires acc.Valid()
    ensures acc.segments == [] ==> acc.bytes == 0 && acc.duration == 0.0
  {
  }

  lemma {:induction false} HoldsAll(batches: seq<Batch>, held: Batch, rest: Batch, segment: LiveSegment, out: bool,
                                    full: bool)
    requires var last := if out then [segment] else held + [segment];
             && batches == (if out then [held] else []) + (if full then [last] else [])
             && rest == if full then [] else last
    ensures Flat(batches) + rest == held + [segment]
  {
    hide Flat;
    FlatNone();
    FlatOne([], held);
    FlatOne([], held + [segment]);
    FlatOne([held], [segment]);
    if out {
      assert [] + [held] == [held];
      assert full ==> batches == [held] + [[segment]];
      assert !full ==> batches == [held];
    } else {
      assert full ==> batches == [] + [held + [segment]];
      assert !full ==> batches == [];
    }
  }

  lemma {:induction false} SealedFit(held: Batch, segment: LiveSegment)
    ensures DataSize(held + [segment]) == DataSize(held) + |segment.data|
    ensures DataSize([segment]) == |segment.data|
  {
    DataSizeOne(held, segment);
    DataSizeOne([], segment);
    assert [] + [segment] == [segment];
  }
}
