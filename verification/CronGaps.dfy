// How long a cron schedule may stay idle: the exact walk, the sampled probe and the
// watchdog threshold derived from them (internal/core/watchdog.go).  Times are seconds.

module CronGaps {
  import opened Schedules

  const HOUR := 3600
  const SAMPLE_WINDOW := 8 * 24 * HOUR
  const MIN_SAMPLES := 8
  const SAMPLE_LIMIT := 400
  const PROBE_STEP := 600
  const MIN_THRESHOLD := HOUR

  /** b is the activation right after activation a. */
  ghost predicate Gap(next: Next, a: int, b: int) { Activation(next, a) && next(a) == Some(b) }

  /** The k-th activation after t, counting from zero. */
  ghost function Nth(next: Next, t: int, k: nat): Option<int> {
    if k == 0 then next(t)
    else
      var p := Nth(next, t, k - 1);
      if p.None? then None else next(p.value)
  }

  /** None of the first n gaps is wider than m. */
  ghost predicate EarlyGapsWithin(next: Next, from: int, n: nat, m: int) {
    forall k: nat | k < n :: GapWithin(next, from, k, m)
  }

  ghost predicate GapWithin(next: Next, from: int, k: nat, m: int) {
    Nth(next, from, k + 1).Some? ==> Nth(next, from, k + 1).value - Nth(next, from, k).value <= m
  }

  /** No gap that starts after `from` and before `until` is wider than m. */
  ghost predicate GapsWithin(next: Next, from: int, until: int, m: int) {
    forall a, b :: from < a < until && Gap(next, a, b) ==> b - a <= m
  }

  /** The gaps the walk has to see: those that start in the window, and the first MIN_SAMPLES. */
  ghost predicate InView(next: Next, from: int, a: int) {
    from < a && (a < from + 8 * 24 * 3600 || exists k: nat :: k < 8 && Nth(next, from, k) == Some(a))
  }

  /** m is the width of some gap in view, or nothing was seen at all. */
  ghost predicate Attained(next: Next, from: int, m: int) {
    m == 0 || exists a, b :: InView(next, from, a) && Gap(next, a, b) && b - a == m
  }

  lemma NthIsActivation(next: Next, from: int, k: nat)
    requires IsSchedule(next) && Nth(next, from, k).Some?
    ensures Activation(next, Nth(next, from, k).value) && from < Nth(next, from, k).value
  {
    if k > 0 { NthIsActivation(next, from, k - 1); }
  }

  /** What the walk knows after `seen` gaps, standing at activation `prev`. */
  ghost predicate Walked(next: Next, from: int, seen: nat, prev: int, max: int) {
    Nth(next, from, seen) == Some(prev) && from < prev
    && max >= 0 && Attained(next, from, max) && (seen > 0 ==> max > 0)
    && GapsWithin(next, from, prev, max)
    && EarlyGapsWithin(next, from, seen, max)
  }

  lemma WalkStart(next: Next, from: int)
    requires IsSchedule(next) && next(from).Some?
    ensures Walked(next, from, 0, next(from).value, 0)
  {
    NextIsActivation(next, from);
  }

  /** Moving on from activation prev to n, only the gap between them comes into view. */
  lemma WalkStep(next: Next, from: int, seen: nat, prev: int, max: int, n: int)
    requires IsSchedule(next) && Walked(next, from, seen, prev, max) && next(prev) == Some(n)
    requires prev < from + SAMPLE_WINDOW || seen < MIN_SAMPLES
    ensures Walked(next, from, seen + 1, n, if n - prev > max then n - prev else max)
  {
    var m := if n - prev > max then n - prev else max;
    NthIsActivation(next, from, seen);
    assert InView(next, from, prev) && Gap(next, prev, n);
    forall a, b | from < a < n && Gap(next, a, b) ensures b - a <= m {
      if a > prev { NextIsActivation(next, prev); }
    }
    assert GapWithin(next, from, seen, m);
    forall k: nat | k < seen ensures GapWithin(next, from, k, m) { assert GapWithin(next, from, k, max); }
  }

  /** A schedule that ends leaves nothing more to see. */
  lemma WalkEnd(next: Next, from: int, seen: nat, prev: int, max: int)
    requires IsSchedule(next) && Walked(next, from, seen, prev, max) && next(prev).None?
    ensures forall until :: GapsWithin(next, from, until, max)
    ensures EarlyGapsWithin(next, from, MIN_SAMPLES, max)
  {
    forall k: nat | k < MIN_SAMPLES ensures GapWithin(next, from, k, max) {
      if k >= seen { NthEnds(next, from, seen, k); }
    }
  }

  lemma WalkStands(next: Next, from: int, seen: nat, prev: int, max: int)
    requires Walked(next, from, seen, prev, max)
    ensures Nth(next, from, seen) == Some(prev)
  {
  }

  lemma WalkDone(next: Next, from: int, seen: nat, prev: int, max: int)
    requires Walked(next, from, seen, prev, max)
    ensures max >= 0 && Attained(next, from, max) && (seen > 0 ==> max > 0)
    ensures prev >= from + SAMPLE_WINDOW ==> GapsWithin(next, from, from + SAMPLE_WINDOW, max)
    ensures seen >= MIN_SAMPLES ==> EarlyGapsWithin(next, from, MIN_SAMPLES, max)
  {
  }

  /** m is the exact maximum over the gaps in view, zero if there are none. */
  ghost predicate IsWidest(next: Next, from: int, m: int) {
    Attained(next, from, m) && forall a, b :: InView(next, from, a) && Gap(next, a, b) ==> b - a <= m
  }

  lemma CoveredIsWidest(next: Next, from: int, m: int)
    requires IsSchedule(next) && Attained(next, from, m)
    requires GapsWithin(next, from, from + SAMPLE_WINDOW, m) && EarlyGapsWithin(next, from, MIN_SAMPLES, m)
    ensures IsWidest(next, from, m)
  {
    forall a, b | InView(next, from, a) && Gap(next, a, b) ensures b - a <= m {
      if a >= from + SAMPLE_WINDOW {
        var k: nat :| k < MIN_SAMPLES && Nth(next, from, k) == Some(a);
        assert GapWithin(next, from, k, m);
      }
    }
  }

  /** After gap number k the walk has seen enough: the schedule ends there, or the window and the first
      MIN_SAMPLES gaps are behind it. */
  ghost predicate EnoughAt(next: Next, from: int, k: nat) {
    Nth(next, from, k).Some?
    && var n := next(Nth(next, from, k).value);
       n.None? || (n.value >= from + 8 * 24 * 3600 && k + 1 >= 8)
  }

  /** The walk gets that far within its budget. */
  ghost predicate Covered(next: Next, from: int) { exists k: nat :: k < 400 && EnoughAt(next, from, k) }

  /** walkCronGaps: activation by activation, exact when it got far enough. */
  method WalkCronGaps(next: Next, from: int) returns (max: int, covered: bool)
    requires IsSchedule(next) && next(from).Some?
    ensures max >= 0 && Attained(next, from, max)
    ensures covered <==> Covered(next, from)
    ensures covered ==> GapsWithin(next, from, from + SAMPLE_WINDOW, max)
    ensures covered ==> EarlyGapsWithin(next, from, MIN_SAMPLES, max)
    ensures !covered ==> max > 0
    ensures covered ==> IsWidest(next, from, max)
  {
    hide IsSchedule;
    hide Walked;
    hide GapsWithin;
    hide EarlyGapsWithin;
    hide Attained;
    var deadline := from + SAMPLE_WINDOW;
    var prev := next(from).value;
    WalkStart(next, from);
    max := 0;
    var seen := 0;
    while seen < SAMPLE_LIMIT
      invariant 0 <= seen <= SAMPLE_LIMIT && Walked(next, from, seen, prev, max)
      invariant prev < deadline || seen < MIN_SAMPLES
      invariant forall k: nat | k < seen :: !EnoughAt(next, from, k)
    {
      assert Nth(next, from, seen) == Some(prev) by { WalkStands(next, from, seen, prev, max); }
      var n := next(prev);
      if n.None? {
        assert EnoughAt(next, from, seen);
        WalkEnd(next, from, seen, prev, max);
        WalkDone(next, from, seen, prev, max);
        CoveredIsWidest(next, from, max);
        return max, true;
      }
      WalkStep(next, from, seen, prev, max, n.value);
      var gap := n.value - prev;
      if gap > max { max := gap; }
      prev := n.value;
      WalkDone(next, from, seen + 1, prev, max);
      if prev >= deadline && seen + 1 >= MIN_SAMPLES {
        assert EnoughAt(next, from, seen);
        CoveredIsWidest(next, from, max);
        return max, true;
      }
      seen := seen + 1;
    }
    WalkDone(next, from, seen, prev, max);
    covered := false;
  }

  lemma {:induction false} NthEnds(next: Next, from: int, seen: nat, k: nat)
    requires Nth(next, from, seen).Some? && next(Nth(next, from, seen).value).None? && k >= seen
    ensures Nth(next, from, k + 1).None?
  {
    if k > seen { NthEnds(next, from, seen, k - 1); }
  }

  function Probe(from: int, j: int): int { from + j * PROBE_STEP }

  ghost predicate Waits(next: Next, t: int, m: int) { next(t).Some? && next(t).value - t <= m }

  /** Some instant waits m for the next activation, or nothing was seen at all. */
  ghost predicate Waited(next: Next, from: int, m: int) {
    m == 0 || exists t :: from <= t < from + SAMPLE_WINDOW && next(t) == Some(t + m)
  }

  /** The probes up to k bound every gap of the window to less than one step above their widest wait. */
  lemma ProbesBound(next: Next, from: int, k: nat, m: int, a: int, b: int)
    requires IsSchedule(next) && Gap(next, a, b) && from <= a <= from + SAMPLE_WINDOW - PROBE_STEP
    requires m >= 0 && forall j :: 0 <= j < k ==> Waits(next, Probe(from, j), m)
    requires Probe(from, k) >= from + SAMPLE_WINDOW || next(Probe(from, k)).None?
    ensures b - a < m + PROBE_STEP
  {
    var j := (a - from + PROBE_STEP - 1) / PROBE_STEP;
    var t := Probe(from, j);
    assert a <= t < a + PROBE_STEP;
    if t < b {
      assert next(t) == Some(b);
      assert j < k;
      assert Waits(next, t, m);
    }
  }

  /** probeCronGaps: the widest wait over evenly spaced probes. */
  method ProbeCronGaps(next: Next, from: int) returns (max: int)
    requires IsSchedule(next)
    ensures max >= 0 && Waited(next, from, max)
    ensures forall a, b :: from <= a <= from + SAMPLE_WINDOW - PROBE_STEP && Gap(next, a, b) ==> b - a < max + PROBE_STEP
  {
    hide IsSchedule;
    hide Gap;
    max := 0;
    var end := from + SAMPLE_WINDOW;
    var at := from;
    ghost var k := 0;
    while at < end
      invariant k >= 0 && at == Probe(from, k)
      invariant max >= 0 && Waited(next, from, max)
      invariant forall j :: 0 <= j < k ==> Waits(next, Probe(from, j), max)
      decreases end - at
    {
      var n := next(at);
      if n.None? { break; }
      var wait := n.value - at;
      assert next(at) == Some(at + wait);
      if wait > max { max := wait; }
      at := at + PROBE_STEP;
      k := k + 1;
    }
    forall a, b | from <= a <= end - PROBE_STEP && Gap(next, a, b) ensures b - a < max + PROBE_STEP {
      ProbesBound(next, from, k, max, a, b);
    }
  }

  /** Some instant of the window, or some activation in view, waits exactly m for the next activation. */
  ghost predicate RealWait(next: Next, from: int, m: int) {
    exists t :: WaitsInView(next, from, t) && next(t) == Some(t + m)
  }

  ghost predicate WaitsInView(next: Next, from: int, t: int) {
    from <= t && (t < from + SAMPLE_WINDOW || InView(next, from, t))
  }

  /** What the sampled interval of a schedule promises: it is a wait that really occurs, no gap of the window is
      longer by a probe step, and it is the widest gap in view if the walk got far enough. */
  ghost predicate Sampled(next: Next, from: int, m: int) {
    m > 0 && RealWait(next, from, m)
    && (forall a, b :: from < a <= from + 8 * 24 * 3600 - 600 && Gap(next, a, b) ==> b - a < m + 600)
    && (Covered(next, from) ==> IsWidest(next, from, m))
  }

  /** There is nothing to sample: no schedule, nothing ahead, or not a single gap in view. */
  ghost predicate NoInterval(cron: Option<Next>, from: int) {
    cron.None? || cron.value(from).None? || (Covered(cron.value, from) && IsWidest(cron.value, from, 0))
  }

  lemma NeverBoth(next: Next, from: int, m: int)
    requires Sampled(next, from, m) && Covered(next, from)
    ensures !IsWidest(next, from, 0)
  {
    var a, b :| InView(next, from, a) && Gap(next, a, b) && b - a == m;
  }

  /** cronMaxInterval: the sampled interval, unless there is nothing to sample. */
  method CronMaxInterval(cron: Option<Next>, from: int) returns (r: Option<int>)
    requires cron.Some? ==> IsSchedule(cron.value)
    ensures r.None? <==> NoInterval(cron, from)
    ensures r.Some? ==> cron.Some? && Sampled(cron.value, from, r.value)
  {
    if cron.None? { return None; }
    var next := cron.value;
    if next(from).None? { return None; }
    hide IsSchedule;
    hide Gap;
    hide InView;
    hide Attained;
    hide Waited;
    hide IsWidest;
    hide Covered;
    hide EarlyGapsWithin;
    var max, covered := WalkCronGaps(next, from);
    if !covered {
      var probed := ProbeCronGaps(next, from);
      if probed > max { max := probed; }
    }
    if max <= 0 { return None; }
    assert Sampled(next, from, max);
    if covered { NeverBoth(next, from, max); }
    return Some(max);
  }

  /** WatchdogThreshold: off below zero, explicit above; at zero twice the sampled interval, an hour at least, and
      off if there is nothing to sample. */
  method WatchdogThreshold(watchdog: int, cron: Option<Next>, createdAt: int) returns (r: Option<int>)
    requires cron.Some? ==> IsSchedule(cron.value)
    ensures watchdog < 0 ==> r.None?
    ensures watchdog > 0 ==> r == Some(watchdog)
    ensures watchdog == 0 ==> (r.None? <==> NoInterval(cron, createdAt))
    ensures watchdog == 0 && r.Some? ==>
              cron.Some? && exists m :: Sampled(cron.value, createdAt, m)
                                        && r.value == if 2 * m < 3600 then 3600 else 2 * m
    ensures watchdog == 0 && r.Some? ==> forall a, b ::
              createdAt < a <= createdAt + 8 * 24 * 3600 - 600 && Gap(cron.value, a, b) ==> b - a <= r.value
  {
    if watchdog < 0 { return None; }
    if watchdog > 0 { return Some(watchdog); }
    hide IsSchedule;
    hide Gap;
    hide RealWait;
    hide IsWidest;
    var interval := CronMaxInterval(cron, createdAt);
    if interval.None? { return None; }
    var threshold := 2 * interval.value;
    if threshold < MIN_THRESHOLD { threshold := MIN_THRESHOLD; }
    return Some(threshold);
  }
}
