/**
 Pressure-aware resizing of the Lean and build pools (`concurrency/lean.py`,
 `concurrency/build.py`).

 The two controllers classify a telemetry sample differently and then follow the same counters,
 so one state machine serves both: a streak of samples in one direction, an interval since the
 last resize, and a step of one within the bounds.
 */
module Resizing {
  import opened Admission
  import opened Options

  datatype Policy = Policy(minimum: nat, maximum: nat, fixed: bool, interval: int, hysteresis: nat)

  ghost predicate ValidPolicy(p: Policy) {
    p.minimum <= p.maximum && p.interval >= 0 && p.hysteresis >= 1
  }

  /** Pressure names are already case-folded. */
  datatype Sample =
    | LeanSample(pressure: string, queue: int, cpu: real, improved: bool)
    | BuildSample(pressure: string, queue: int, io: bool, improved: bool)

  predicate Acceptable(s: Sample) {
    s.queue >= 0 && (s.LeanSample? ==> 0.0 <= s.cpu <= 100.0)
  }

  datatype Direction = Emergency | Shrink | Grow | Hold

  function Classify(s: Sample): Direction {
    if s.pressure == "emergency" then Emergency
    else if s.LeanSample? then
      if s.pressure == "red" || (s.cpu > 92.0 && !s.improved) then Shrink
      else if s.pressure == "green" && s.queue > 0 && s.cpu < 75.0 then Grow
      else Hold
    else
      if s.pressure == "red" || s.io then Shrink
      else if s.pressure == "green" && s.queue > 0 && s.improved then Grow
      else Hold
  }

  predicate Pauses(s: Sample) {
    s.pressure in {"red", "emergency"} || (s.BuildSample? && s.pressure == "yellow")
  }

  /** The published limit and the controller's own counters. */
  datatype Pool = Pool(limit: nat, grown: nat, shrunk: nat, lastResize: Option<int>)

  function Clamped(p: Policy, limit: int): nat {
    Max(p.minimum, if limit < p.maximum then limit else p.maximum)
  }

  function Resize(p: Policy, pool: Pool, limit: int, now: int): Pool {
    var bounded := Clamped(p, limit);
    Pool(bounded, 0, 0, if bounded != pool.limit then Some(now) else pool.lastResize)
  }

  predicate ResizeAllowed(p: Policy, pool: Pool, now: int) {
    pool.lastResize.None? || now - pool.lastResize.value >= p.interval
  }

  function Observe(p: Policy, pool: Pool, direction: Direction, now: int): Pool {
    if p.fixed then pool
    else match direction
      case Emergency => Resize(p, pool, p.minimum, now)
      case Shrink =>
        var counted := pool.(shrunk := pool.shrunk + 1, grown := 0);
        if counted.shrunk >= p.hysteresis && ResizeAllowed(p, counted, now)
        then Resize(p, counted, counted.limit - 1, now) else counted
      case Grow =>
        var counted := pool.(grown := pool.grown + 1, shrunk := 0);
        if counted.grown >= p.hysteresis && ResizeAllowed(p, counted, now)
        then Resize(p, counted, counted.limit + 1, now) else counted
      case Hold => pool.(grown := 0, shrunk := 0)
  }

  // ---- Observation histories ----

  datatype Observation = Observation(direction: Direction, at: int)

  ghost predicate Follows(p: Policy, pools: seq<Pool>, obs: seq<Observation>, i: nat)
    requires |pools| == |obs| + 1 && i < |obs|
  {
    pools[i + 1] == Observe(p, pools[i], obs[i].direction, obs[i].at)
  }

  /** `pools` are the successive states of one controller; clock readings never go back. */
  ghost predicate IsHistory(p: Policy, pools: seq<Pool>, obs: seq<Observation>) {
    && ValidPolicy(p)
    && |pools| == |obs| + 1
    && p.minimum <= pools[0].limit <= p.maximum
    && pools[0].grown == pools[0].shrunk == 0 && pools[0].lastResize == None
    && (forall i :: 0 <= i < |obs| ==> Follows(p, pools, obs, i))
    && (forall i, j :: 0 <= i <= j < |obs| ==> obs[i].at <= obs[j].at)
  }

  /** Observation `i` changed the published limit. */
  ghost predicate Resized(pools: seq<Pool>, i: nat)
    requires i + 1 < |pools|
  {
    pools[i + 1].limit != pools[i].limit
  }

  /** The last `n` of the first `i` observations all point in `direction` and none of them resized. */
  ghost predicate Streak(pools: seq<Pool>, obs: seq<Observation>, i: nat, n: nat, direction: Direction)
    requires i <= |obs| && |pools| == |obs| + 1
  {
    n <= i && forall j :: i - n <= j < i ==> obs[j].direction == direction && !Resized(pools, j)
  }

  ghost predicate Remembers(p: Policy, pools: seq<Pool>, obs: seq<Observation>, i: nat)
    requires i <= |obs| && |pools| == |obs| + 1
  {
    && p.minimum <= pools[i].limit <= p.maximum
    && Streak(pools, obs, i, pools[i].grown, Grow)
    && Streak(pools, obs, i, pools[i].shrunk, Shrink)
    && (forall j :: 0 <= j < i && Resized(pools, j) ==>
          pools[i].lastResize.Some? && obs[j].at <= pools[i].lastResize.value)
    && (pools[i].lastResize.Some? ==>
          exists j :: 0 <= j < i && Resized(pools, j) && obs[j].at == pools[i].lastResize.value)
  }

  /** What one observation does to the counters and to the time of the last resize. */
  lemma OneObservation(p: Policy, pool: Pool, direction: Direction, now: int)
    requires ValidPolicy(p) && p.minimum <= pool.limit <= p.maximum
    ensures var after := Observe(p, pool, direction, now);
            && p.minimum <= after.limit <= p.maximum
            && (after.grown == 0 || (p.fixed && after == pool)
                || (direction == Grow && after.grown == pool.grown + 1 && after.limit == pool.limit))
            && (after.shrunk == 0 || (p.fixed && after == pool)
                || (direction == Shrink && after.shrunk == pool.shrunk + 1 && after.limit == pool.limit))
            && after.lastResize == if after.limit != pool.limit then Some(now) else pool.lastResize
  {
  }

  lemma {:induction false} HistoryIsRemembered(p: Policy, pools: seq<Pool>, obs: seq<Observation>, i: nat)
    requires IsHistory(p, pools, obs) && i <= |obs|
    ensures Remembers(p, pools, obs, i)
    ensures p.fixed ==> pools[i] == pools[0]
  {
    if i == 0 {
    } else {
      HistoryIsRemembered(p, pools, obs, i - 1);
      assert Follows(p, pools, obs, i - 1);
      OneObservation(p, pools[i - 1], obs[i - 1].direction, obs[i - 1].at);
      if !Resized(pools, i - 1) && pools[i].lastResize.Some? {
        var j :| 0 <= j < i - 1 && Resized(pools, j) && obs[j].at == pools[i - 1].lastResize.value;
      }
    }
  }

  /** The limit is always inside the configured bounds. */
  lemma LimitStaysInBounds(p: Policy, pools: seq<Pool>, obs: seq<Observation>, i: nat)
    requires IsHistory(p, pools, obs) && i <= |obs|
    ensures p.minimum <= pools[i].limit <= p.maximum
  {
    HistoryIsRemembered(p, pools, obs, i);
  }

  /**
   What a resize outside an emergency needs: it moves by one, in the direction of the last
   `hysteresis` samples, which came after the previous resize, and that is an interval ago.
   */
  lemma ResizeNeedsEvidence(p: Policy, pools: seq<Pool>, obs: seq<Observation>, i: nat)
    requires IsHistory(p, pools, obs) && i < |obs|
    requires Resized(pools, i) && obs[i].direction != Emergency
    ensures obs[i].direction in {Shrink, Grow} && !p.fixed
    ensures pools[i + 1].limit as int == pools[i].limit + if obs[i].direction == Grow then 1 else -1
    ensures i + 1 >= p.hysteresis
    ensures Streak(pools, obs, i, p.hysteresis - 1, obs[i].direction)
    ensures forall j :: 0 <= j < i && Resized(pools, j) ==> obs[i].at - obs[j].at >= p.interval
  {
    HistoryIsRemembered(p, pools, obs, i);
    assert Follows(p, pools, obs, i);
  }

  function Counter(pool: Pool, direction: Direction): nat {
    if direction == Grow then pool.grown else pool.shrunk
  }

  function Bound(p: Policy, direction: Direction): nat {
    if direction == Grow then p.maximum else p.minimum
  }

  /** The converse: enough samples after enough time do resize, unless the bound is reached. */
  lemma EvidenceResizes(p: Policy, pools: seq<Pool>, obs: seq<Observation>, i: nat)
    requires IsHistory(p, pools, obs) && i < |obs|
    requires !p.fixed && i + 1 >= p.hysteresis && obs[i].direction in {Shrink, Grow}
    requires Streak(pools, obs, i, p.hysteresis - 1, obs[i].direction)
    requires forall j :: 0 <= j < i && Resized(pools, j) ==> obs[i].at - obs[j].at >= p.interval
    ensures Resized(pools, i) || pools[i].limit == Bound(p, obs[i].direction)
  {
    HistoryIsRemembered(p, pools, obs, i);
    StreakIsCounted(p, pools, obs, i, p.hysteresis - 1);
    assert Follows(p, pools, obs, i);
  }

  /** A streak is on the counter, unless the limit sits at its bound and the counter restarted. */
  lemma {:induction false} StreakIsCounted(p: Policy, pools: seq<Pool>, obs: seq<Observation>, i: nat, n: nat)
    requires IsHistory(p, pools, obs) && i < |obs|
    requires !p.fixed && n < p.hysteresis && obs[i].direction in {Shrink, Grow}
    requires Streak(pools, obs, i, n, obs[i].direction)
    ensures Counter(pools[i], obs[i].direction) >= n || pools[i].limit == Bound(p, obs[i].direction)
    decreases n
  {
    if n == 0 {
    } else {
      var d := obs[i].direction;
      assert obs[i - 1].direction == d && !Resized(pools, i - 1);
      StreakIsCounted(p, pools, obs, i - 1, n - 1);
      LimitStaysInBounds(p, pools, obs, i - 1);
      assert Follows(p, pools, obs, i - 1);
      SampleCounts(p, pools[i - 1], d, obs[i - 1].at);
    }
  }

  lemma SampleCounts(p: Policy, pool: Pool, direction: Direction, now: int)
    requires ValidPolicy(p) && !p.fixed && direction in {Shrink, Grow}
    requires p.minimum <= pool.limit <= p.maximum
    requires Observe(p, pool, direction, now).limit == pool.limit
    ensures var after := Observe(p, pool, direction, now);
            Counter(after, direction) == Counter(pool, direction) + 1 || after.limit == Bound(p, direction)
  {
  }

  // ---- The same laws, told of the samples ----

  /** Green pressure, work waiting, and room: a cool processor, or a build that helped and no slow disk. */
  ghost predicate AsksMore(s: Sample) {
    && s.pressure == "green" && s.queue > 0
    && match s
       case LeanSample(_, _, cpu, _) => cpu < 75.0
       case BuildSample(_, _, io, improved) => !io && improved
  }

  /** Short of an emergency: red pressure, a hot processor without a gain, or a slow disk. */
  ghost predicate AsksLess(s: Sample) {
    && s.pressure != "emergency"
    && (|| s.pressure == "red"
        || match s
           case LeanSample(_, _, cpu, improved) => cpu > 92.0 && !improved
           case BuildSample(_, _, io, _) => io)
  }

  lemma ClassMeans(s: Sample)
    ensures Classify(s) == Emergency <==> s.pressure == "emergency"
    ensures Classify(s) == Grow <==> AsksMore(s)
    ensures Classify(s) == Shrink <==> AsksLess(s)
  {
    assert "green" != "red" && "green" != "emergency";
  }

  function ObservationsOf(samples: seq<Sample>, at: seq<int>): (obs: seq<Observation>)
    requires |samples| == |at|
    ensures |obs| == |samples|
    ensures forall i :: 0 <= i < |samples| ==> obs[i] == Observation(Classify(samples[i]), at[i])
  {
    seq(|samples|, i requires 0 <= i < |samples| => Observation(Classify(samples[i]), at[i]))
  }

  /** `pools` are the successive states of one controller that took these samples at these times. */
  ghost predicate IsSampled(p: Policy, pools: seq<Pool>, samples: seq<Sample>, at: seq<int>) {
    |samples| == |at| && IsHistory(p, pools, ObservationsOf(samples, at))
  }

  /** The last `n` of the first `i` samples all ask for more (or for less), and none of them resized. */
  ghost predicate KeepsAsking(pools: seq<Pool>, samples: seq<Sample>, i: nat, n: nat, more: bool)
    requires i <= |samples| && |pools| == |samples| + 1
  {
    n <= i && forall j :: i - n <= j < i ==>
      (if more then AsksMore(samples[j]) else AsksLess(samples[j])) && pools[j + 1].limit == pools[j].limit
  }

  lemma AskingIsStreak(p: Policy, pools: seq<Pool>, samples: seq<Sample>, at: seq<int>, i: nat, n: nat, more: bool)
    requires IsSampled(p, pools, samples, at) && i <= |samples|
    ensures KeepsAsking(pools, samples, i, n, more) <==>
            Streak(pools, ObservationsOf(samples, at), i, n, if more then Grow else Shrink)
  {
    var obs := ObservationsOf(samples, at);
    forall j | 0 <= j < |samples| ensures
      (obs[j].direction == Grow <==> AsksMore(samples[j])) && (obs[j].direction == Shrink <==> AsksLess(samples[j]))
    {
      ClassMeans(samples[j]);
    }
    if KeepsAsking(pools, samples, i, n, more) {
      assert forall j :: i - n <= j < i ==> !Resized(pools, j);
    }
    if Streak(pools, obs, i, n, if more then Grow else Shrink) {
      forall j | i - n <= j < i ensures
        (if more then AsksMore(samples[j]) else AsksLess(samples[j])) && pools[j + 1].limit == pools[j].limit
      {
        assert obs[j].direction == (if more then Grow else Shrink) && !Resized(pools, j);
      }
    }
  }

  /** Outside emergencies the limit moves by one, after enough samples that ask for it and enough time. */
  lemma SamplesAreNeeded(p: Policy, pools: seq<Pool>, samples: seq<Sample>, at: seq<int>, i: nat)
    requires IsSampled(p, pools, samples, at) && i < |samples|
    requires pools[i + 1].limit != pools[i].limit && samples[i].pressure != "emergency"
    ensures var more := pools[i + 1].limit > pools[i].limit;
            && !p.fixed && (if more then AsksMore(samples[i]) else AsksLess(samples[i]))
            && pools[i + 1].limit as int == pools[i].limit + (if more then 1 else -1)
            && i + 1 >= p.hysteresis && KeepsAsking(pools, samples, i, p.hysteresis - 1, more)
    ensures forall j :: 0 <= j < i && pools[j + 1].limit != pools[j].limit ==> at[i] - at[j] >= p.interval
  {
    var obs := ObservationsOf(samples, at);
    ClassMeans(samples[i]);
    assert Resized(pools, i);
    ResizeNeedsEvidence(p, pools, obs, i);
    AskingIsStreak(p, pools, samples, at, i, p.hysteresis - 1, pools[i + 1].limit > pools[i].limit);
    forall j | 0 <= j < i && pools[j + 1].limit != pools[j].limit ensures at[i] - at[j] >= p.interval {
      assert Resized(pools, j);
    }
  }

  /** The converse: enough samples that ask for it, after enough time, move the limit off anything but its bound. */
  lemma SamplesSuffice(p: Policy, pools: seq<Pool>, samples: seq<Sample>, at: seq<int>, i: nat, more: bool)
    requires IsSampled(p, pools, samples, at) && i < |samples| && !p.fixed && i + 1 >= p.hysteresis
    requires if more then AsksMore(samples[i]) else AsksLess(samples[i])
    requires KeepsAsking(pools, samples, i, p.hysteresis - 1, more)
    requires forall j :: 0 <= j < i && pools[j + 1].limit != pools[j].limit ==> at[i] - at[j] >= p.interval
    ensures || pools[i].limit == (if more then p.maximum else p.minimum)
            || pools[i + 1].limit as int == pools[i].limit + (if more then 1 else -1)
  {
    var obs := ObservationsOf(samples, at);
    ClassMeans(samples[i]);
    AskingIsStreak(p, pools, samples, at, i, p.hysteresis - 1, more);
    forall j | 0 <= j < i && Resized(pools, j) ensures obs[i].at - obs[j].at >= p.interval {
      assert pools[j + 1].limit != pools[j].limit;
    }
    EvidenceResizes(p, pools, obs, i);
    if Resized(pools, i) {
      ResizeNeedsEvidence(p, pools, obs, i);
    }
  }

  /** An emergency sample leaves the minimum. */
  lemma EmergencyMeansMinimum(p: Policy, pools: seq<Pool>, samples: seq<Sample>, at: seq<int>, i: nat)
    requires IsSampled(p, pools, samples, at) && i < |samples| && !p.fixed && samples[i].pressure == "emergency"
    ensures pools[i + 1].limit == p.minimum
  {
    var obs := ObservationsOf(samples, at);
    ClassMeans(samples[i]);
    assert Follows(p, pools, obs, i);
  }

  class PoolController {
    const store: AdmissionStore
    const resource: Resource
    const policy: Policy
    var grown: nat
    var shrunk: nat
    var lastResize: Option<int>
    var pressure: string
    var paused: bool

    ghost predicate Valid()
      reads this, store
    {
      ValidPolicy(policy) && resource in store.limits
    }

    ghost function State(): Pool
      requires Valid()
      reads this, store
    {
      Pool(store.limits[resource], grown, shrunk, lastResize)
    }

    constructor (store: AdmissionStore, resource: Resource, policy: Policy, initial: nat)
      requires ValidPolicy(policy) && policy.minimum <= initial <= policy.maximum
      modifies store
      ensures Valid() && this.store == store && this.resource == resource && this.policy == policy
      ensures store.Tables() == EnsureLimit(old(store.Tables()), resource, initial)
      ensures resource !in old(store.limits) ==> State() == Pool(initial, 0, 0, None)
    {
      this.store, this.resource, this.policy := store, resource, policy;
      grown, shrunk, lastResize, pressure, paused := 0, 0, None, "green", false;
      new;
      var _ := store.PublishIfAbsent(resource, initial);
    }

    method ResizeTo(limit: int, now: int)
      requires Valid()
      modifies this, store`limits
      ensures Valid() && State() == Resize(policy, old(State()), limit, now)
      ensures paused == old(paused) && pressure == old(pressure)
      ensures store.limits == old(store.limits)[resource := Clamped(policy, limit)]
      ensures store.limits[resource] as int ==
              if limit < policy.minimum then policy.minimum else if limit > policy.maximum then policy.maximum else limit
      ensures grown == shrunk == 0
      ensures lastResize == if store.limits[resource] != old(store.limits)[resource] then Some(now) else old(lastResize)
    {
      var bounded := Clamped(policy, limit);
      if bounded != store.limits[resource] {
        var _ := store.Publish(resource, bounded);
        lastResize := Some(now);
      }
      grown, shrunk := 0, 0;
    }

    /** A rejected sample changes nothing; an accepted one always updates the pause flag. */
    method ObserveSample(sample: Sample, now: int) returns (accepted: bool)
      requires Valid()
      modifies this, store`limits
      ensures Valid() && accepted == Acceptable(sample)
      ensures !accepted ==> State() == old(State()) && paused == old(paused)
      ensures accepted ==> State() == Observe(policy, old(State()), Classify(sample), now)
      ensures accepted ==> paused == Pauses(sample) && pressure == sample.pressure
      ensures forall r :: r in old(store.limits) && r != resource ==>
                r in store.limits && store.limits[r] == old(store.limits)[r]
      ensures accepted <==> sample.queue >= 0 && (sample.LeanSample? ==> 0.0 <= sample.cpu <= 100.0)
      ensures accepted ==>
                (paused <==> || sample.pressure == "red" || sample.pressure == "emergency"
                             || (sample.BuildSample? && sample.pressure == "yellow"))
      ensures store.limits[resource] > old(store.limits)[resource]
                && policy.minimum <= old(store.limits)[resource] <= policy.maximum ==>
                accepted && !policy.fixed && AsksMore(sample) && store.limits[resource] == old(store.limits)[resource] + 1
      ensures store.limits[resource] < old(store.limits)[resource]
                && policy.minimum <= old(store.limits)[resource] <= policy.maximum ==>
                && accepted && !policy.fixed
                && if sample.pressure == "emergency" then store.limits[resource] == policy.minimum
                   else AsksLess(sample) && store.limits[resource] == old(store.limits)[resource] - 1
      ensures accepted && !policy.fixed && sample.pressure == "emergency" ==> store.limits[resource] == policy.minimum
      ensures accepted && !policy.fixed ==>
                && (grown == 0 || (AsksMore(sample) && grown == old(grown) + 1))
                && (shrunk == 0 || (AsksLess(sample) && shrunk == old(shrunk) + 1))
    {
      ClassMeans(sample);
      if !Acceptable(sample) {
        return false;
      }
      accepted := true;
      pressure, paused := sample.pressure, Pauses(sample);
      if policy.fixed {
        return;
      }
      var current: int := store.limits[resource];
      match Classify(sample) {
        case Emergency =>
          ResizeTo(policy.minimum, now);
        case Shrink =>
          shrunk, grown := shrunk + 1, 0;
          if shrunk >= policy.hysteresis && (lastResize.None? || now - lastResize.value >= policy.interval) {
            ResizeTo(current - 1, now);
          }
        case Grow =>
          grown, shrunk := grown + 1, 0;
          if grown >= policy.hysteresis && (lastResize.None? || now - lastResize.value >= policy.interval) {
            ResizeTo(current + 1, now);
          }
        case Hold =>
          grown, shrunk := 0, 0;
      }
    }
  }
}
