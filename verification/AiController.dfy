/**
 The adaptive AI controller of `concurrency/ai.py` on top of the admission store: additive
 growth after stable successes, multiplicative shrinkage and a backoff window on throttles.
 `adaptive` is the decoded controller_state row that all processes share.
 */
module AiController {
  import opened Admission
  import opened Options

  const BACKOFF_SECONDS: seq<int> := [30, 60, 120, 240, 300]

  /** The multiplier is `num/den`; bounds and timing are what the constructor accepts. */
  datatype Policy = Policy(minimum: nat, ceiling: nat, fixed: bool, threshold: nat, cooldown: int, num: nat, den: nat)

  ghost predicate ValidPolicy(p: Policy) {
    1 <= p.minimum <= p.ceiling && p.threshold >= 1 && p.cooldown >= 0 && 0 < p.num < p.den
  }

  datatype Adaptive = Adaptive(backoffUntil: int, stage: nat, throttles: nat, transient: nat, stable: nat,
                               lastIncrease: Option<int>)

  /** The database and the controller's shared state. */
  datatype Sys = Sys(db: Db, a: Adaptive)

  function Stage(a: Adaptive): nat {
    if a.stage < |BACKOFF_SECONDS| then a.stage else |BACKOFF_SECONDS| - 1
  }

  function NextStage(a: Adaptive): nat {
    if Stage(a) + 1 < |BACKOFF_SECONDS| then Stage(a) + 1 else |BACKOFF_SECONDS| - 1
  }

  function WithLimit(sys: Sys, limit: int): Sys {
    sys.(db := SetLimit(sys.db, AI, limit))
  }

  function CooldownReady(p: Policy, a: Adaptive, now: int): bool {
    a.lastIncrease.None? || now - a.lastIncrease.value >= p.cooldown
  }

  predicate IncreaseDue(p: Policy, sys: Sys, now: int, queued: bool) {
    && !p.fixed
    && now >= sys.a.backoffUntil
    && queued
    && sys.a.stable + 1 >= p.threshold
    && Limit(sys.db, AI) < p.ceiling
    && CooldownReady(p, sys.a, now)
  }

  function RecordSuccess(p: Policy, sys: Sys, now: int, queued: bool): Sys {
    var calm := if now >= sys.a.backoffUntil then sys.a.(backoffUntil := 0, transient := 0) else sys.a;
    if IncreaseDue(p, sys, now, queued) then
      WithLimit(sys.(a := calm.(stable := 0, lastIncrease := Some(now), stage := 0)), Limit(sys.db, AI) + 1)
    else
      sys.(a := calm.(stable := sys.a.stable + 1))
  }

  function ThrottledLimit(p: Policy, limit: nat): nat
    requires p.den > 0
  {
    Max(p.minimum, limit * p.num / p.den)
  }

  /** `delay` is the server's Retry-After if there is one, else the jittered backoff stage. */
  function Delay(a: Adaptive, retryAfter: Option<int>, jitter: int -> int): int {
    match retryAfter
    case Some(seconds) => Max(0, seconds)
    case None => jitter(BACKOFF_SECONDS[Stage(a)])
  }

  function RecordThrottle(p: Policy, sys: Sys, now: int, delay: int): Sys
    requires p.den > 0
  {
    var a := sys.a.(stable := 0, backoffUntil := Max(sys.a.backoffUntil, now + delay),
                    stage := NextStage(sys.a), throttles := sys.a.throttles + 1);
    if p.fixed then sys.(a := a) else WithLimit(sys.(a := a), ThrottledLimit(p, Limit(sys.db, AI)))
  }

  function RecordTransient(p: Policy, sys: Sys, now: int, delay: int): Sys {
    var a := sys.a.(stable := 0, transient := sys.a.transient + 1, stage := NextStage(sys.a),
                    backoffUntil := Max(sys.a.backoffUntil, now + delay));
    if p.fixed || a.transient < 2 then sys.(a := a)
    else WithLimit(sys.(a := a), Max(p.minimum, Limit(sys.db, AI) - 1))
  }

  // ---- Runs ----

  /**
   What any process may do next.  `try_acquire` is two transactions, a Gate that reads the
   backoff and a Poll of the store that only follows a passed gate.
   */
  datatype Event =
    | Success(now: int, queued: bool)
    | Throttle(now: int, delay: int)
    | Transient(now: int, delay: int)
    | Gate(now: int, process: string)
    | Poll(now: int, process: string, req: Request)
    | Other(op: Op)

  datatype Window = Window(from: int, until: int)

  /**
   A history: the state, the latest clock reading, the recorded backoff windows, the passed
   gates (time, and how many windows were recorded by then), and two counters.
   */
  datatype World = World(sys: Sys, clock: int, windows: seq<Window>, passed: map<string, (int, nat)>,
                         successes: nat, increases: nat)

  /** Store operations of other resources, and lease upkeep: nothing that touches AI admission. */
  predicate Elsewhere(op: Op) {
    match op
    case EnsureLimitOp(r, _) => r != AI
    case SetLimitOp(r, _) => r != AI
    case SyncLimitsOp(_, _, ls) => AI !in ls
    case TryAcquireOp(_, req) => req.resource != AI
    case _ => true
  }

  ghost predicate Timely(w: World, e: Event) {
    match e
    case Success(now, _) => now >= w.clock
    case Throttle(now, delay) => now >= w.clock && delay >= 0
    case Transient(now, delay) => now >= w.clock && delay >= 0
    case Gate(now, _) => now >= w.clock
    case Poll(now, process, req) => now >= w.clock && process in w.passed && req.resource == AI
    case Other(op) => Elsewhere(op)
  }

  ghost function Next(p: Policy, w: World, e: Event): World
    requires p.den > 0 && Timely(w, e)
  {
    match e
    case Success(now, queued) =>
      w.(sys := RecordSuccess(p, w.sys, now, queued), clock := now, successes := w.successes + 1,
         increases := w.increases + if IncreaseDue(p, w.sys, now, queued) then 1 else 0)
    case Throttle(now, delay) =>
      w.(sys := RecordThrottle(p, w.sys, now, delay), clock := now, windows := w.windows + [Window(now, now + delay)])
    case Transient(now, delay) =>
      w.(sys := RecordTransient(p, w.sys, now, delay), clock := now, windows := w.windows + [Window(now, now + delay)])
    case Gate(now, process) =>
      w.(clock := now,
         passed := if now < w.sys.a.backoffUntil then w.passed - {process}
                   else w.passed[process := (now, |w.windows|)])
    case Poll(now, process, req) =>
      w.(sys := w.sys.(db := TryAcquire(w.sys.db, now, req).0), clock := now, passed := w.passed - {process})
    case Other(op) =>
      w.(sys := w.sys.(db := Step(w.sys.db, op)))
  }

  ghost predicate TimelyRun(p: Policy, w: World, events: seq<Event>)
    requires p.den > 0
    decreases |events|
  {
    events == [] || (Timely(w, events[0]) && TimelyRun(p, Next(p, w, events[0]), events[1..]))
  }

  ghost function After(p: Policy, w: World, events: seq<Event>): World
    requires p.den > 0 && TimelyRun(p, w, events)
    decreases |events|
  {
    if events == [] then w else After(p, Next(p, w, events[0]), events[1..])
  }

  ghost predicate InBounds(p: Policy, w: World) {
    AI in w.sys.db.limits && p.minimum <= w.sys.db.limits[AI] <= p.ceiling
  }

  /** Each increase used up `threshold` successes since the last one. */
  ghost predicate GrowthPaid(p: Policy, w: World) {
    w.increases * p.threshold + w.sys.a.stable <= w.successes
  }

  /** Every recorded window has begun, and has ended or is still covered by the stored backoff. */
  ghost predicate WindowsCovered(w: World) {
    && (forall i :: 0 <= i < |w.windows| ==> w.windows[i].from <= w.clock)
    && (forall i :: 0 <= i < |w.windows| ==>
          w.windows[i].until <= w.clock || w.windows[i].until <= w.sys.a.backoffUntil)
    && (forall q :: q in w.passed ==>
          && w.passed[q].0 <= w.clock && w.passed[q].1 <= |w.windows|
          && forall i :: 0 <= i < w.passed[q].1 ==> w.windows[i].until <= w.passed[q].0)
  }

  lemma NextInBounds(p: Policy, w: World, e: Event)
    requires ValidPolicy(p) && Timely(w, e) && InBounds(p, w)
    ensures InBounds(p, Next(p, w, e))
  {
    match e
    case Throttle(now, delay) => ThrottleInBounds(p, w.sys, now, delay);
    case Poll(now, _, req) => TryAcquireKeepsLimits(w.sys.db, now, req);
    case Other(op) => ElsewhereKeepsLimit(w.sys.db, op);
    case _ =>
  }

  lemma ThrottleInBounds(p: Policy, sys: Sys, now: int, delay: int)
    requires ValidPolicy(p) && AI in sys.db.limits && p.minimum <= sys.db.limits[AI] <= p.ceiling
    ensures AI in RecordThrottle(p, sys, now, delay).db.limits
    ensures p.minimum <= RecordThrottle(p, sys, now, delay).db.limits[AI] <= p.ceiling
  {
    ThrottleShrinks(p, sys.db.limits[AI]);
  }

  lemma ElsewhereKeepsLimit(db: Db, op: Op)
    requires Elsewhere(op)
    ensures AI in db.limits ==> AI in Step(db, op).limits && Step(db, op).limits[AI] == db.limits[AI]
  {
    if op.TryAcquireOp? {
      TryAcquireKeepsLimits(db, op.now, op.req);
    }
  }

  lemma ThrottleShrinks(p: Policy, limit: nat)
    requires ValidPolicy(p) && limit >= p.minimum
    ensures p.minimum <= ThrottledLimit(p, limit) <= limit
  {
    MulMonotone(limit, p.num, p.den);
    QuotientAtMost(limit * p.num, limit, p.den);
  }

  lemma MulMonotone(a: nat, b: nat, c: nat)
    requires b <= c
    ensures a * b <= a * c
  {
  }

  lemma QuotientAtMost(x: nat, y: nat, d: nat)
    requires d >= 1 && x <= y * d
    ensures x / d <= y
  {
    MulOrder(y, x / d, d);
  }

  lemma NextPaid(p: Policy, w: World, e: Event)
    requires ValidPolicy(p) && Timely(w, e) && GrowthPaid(p, w)
    ensures GrowthPaid(p, Next(p, w, e))
  {
    if e.Success? && IncreaseDue(p, w.sys, e.now, e.queued) {
      assert (w.increases + 1) * p.threshold == w.increases * p.threshold + p.threshold;
    }
  }

  lemma NextCovered(p: Policy, w: World, e: Event)
    requires ValidPolicy(p) && Timely(w, e) && WindowsCovered(w)
    ensures WindowsCovered(Next(p, w, e))
  {
  }

  /** With fixed bounds the AI limit never leaves them. */
  lemma {:induction false} LimitStaysInBounds(p: Policy, w: World, events: seq<Event>)
    requires ValidPolicy(p) && TimelyRun(p, w, events) && InBounds(p, w)
    ensures InBounds(p, After(p, w, events))
    decreases |events|
  {
    if events == [] {
    } else {
      NextInBounds(p, w, events[0]);
      LimitStaysInBounds(p, Next(p, w, events[0]), events[1..]);
    }
  }

  /** Additive increases are at most the successes divided by the threshold. */
  lemma {:induction false} IncreasesArePaidFor(p: Policy, w: World, events: seq<Event>)
    requires ValidPolicy(p) && TimelyRun(p, w, events) && GrowthPaid(p, w)
    ensures var end := After(p, w, events);
            end.increases <= end.successes / p.threshold
    ensures GrowthPaid(p, After(p, w, events))
    decreases |events|
  {
    if events != [] {
      NextPaid(p, w, events[0]);
      IncreasesArePaidFor(p, Next(p, w, events[0]), events[1..]);
    } else {
      QuotientBound(w.increases, p.threshold, w.successes);
    }
  }

  lemma QuotientBound(a: nat, b: nat, c: nat)
    requires b >= 1 && a * b <= c
    ensures a <= c / b
  {
    MulOrder(c / b, a, b);
  }

  lemma MulOrder(a: nat, b: nat, d: nat)
    ensures a < b ==> (a + 1) * d <= b * d
  {
  }

  lemma {:induction false} RunKeepsCovered(p: Policy, w: World, events: seq<Event>)
    requires ValidPolicy(p) && TimelyRun(p, w, events) && WindowsCovered(w)
    ensures WindowsCovered(After(p, w, events))
    decreases |events|
  {
    if events == [] {
    } else {
      NextCovered(p, w, events[0]);
      RunKeepsCovered(p, Next(p, w, events[0]), events[1..]);
    }
  }

  /**
   A poll that follows its gate is never inside a window recorded before that gate.  When no
   throttle came in between, that is every window there is.
   */
  lemma NoLeaseInsideBackoff(p: Policy, w: World, events: seq<Event>, poll: Event, i: nat)
    requires ValidPolicy(p) && WindowsCovered(w) && TimelyRun(p, w, events)
    requires poll.Poll? && Timely(After(p, w, events), poll)
    requires i < After(p, w, events).passed[poll.process].1
    requires i < |After(p, w, events).windows|
    ensures After(p, w, events).windows[i].until <= poll.now
  {
    RunKeepsCovered(p, w, events);
  }

  predicate InsideWindow(v: Window, now: int) {
    v.from <= now < v.until
  }

  /** A poll falls inside a backoff exactly when a window recorded after its gate has not ended. */
  lemma LeaseInsideBackoffExactly(p: Policy, w: World, events: seq<Event>, poll: Event)
    requires ValidPolicy(p) && WindowsCovered(w) && TimelyRun(p, w, events)
    requires poll.Poll? && Timely(After(p, w, events), poll)
    ensures
      var end := After(p, w, events);
      (exists i :: 0 <= i < |end.windows| && InsideWindow(end.windows[i], poll.now)) <==>
      (exists i :: end.passed[poll.process].1 <= i < |end.windows| && end.windows[i].until > poll.now)
  {
    var end := After(p, w, events);
    RunKeepsCovered(p, w, events);
    forall i | 0 <= i < end.passed[poll.process].1 && i < |end.windows| ensures end.windows[i].until <= poll.now {
      NoLeaseInsideBackoff(p, w, events, poll, i);
    }
    if i :| end.passed[poll.process].1 <= i < |end.windows| && end.windows[i].until > poll.now {
      assert InsideWindow(end.windows[i], poll.now);
    }
  }

  /** A window recorded between a gate and its poll is not honoured. */
  lemma LateWindowIsMissed(db: Db, a: Adaptive, p: Policy, req: Request)
    requires ValidPolicy(p) && req.resource == AI && req.ttl > 0 && a.backoffUntil <= 0
    requires Inv(db) && db.leases == map[] && db.waiters == map[]
    requires AI in db.limits && db.limits[AI] >= 1 && p.fixed
    ensures var w := World(Sys(db, a), 0, [], map[], 0, 0);
            var events := [Gate(0, "p"), Throttle(1, 30)];
            && TimelyRun(p, w, events) && WindowsCovered(w)
            && Timely(After(p, w, events), Poll(2, "p", req))
            && TryAcquire(After(p, w, events).sys.db, 2, req).1.Granted?
            && After(p, w, events).windows == [Window(1, 31)]
  {
    var w := World(Sys(db, a), 0, [], map[], 0, 0);
    var one := Next(p, w, Gate(0, "p"));
    var two := Next(p, one, Throttle(1, 30));
    assert [Gate(0, "p"), Throttle(1, 30)][1..] == [Throttle(1, 30)];
    assert TimelyRun(p, one, [Throttle(1, 30)]) && After(p, one, [Throttle(1, 30)]) == two;
    assert Prune(db, 2) == db;
    var queued := Enqueue(db, 2, req);
    assert Earlier(queued, req.Slot()) == {};
    assert ActiveIds(queued, AI) == {};
  }

  // ---- Repeated throttles ----

  function Power2(k: nat): (r: nat)
    ensures r >= 1
  {
    if k == 0 then 1 else 2 * Power2(k - 1)
  }

  ghost function Throttles(p: Policy, sys: Sys, delays: seq<(int, int)>): Sys
    requires p.den > 0
    decreases |delays|
  {
    if delays == [] then sys
    else
      var k := |delays| - 1;
      RecordThrottle(p, Throttles(p, sys, delays[..k]), delays[k].0, delays[k].1)
  }

  lemma HalveTwice(x: nat, m: nat)
    requires m >= 1
    ensures x / m / 2 == x / (2 * m)
  {
    var q := x / m;
    var h := q / 2;
    assert x == q * m + x % m && q == 2 * h + q % 2;
    assert x == h * (2 * m) + ((q % 2) * m + x % m);
    assert 0 <= (q % 2) * m + x % m < 2 * m;
    QuotientIs(x, 2 * m, h, (q % 2) * m + x % m);
  }

  lemma QuotientIs(x: nat, d: nat, h: nat, r: nat)
    requires d >= 1 && x == h * d + r && r < d
    ensures x / d == h
  {
    MulOrder(x / d, h, d);
    MulOrder(h, x / d, d);
  }

  /** `k` throttles at one half leave exactly the floored `limit / 2^k`, or the minimum. */
  lemma {:induction false} ThrottlesHalve(p: Policy, sys: Sys, delays: seq<(int, int)>)
    requires ValidPolicy(p) && !p.fixed && p.num == 1 && p.den == 2
    requires AI in sys.db.limits && sys.db.limits[AI] >= p.minimum
    ensures AI in Throttles(p, sys, delays).db.limits
    ensures Throttles(p, sys, delays).db.limits[AI] == Max(p.minimum, sys.db.limits[AI] / Power2(|delays|))
  {
    if delays == [] {
    } else {
      var k := |delays| - 1;
      ThrottlesHalve(p, sys, delays[..k]);
      HalveTwice(sys.db.limits[AI], Power2(k));
    }
  }

  /** Throttles climb the backoff ladder one stage at a time, and the backoff covers every one of them. */
  lemma {:induction false} BackoffEscalates(p: Policy, sys: Sys, delays: seq<(int, int)>)
    requires p.den > 0
    ensures
      var a, climbed := Throttles(p, sys, delays).a, Stage(sys.a) + |delays|;
      && Stage(a) == (if climbed < |BACKOFF_SECONDS| then climbed else |BACKOFF_SECONDS| - 1)
      && a.backoffUntil >= sys.a.backoffUntil
      && forall i :: 0 <= i < |delays| ==> a.backoffUntil >= delays[i].0 + delays[i].1
  {
    if delays == [] {
    } else {
      BackoffEscalates(p, sys, delays[..|delays| - 1]);
    }
  }

  // ---- Repeated transient failures ----

  ghost function Transients(p: Policy, sys: Sys, delays: seq<(int, int)>): Sys
    decreases |delays|
  {
    if delays == [] then sys
    else
      var k := |delays| - 1;
      RecordTransient(p, Transients(p, sys, delays[..k]), delays[k].0, delays[k].1)
  }

  /** Of `k` failures in a row that follow `before` others, the first of all costs nothing. */
  function StepsDown(before: nat, k: nat): nat {
    if before == 0 && k > 0 then k - 1 else k
  }

  /** Every transient failure but the first in a row takes one slot, down to the minimum; none changes a fixed limit. */
  lemma {:induction false} TransientsStepDown(p: Policy, sys: Sys, delays: seq<(int, int)>)
    requires ValidPolicy(p) && AI in sys.db.limits && sys.db.limits[AI] >= p.minimum
    ensures var after := Transients(p, sys, delays);
            var lower := sys.db.limits[AI] - StepsDown(sys.a.transient, |delays|);
            && AI in after.db.limits && after.a.transient == sys.a.transient + |delays|
            && after.db.limits[AI] as int ==
               if p.fixed then sys.db.limits[AI] else if lower > p.minimum then lower else p.minimum
  {
    if delays == [] {
    } else {
      TransientsStepDown(p, sys, delays[..|delays| - 1]);
    }
  }

  // ---- What each call leaves, written out ----

  /** The waits grow from half a minute to five minutes. */
  function Ladder(stage: nat): int {
    if stage == 0 then 30 else if stage == 1 then 60 else if stage == 2 then 120 else if stage == 3 then 240 else 300
  }

  function OneUp(stage: nat): nat {
    if stage < 4 then stage + 1 else 4
  }

  ghost predicate MayRaise(p: Policy, a: Adaptive, limit: nat, now: int, queued: bool) {
    && !p.fixed && queued && now >= a.backoffUntil && a.stable + 1 >= p.threshold && limit < p.ceiling
    && (a.lastIncrease.Some? ==> now - a.lastIncrease.value >= p.cooldown)
  }

  class AIAdmissionController {
    const store: AdmissionStore
    const policy: Policy
    const jitter: int -> int
    var adaptive: Adaptive

    ghost predicate Valid()
      reads this, store
    {
      ValidPolicy(policy) && Inv(store.Tables()) && AI in store.limits
    }

    ghost function State(): Sys
      reads this, store
    {
      Sys(store.Tables(), adaptive)
    }

    constructor (store: AdmissionStore, policy: Policy, initial: nat, jitter: int -> int)
      requires ValidPolicy(policy) && policy.minimum <= initial <= policy.ceiling
      requires Inv(store.Tables())
      modifies store
      ensures Valid() && this.store == store && this.policy == policy && this.jitter == jitter
      ensures store.Tables() == EnsureLimit(old(store.Tables()), AI, initial)
      ensures adaptive == Adaptive(0, 0, 0, 0, 0, None)
    {
      this.store, this.policy, this.jitter := store, policy, jitter;
      adaptive := Adaptive(0, 0, 0, 0, 0, None);
      new;
      var _ := store.PublishIfAbsent(AI, initial);
    }

    /** None is a refusal by the backoff gate; the store is not even asked. */
    method TryAcquireLease(now: int, req: Request) returns (outcome: Option<Outcome>)
      requires Valid() && req.resource == AI
      modifies store
      ensures Valid()
      ensures outcome.None? <==> now < adaptive.backoffUntil
      ensures outcome.None? ==> store.Tables() == old(store.Tables())
      ensures outcome.Some? ==>
                (store.Tables(), outcome.value) == TryAcquire(old(store.Tables()), now, req)
    {
      if now < adaptive.backoffUntil {
        return None;
      }
      ghost var before := store.Tables();
      var answer := store.Poll(now, req);
      TryAcquireKeepsLimits(before, now, req);
      outcome := Some(answer);
    }

    method OnSuccess(now: int, queued: bool) returns (limit: nat)
      requires Valid()
      modifies this`adaptive, store
      ensures Valid() && State() == RecordSuccess(policy, old(State()), now, queued)
      ensures limit == store.limits[AI]
      ensures var raised := MayRaise(policy, old(adaptive), old(store.limits)[AI], now, queued);
              && store.limits == old(store.limits)[AI := old(store.limits)[AI] + if raised then 1 else 0]
              && adaptive.stable == (if raised then 0 else old(adaptive).stable + 1)
              && adaptive.lastIncrease == (if raised then Some(now) else old(adaptive).lastIncrease)
              && adaptive.stage == (if raised then 0 else old(adaptive).stage)
      ensures var calm := now >= old(adaptive).backoffUntil;
              && adaptive.backoffUntil == (if calm then 0 else old(adaptive).backoffUntil)
              && adaptive.transient == (if calm then 0 else old(adaptive).transient)
              && adaptive.throttles == old(adaptive).throttles
      ensures store.Tables() == old(store.Tables()).(limits := store.limits)
    {
      var stable := adaptive.stable + 1;
      var until := adaptive.backoffUntil;
      var ready := adaptive.lastIncrease.None? || now - adaptive.lastIncrease.value >= policy.cooldown;
      if now >= until {
        adaptive := adaptive.(backoffUntil := 0, transient := 0);
      }
      var due := !policy.fixed && now >= until && queued && stable >= policy.threshold
                 && store.limits[AI] < policy.ceiling && ready;
      if due {
        stable := 0;
        adaptive := adaptive.(lastIncrease := Some(now), stage := 0);
      }
      adaptive := adaptive.(stable := stable);
      if due && store.limits[AI] < policy.ceiling {
        var _ := store.Publish(AI, store.limits[AI] + 1);
      }
      limit := store.limits[AI];
    }

    method OnThrottle(now: int, retryAfter: Option<int>) returns (delay: int)
      requires Valid()
      modifies this`adaptive, store
      ensures Valid() && delay == Delay(old(adaptive), retryAfter, jitter)
      ensures State() == RecordThrottle(policy, old(State()), now, delay)
      ensures delay == match retryAfter
                       case Some(seconds) => if seconds > 0 then seconds else 0
                       case None => jitter(Ladder(old(adaptive).stage))
      ensures adaptive == Adaptive(
                if old(adaptive).backoffUntil > now + delay then old(adaptive).backoffUntil else now + delay,
                OneUp(old(adaptive).stage), old(adaptive).throttles + 1, old(adaptive).transient, 0,
                old(adaptive).lastIncrease)
      ensures var cut := old(store.limits)[AI] * policy.num / policy.den;
              store.limits == old(store.limits)[AI := if policy.fixed then old(store.limits)[AI]
                                                      else if cut > policy.minimum then cut else policy.minimum]
      ensures store.Tables() == old(store.Tables()).(limits := store.limits)
    {
      var stage := if adaptive.stage < |BACKOFF_SECONDS| then adaptive.stage else |BACKOFF_SECONDS| - 1;
      match retryAfter {
        case Some(seconds) => delay := Max(0, seconds);
        case None => delay := jitter(BACKOFF_SECONDS[stage]);
      }
      adaptive := adaptive.(
        stable := 0,
        backoffUntil := Max(adaptive.backoffUntil, now + delay),
        stage := if stage + 1 < |BACKOFF_SECONDS| then stage + 1 else |BACKOFF_SECONDS| - 1,
        throttles := adaptive.throttles + 1);
      if !policy.fixed {
        var _ := store.Publish(AI, Max(policy.minimum, store.limits[AI] * policy.num / policy.den));
      }
    }

    method OnTransientFailure(now: int) returns (delay: int)
      requires Valid()
      modifies this`adaptive, store
      ensures Valid() && delay == Delay(old(adaptive), None, jitter)
      ensures State() == RecordTransient(policy, old(State()), now, delay)
      ensures delay == jitter(Ladder(old(adaptive).stage))
      ensures adaptive == Adaptive(
                if old(adaptive).backoffUntil > now + delay then old(adaptive).backoffUntil else now + delay,
                OneUp(old(adaptive).stage), old(adaptive).throttles, old(adaptive).transient + 1, 0,
                old(adaptive).lastIncrease)
      ensures var limit := old(store.limits)[AI];
              store.limits == old(store.limits)[AI := if policy.fixed || old(adaptive).transient == 0 then limit
                                                      else if limit > policy.minimum then limit - 1 else policy.minimum]
      ensures store.Tables() == old(store.Tables()).(limits := store.limits)
    {
      var failures := adaptive.transient + 1;
      var stage := if adaptive.stage < |BACKOFF_SECONDS| then adaptive.stage else |BACKOFF_SECONDS| - 1;
      delay := jitter(BACKOFF_SECONDS[stage]);
      adaptive := adaptive.(
        stable := 0,
        transient := failures,
        stage := if stage + 1 < |BACKOFF_SECONDS| then stage + 1 else |BACKOFF_SECONDS| - 1,
        backoffUntil := Max(adaptive.backoffUntil, now + delay));
      if !policy.fixed && failures >= 2 {
        var current: int := store.limits[AI];
        var _ := store.Publish(AI, Max(policy.minimum, current - 1));
      }
    }
  }

  lemma TryAcquireKeepsLimits(db: Db, now: int, req: Request)
    ensures TryAcquire(db, now, req).0.limits == db.limits
  {
  }
}
