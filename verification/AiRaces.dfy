/**
 The adaptive AI controller as several processes really run it: `record_success`,
 `record_throttle` and `record_transient_failure` change the shared state in one transaction and
 then read and write the limit in transactions of their own.
 */
module AiRaces {
  import opened Admission
  import opened AiController
  import opened Options

  /** Where a call stands after its state transaction; `seen` is the limit it has read. */
  datatype Pc =
    | Idle
    | Due
    | Checked
    | Raise(seen: nat)
    | Throttled
    | Cut(seen: nat)
    | Failed
    | Ease(seen: nat)

  datatype World = World(sys: Sys, pcs: map<string, Pc>)

  datatype Event =
    | BeginSuccess(process: string, now: int, queued: bool)
    | BeginThrottle(process: string, now: int, delay: int)
    | BeginTransient(process: string, now: int, delay: int)
    | Go(process: string)

  function At(w: World, process: string): Pc {
    if process in w.pcs then w.pcs[process] else Idle
  }

  predicate Enabled(w: World, e: Event) {
    e.Go? <==> At(w, e.process) != Idle
  }

  function Goes(w: World, process: string, pc: Pc): World {
    w.(pcs := w.pcs[process := pc])
  }

  function Writes(w: World, process: string, limit: int): World {
    Goes(w.(sys := WithLimit(w.sys, limit)), process, Idle)
  }

  /** The state transaction of a call leaves the limit alone. */
  function Begin(w: World, process: string, after: Sys, pc: Pc): World {
    Goes(w.(sys := w.sys.(a := after.a)), process, pc)
  }

  function Continue(p: Policy, w: World, process: string): World
    requires p.den > 0
  {
    var limit := Limit(w.sys.db, AI);
    match At(w, process)
    case Idle => w
    case Due => Goes(w, process, if limit < p.ceiling then Checked else Idle)
    case Checked => Goes(w, process, Raise(limit))
    case Raise(seen) => Writes(w, process, seen + 1)
    case Throttled => Goes(w, process, Cut(limit))
    case Cut(seen) => Writes(w, process, ThrottledLimit(p, seen))
    case Failed => Goes(w, process, Ease(limit))
    case Ease(seen) => Writes(w, process, Max(p.minimum, seen - 1))
  }

  function Next(p: Policy, w: World, e: Event): World
    requires p.den > 0
  {
    match e
    case BeginSuccess(q, now, queued) =>
      Begin(w, q, RecordSuccess(p, w.sys, now, queued), if IncreaseDue(p, w.sys, now, queued) then Due else Idle)
    case BeginThrottle(q, now, delay) =>
      Begin(w, q, RecordThrottle(p, w.sys, now, delay), if p.fixed then Idle else Throttled)
    case BeginTransient(q, now, delay) =>
      var after := RecordTransient(p, w.sys, now, delay);
      Begin(w, q, after, if p.fixed || after.a.transient < 2 then Idle else Failed)
    case Go(q) => Continue(p, w, q)
  }

  ghost predicate Run(p: Policy, w: World, events: seq<Event>)
    requires p.den > 0
    decreases |events|
  {
    events == [] || (Enabled(w, events[0]) && Run(p, Next(p, w, events[0]), events[1..]))
  }

  function After(p: Policy, w: World, events: seq<Event>): World
    requires p.den > 0
    decreases |events|
  {
    if events == [] then w else After(p, Next(p, w, events[0]), events[1..])
  }

  // ---- The minimum holds in every interleaving ----

  predicate SeenAtLeast(pc: Pc, n: nat) {
    pc.Raise? || pc.Cut? || pc.Ease? ==> pc.seen >= n
  }

  ghost predicate AboveMinimum(p: Policy, w: World) {
    && AI in w.sys.db.limits && w.sys.db.limits[AI] >= p.minimum
    && forall q :: q in w.pcs ==> SeenAtLeast(w.pcs[q], p.minimum)
  }

  lemma NextAboveMinimum(p: Policy, w: World, e: Event)
    requires ValidPolicy(p) && AboveMinimum(p, w) && Enabled(w, e)
    ensures AboveMinimum(p, Next(p, w, e))
  {
  }

  lemma {:induction false} MinimumHolds(p: Policy, w: World, events: seq<Event>)
    requires ValidPolicy(p) && AboveMinimum(p, w) && Run(p, w, events)
    ensures AboveMinimum(p, After(p, w, events))
    decreases |events|
  {
    if events == [] {
    } else {
      NextAboveMinimum(p, w, events[0]);
      MinimumHolds(p, Next(p, w, events[0]), events[1..]);
    }
  }

  // ---- The ceiling holds exactly when no increase is computed from a full limit ----

  /** No value read so far will be written above the ceiling. */
  predicate SeenWithin(pc: Pc, ceiling: nat) {
    match pc
    case Raise(seen) => seen < ceiling
    case Cut(seen) => seen <= ceiling
    case Ease(seen) => seen <= ceiling
    case _ => true
  }

  ghost predicate Within(p: Policy, w: World) {
    && AI in w.sys.db.limits && w.sys.db.limits[AI] <= p.ceiling
    && forall q :: q in w.pcs ==> SeenWithin(w.pcs[q], p.ceiling)
  }

  ghost predicate NobodyBusy(w: World) {
    forall q :: q in w.pcs ==> w.pcs[q] == Idle
  }

  /** The second reading of `record_success` finds the limit at the ceiling already. */
  predicate LateRead(p: Policy, w: World, e: Event) {
    e.Go? && At(w, e.process).Checked? && Limit(w.sys.db, AI) >= p.ceiling
  }

  ghost predicate NoLateRead(p: Policy, w: World, events: seq<Event>)
    requires p.den > 0
    decreases |events|
  {
    events == [] || (!LateRead(p, w, events[0]) && NoLateRead(p, Next(p, w, events[0]), events[1..]))
  }

  /** The ceiling holds in every state of the run. */
  ghost predicate CeilingThroughout(p: Policy, w: World, events: seq<Event>)
    requires p.den > 0
    decreases |events|
  {
    && Limit(w.sys.db, AI) <= p.ceiling
    && (events == [] || CeilingThroughout(p, Next(p, w, events[0]), events[1..]))
  }

  /** A throttle or a failure writes less than the ceiling, unless the bounds coincide. */
  lemma LoweringStaysBelow(p: Policy, seen: nat)
    requires ValidPolicy(p) && seen <= p.ceiling
    ensures ThrottledLimit(p, seen) <= p.ceiling && Max(p.minimum, seen - 1) <= p.ceiling
    ensures p.minimum < p.ceiling ==> ThrottledLimit(p, seen) < p.ceiling && Max(p.minimum, seen - 1) < p.ceiling
  {
    if seen > 0 {
      assert seen * p.num < seen * p.den by {
        MulStrict(seen, p.num, p.den);
      }
      QuotientBelow(seen * p.num, seen, p.den);
    }
  }

  lemma MulStrict(a: nat, b: nat, c: nat)
    requires a > 0 && b < c
    ensures a * b < a * c
  {
  }

  lemma MulWeak(a: nat, b: nat, d: nat)
    ensures a <= b ==> a * d <= b * d
  {
  }

  lemma QuotientBelow(x: nat, y: nat, d: nat)
    requires d >= 1 && x < y * d
    ensures x / d < y
  {
    MulWeak(y, x / d, d);
    assert x / d * d <= x;
  }

  lemma NextWithin(p: Policy, w: World, e: Event)
    requires ValidPolicy(p) && Within(p, w) && Enabled(w, e) && !LateRead(p, w, e)
    ensures Within(p, Next(p, w, e))
  {
    if e.Go? {
      var pc := At(w, e.process);
      if pc.Cut? || pc.Ease? {
        LoweringStaysBelow(p, pc.seen);
      }
    }
  }

  lemma {:induction false} NoLateReadKeepsCeiling(p: Policy, w: World, events: seq<Event>)
    requires ValidPolicy(p) && Within(p, w) && Run(p, w, events) && NoLateRead(p, w, events)
    ensures CeilingThroughout(p, w, events)
    decreases |events|
  {
    if events == [] {
    } else {
      NextWithin(p, w, events[0]);
      NoLateReadKeepsCeiling(p, Next(p, w, events[0]), events[1..]);
    }
  }

  /** An increase computed from a full limit is written sooner or later. */
  lemma {:induction false} FullReadBreaksCeiling(p: Policy, w: World, events: seq<Event>, q: string)
    requires ValidPolicy(p) && AI in w.sys.db.limits && Run(p, w, events)
    requires At(w, q).Raise? && At(w, q).seen >= p.ceiling && NobodyBusy(After(p, w, events))
    ensures !CeilingThroughout(p, w, events)
    decreases |events|
  {
    if events == [] {
    } else {
      var next := Next(p, w, events[0]);
      NextHasLimit(p, w, events[0]);
      if events[0] == Go(q) {
        assert Limit(next.sys.db, AI) > p.ceiling;
      } else {
        FullReadBreaksCeiling(p, next, events[1..], q);
      }
    }
  }

  lemma NextHasLimit(p: Policy, w: World, e: Event)
    requires ValidPolicy(p) && AI in w.sys.db.limits && Enabled(w, e)
    ensures AI in Next(p, w, e).sys.db.limits
  {
  }

  lemma {:induction false} CeilingMeansNoLateRead(p: Policy, w: World, events: seq<Event>)
    requires ValidPolicy(p) && AI in w.sys.db.limits && Run(p, w, events)
    requires CeilingThroughout(p, w, events) && NobodyBusy(After(p, w, events))
    ensures NoLateRead(p, w, events)
    decreases |events|
  {
    if events == [] {
    } else {
      var next := Next(p, w, events[0]);
      NextHasLimit(p, w, events[0]);
      CeilingMeansNoLateRead(p, next, events[1..]);
      if LateRead(p, w, events[0]) {
        FullReadBreaksCeiling(p, next, events[1..], events[0].process);
      }
    }
  }

  /**
   In a run that leaves no call unfinished, the limit stays at or below the ceiling in every state if
   and only if no success reads a full limit after its check.  Throttles, failures and any number of
   further successes may interleave freely.
   */
  lemma CeilingHoldsExactly(p: Policy, w: World, events: seq<Event>)
    requires ValidPolicy(p) && Within(p, w) && Run(p, w, events) && NobodyBusy(After(p, w, events))
    ensures CeilingThroughout(p, w, events) <==> NoLateRead(p, w, events)
  {
    if NoLateRead(p, w, events) {
      NoLateReadKeepsCeiling(p, w, events);
    }
    if CeilingThroughout(p, w, events) {
      CeilingMeansNoLateRead(p, w, events);
    }
  }

  // ---- One raising call at a time is enough ----

  predicate Raising(pc: Pc) {
    pc.Due? || pc.Checked? || pc.Raise?
  }

  ghost predicate OneRaiser(w: World) {
    forall q, r :: q in w.pcs && r in w.pcs && Raising(w.pcs[q]) && Raising(w.pcs[r]) ==> q == r
  }

  ghost predicate OneRaiserThroughout(p: Policy, w: World, events: seq<Event>)
    requires p.den > 0
    decreases |events|
  {
    OneRaiser(w) && (events == [] || OneRaiserThroughout(p, Next(p, w, events[0]), events[1..]))
  }

  /** A success that has passed its check still finds room. */
  ghost predicate ChecksHold(p: Policy, w: World) {
    forall q :: q in w.pcs && w.pcs[q].Checked? ==> Limit(w.sys.db, AI) < p.ceiling
  }

  lemma NextKeepsChecks(p: Policy, w: World, e: Event)
    requires ValidPolicy(p) && AboveMinimum(p, w) && Within(p, w) && ChecksHold(p, w) && OneRaiser(w) && Enabled(w, e)
    ensures ChecksHold(p, Next(p, w, e))
  {
    if e.Go? {
      var pc := At(w, e.process);
      if pc.Cut? || pc.Ease? {
        LoweringStaysBelow(p, pc.seen);
      }
    }
  }

  lemma {:induction false} OneRaiserKeepsCeiling(p: Policy, w: World, events: seq<Event>)
    requires ValidPolicy(p) && AboveMinimum(p, w) && Within(p, w) && ChecksHold(p, w)
    requires Run(p, w, events) && OneRaiserThroughout(p, w, events)
    ensures NoLateRead(p, w, events) && CeilingThroughout(p, w, events)
    decreases |events|
  {
    if events == [] {
    } else {
      var e := events[0];
      NextAboveMinimum(p, w, e);
      NextKeepsChecks(p, w, e);
      NextWithin(p, w, e);
      OneRaiserKeepsCeiling(p, Next(p, w, e), events[1..]);
    }
  }

  // ---- Throttles that count ----

  predicate IsWrite(w: World, e: Event) {
    e.Go? && (At(w, e.process).Raise? || At(w, e.process).Cut? || At(w, e.process).Ease?)
  }

  /** Nobody writes the limit, and `q` does not move. */
  ghost predicate Untouched(p: Policy, w: World, events: seq<Event>, q: string)
    requires p.den > 0
    decreases |events|
  {
    events == [] ||
    (!IsWrite(w, events[0]) && events[0] != Go(q) && Untouched(p, Next(p, w, events[0]), events[1..], q))
  }

  lemma {:induction false} ReadStaysFresh(p: Policy, w: World, events: seq<Event>, q: string)
    requires ValidPolicy(p) && Run(p, w, events) && Untouched(p, w, events, q)
    requires AI in w.sys.db.limits && At(w, q) == Cut(Limit(w.sys.db, AI))
    ensures AI in After(p, w, events).sys.db.limits
    ensures At(After(p, w, events), q) == Cut(Limit(After(p, w, events).sys.db, AI))
    decreases |events|
  {
    if events == [] {
    } else {
      ReadStaysFresh(p, Next(p, w, events[0]), events[1..], q);
    }
  }

  /** A throttle whose reading is not overwritten cuts the very limit that it replaces. */
  lemma IsolatedThrottleCounts(p: Policy, w: World, between: seq<Event>, q: string)
    requires ValidPolicy(p) && AI in w.sys.db.limits && At(w, q).Throttled?
    requires Run(p, Next(p, w, Go(q)), between) && Untouched(p, Next(p, w, Go(q)), between, q)
    ensures
      var before := After(p, Next(p, w, Go(q)), between);
      Limit(Next(p, before, Go(q)).sys.db, AI) == ThrottledLimit(p, Limit(before.sys.db, AI))
  {
    ReadStaysFresh(p, Next(p, w, Go(q)), between, q);
  }

  /** No two throttles stand between their read and their write, and nothing else writes. */
  ghost predicate ApartThroughout(p: Policy, w: World, events: seq<Event>)
    requires p.den > 0
    decreases |events|
  {
    && (forall q, r :: q in w.pcs && r in w.pcs && w.pcs[q].Cut? && w.pcs[r].Cut? ==> q == r)
    && (events == [] ||
        ((IsWrite(w, events[0]) ==> At(w, events[0].process).Cut?)
         && ApartThroughout(p, Next(p, w, events[0]), events[1..])))
  }

  ghost predicate FreshReads(w: World) {
    AI in w.sys.db.limits && forall q :: q in w.pcs && w.pcs[q].Cut? ==> w.pcs[q].seen == w.sys.db.limits[AI]
  }

  /** The throttles of the run that were written. */
  function Cuts(p: Policy, w: World, events: seq<Event>): nat
    requires p.den > 0
    decreases |events|
  {
    if events == [] then 0
    else (if IsWrite(w, events[0]) then 1 else 0) + Cuts(p, Next(p, w, events[0]), events[1..])
  }

  function ThrottledTimes(p: Policy, limit: nat, k: nat): nat
    requires p.den > 0
  {
    if k == 0 then limit else ThrottledLimit(p, ThrottledTimes(p, limit, k - 1))
  }

  lemma {:induction false} OneCutFirst(p: Policy, limit: nat, k: nat)
    requires p.den > 0
    ensures ThrottledTimes(p, ThrottledLimit(p, limit), k) == ThrottledTimes(p, limit, k + 1)
  {
    if k == 0 {
      assert ThrottledTimes(p, limit, 0) == limit;
    } else {
      OneCutFirst(p, limit, k - 1);
    }
  }

  lemma NextStaysFresh(p: Policy, w: World, e: Event)
    requires ValidPolicy(p) && FreshReads(w) && Enabled(w, e)
    requires forall q, r :: q in w.pcs && r in w.pcs && w.pcs[q].Cut? && w.pcs[r].Cut? ==> q == r
    requires IsWrite(w, e) ==> At(w, e.process).Cut?
    ensures FreshReads(Next(p, w, e))
    ensures Limit(Next(p, w, e).sys.db, AI) ==
            if IsWrite(w, e) then ThrottledLimit(p, Limit(w.sys.db, AI)) else Limit(w.sys.db, AI)
  {
  }

  /** Throttles that stay apart each count, whatever else happens to the shared state meanwhile. */
  lemma {:induction false} ApartThrottlesCount(p: Policy, w: World, events: seq<Event>)
    requires ValidPolicy(p) && FreshReads(w) && Run(p, w, events) && ApartThroughout(p, w, events)
    ensures Limit(After(p, w, events).sys.db, AI) == ThrottledTimes(p, Limit(w.sys.db, AI), Cuts(p, w, events))
    decreases |events|
  {
    if events == [] {
    } else {
      var next := Next(p, w, events[0]);
      NextStaysFresh(p, w, events[0]);
      ApartThrottlesCount(p, next, events[1..]);
      if IsWrite(w, events[0]) {
        OneCutFirst(p, Limit(w.sys.db, AI), Cuts(p, next, events[1..]));
      }
    }
  }

  lemma {:induction false} TimesHalve(p: Policy, limit: nat, k: nat)
    requires ValidPolicy(p) && p.num == 1 && p.den == 2 && limit >= p.minimum
    ensures ThrottledTimes(p, limit, k) == Max(p.minimum, limit / Power2(k))
  {
    if k == 0 {
    } else {
      TimesHalve(p, limit, k - 1);
      HalveTwice(limit, Power2(k - 1));
    }
  }

  /** So `k` throttles at one half that stay apart leave exactly `limit / 2^k`, or the minimum. */
  lemma ApartThrottlesHalve(p: Policy, w: World, events: seq<Event>)
    requires ValidPolicy(p) && p.num == 1 && p.den == 2
    requires FreshReads(w) && w.sys.db.limits[AI] >= p.minimum
    requires Run(p, w, events) && ApartThroughout(p, w, events)
    ensures Limit(After(p, w, events).sys.db, AI) ==
            Max(p.minimum, Limit(w.sys.db, AI) / Power2(Cuts(p, w, events)))
  {
    ApartThrottlesCount(p, w, events);
    TimesHalve(p, Limit(w.sys.db, AI), Cuts(p, w, events));
  }

  // ---- Two at once ----

  lemma {:induction false} RunStarts(p: Policy, w: World, e: Event, next: World, rest: seq<Event>)
    requires p.den > 0 && Enabled(w, e) && next == Next(p, w, e) && Run(p, next, rest)
    ensures Run(p, w, [e] + rest) && After(p, w, [e] + rest) == After(p, next, rest)
  {
    assert ([e] + rest)[1..] == rest;
  }

  function Narrow(): Policy {
    Policy(1, 2, false, 1, 0, 1, 2)
  }

  function Start(limit: nat, pcs: map<string, Pc>): World {
    World.World(Sys(Db(map[AI := limit], map[], map[], 0, 0, map[]), Adaptive(0, 0, 0, 0, 0, None)), pcs)
  }

  function RaceToRaise(): seq<Event> {
    [Go("a")] + ([Go("b")] + ([Go("a")] + ([Go("a")] + ([Go("b")] + ([Go("b")] + [])))))
  }

  /** Two successes that are due at once: both pass the check before either writes. */
  lemma TwoRaisersPassCeiling(w: World)
    requires w.pcs == map["a" := Due, "b" := Due] && AI in w.sys.db.limits && w.sys.db.limits[AI] == 1
    ensures Run(Narrow(), w, RaceToRaise())
    ensures Limit(After(Narrow(), w, RaceToRaise()).sys.db, AI) == 3 > Narrow().ceiling
  {
    var p := Narrow();
    var w1 := Next(p, w, Go("a"));
    var w2 := Next(p, w1, Go("b"));
    var w3 := Next(p, w2, Go("a"));
    var w4 := Next(p, w3, Go("a"));
    var w5 := Next(p, w4, Go("b"));
    var w6 := Next(p, w5, Go("b"));
    RunStarts(p, w5, Go("b"), w6, []);
    RunStarts(p, w4, Go("b"), w5, [Go("b")] + []);
    RunStarts(p, w3, Go("a"), w4, [Go("b")] + ([Go("b")] + []));
    RunStarts(p, w2, Go("a"), w3, [Go("a")] + ([Go("b")] + ([Go("b")] + [])));
    RunStarts(p, w1, Go("b"), w2, [Go("a")] + ([Go("a")] + ([Go("b")] + ([Go("b")] + []))));
    RunStarts(p, w, Go("a"), w1, [Go("b")] + ([Go("a")] + ([Go("a")] + ([Go("b")] + ([Go("b")] + [])))));
  }

  /** Without a cooldown two queued successes do become due at once. */
  lemma TwoBecomeDue()
    ensures
      var w := After(Narrow(), Start(1, map[]), [BeginSuccess("a", 0, true)] + ([BeginSuccess("b", 0, true)] + []));
      && Run(Narrow(), Start(1, map[]), [BeginSuccess("a", 0, true)] + ([BeginSuccess("b", 0, true)] + []))
      && w.pcs == map["a" := Due, "b" := Due] && w.sys.db.limits == map[AI := 1]
  {
    var p, w0 := Narrow(), Start(1, map[]);
    var w1 := Next(p, w0, BeginSuccess("a", 0, true));
    var w2 := Next(p, w1, BeginSuccess("b", 0, true));
    RunStarts(p, w1, BeginSuccess("b", 0, true), w2, []);
    RunStarts(p, w0, BeginSuccess("a", 0, true), w1, [BeginSuccess("b", 0, true)] + []);
  }

  function RaceToCut(): seq<Event> {
    [Go("a")] + ([Go("b")] + ([Go("a")] + ([Go("b")] + [])))
  }

  /** Two throttles that read the same limit count as one. */
  lemma ThrottleMayBeLost(p: Policy, w: World)
    requires ValidPolicy(p) && w.pcs == map["a" := Throttled, "b" := Throttled] && AI in w.sys.db.limits
    ensures Run(p, w, RaceToCut())
    ensures Limit(After(p, w, RaceToCut()).sys.db, AI) == ThrottledLimit(p, w.sys.db.limits[AI])
  {
    var w1 := Next(p, w, Go("a"));
    var w2 := Next(p, w1, Go("b"));
    var w3 := Next(p, w2, Go("a"));
    var w4 := Next(p, w3, Go("b"));
    RunStarts(p, w3, Go("b"), w4, []);
    RunStarts(p, w2, Go("a"), w3, [Go("b")] + []);
    RunStarts(p, w1, Go("b"), w2, [Go("a")] + ([Go("b")] + []));
    RunStarts(p, w, Go("a"), w1, [Go("b")] + ([Go("a")] + ([Go("b")] + [])));
  }
}
