/**
 `DependencyScheduler` of `concurrency/scheduler.py`: rank ready claims by how many requested,
 blocked claims transitively wait for them.
 */
module Scheduler {
  import opened Options
  import opened Ordering
  import opened Reachability
  import opened Sorting

  datatype TaskClass =
    | Clarification | Diagnostic | Proof | Sketch | Maintenance | Review | DuplicateProof | Reporting

  function Priority(c: TaskClass): int {
    match c
    case Clarification => 0
    case Diagnostic => 0
    case Proof => 10
    case Sketch => 10
    case Maintenance => 15
    case Review => 20
    case DuplicateProof => 30
    case Reporting => 40
  }

  datatype Task = Task(claim: string, taskClass: TaskClass, readyOrder: int)

  /** Each claim's direct prerequisites, as given. */
  type Dependencies = map<string, seq<string>>

  function Dependents(deps: Dependencies, prerequisite: string): set<string> {
    set d | d in deps && prerequisite in deps[d]
  }

  function Prerequisites(deps: Dependencies): set<string> {
    set d, p | d in deps && p in deps[d] :: p
  }

  /** Edges from a prerequisite to the claims that wait for it. */
  function Waiting(deps: Dependencies): (g: Graph)
    ensures Valid(g)
    ensures forall p :: Succ(g, p) == Dependents(deps, p)
  {
    Graph(deps.Keys + Prerequisites(deps), map p | p in Prerequisites(deps) :: Dependents(deps, p))
  }

  /** Claims of `wanted` that transitively depend on `claim`, itself excluded. */
  ghost function Unlocked(deps: Dependencies, wanted: set<string>, claim: string): set<string> {
    set x | x in wanted && x != claim && Reaches(Waiting(deps), claim, x)
  }

  ghost function Score(deps: Dependencies, wanted: set<string>, claim: string): nat {
    |Unlocked(deps, wanted, claim)|
  }

  function Reversed(reverse: map<string, set<string>>, p: string): set<string> {
    if p in reverse then reverse[p] else {}
  }

  /** The loops that fill `reverse`. */
  method BuildReverse(deps: Dependencies) returns (reverse: map<string, set<string>>)
    ensures forall p :: Reversed(reverse, p) == Dependents(deps, p)
  {
    reverse := map[];
    var left := deps.Keys;
    while left != {}
      invariant left <= deps.Keys
      invariant forall p :: Reversed(reverse, p) == Dependents(deps, p) - left
    {
      var dependent :| dependent in left;
      var prerequisites := deps[dependent];
      ghost var before := reverse;
      for i := 0 to |prerequisites|
        invariant forall p :: Reversed(reverse, p) ==
                    Reversed(before, p) + if p in prerequisites[..i] then {dependent} else {}
      {
        assert prerequisites[..i + 1] == prerequisites[..i] + [prerequisites[i]];
        var p := prerequisites[i];
        reverse := reverse[p := Reversed(reverse, p) + {dependent}];
      }
      assert prerequisites[..|prerequisites|] == prerequisites;
      left := left - {dependent};
    }
  }

  /** What is seen or queued waits for `claim`, and nothing that waits for a seen claim is missed. */
  ghost predicate Searching(deps: Dependencies, claim: string, seen: set<string>, queue: seq<string>) {
    && claim in seen && seen <= {claim} + deps.Keys
    && (forall x :: x in seen || x in queue ==> Reaches(Waiting(deps), claim, x))
    && (forall x :: x in queue ==> x in deps)
    && (forall x :: x in seen ==> Covered(deps, x, seen, queue))
  }

  ghost predicate Covered(deps: Dependencies, x: string, seen: set<string>, queue: seq<string>) {
    forall y :: y in Dependents(deps, x) ==> y in seen || y in queue
  }

  lemma SearchStarts(deps: Dependencies, claim: string)
    ensures Searching(deps, claim, {claim}, Sorted(Dependents(deps, claim)))
  {
    ReachesSelf(Waiting(deps), claim);
    forall x | x in Dependents(deps, claim) ensures Reaches(Waiting(deps), claim, x) {
      ReachesStep(Waiting(deps), claim, claim, x);
    }
  }

  lemma SearchSkips(deps: Dependencies, claim: string, seen: set<string>, queue: seq<string>)
    requires queue != [] && Searching(deps, claim, seen, queue) && queue[0] in seen
    ensures Searching(deps, claim, seen, queue[1..])
  {
    assert queue == [queue[0]] + queue[1..];
    forall x | x in seen ensures Covered(deps, x, seen, queue[1..]) {
      assert Covered(deps, x, seen, queue);
    }
  }

  lemma SearchVisits(deps: Dependencies, claim: string, seen: set<string>, queue: seq<string>)
    requires queue != [] && Searching(deps, claim, seen, queue) && queue[0] !in seen
    ensures Searching(deps, claim, seen + {queue[0]}, queue[1..] + Sorted(Dependents(deps, queue[0])))
    ensures queue[0] in deps
  {
    var current, more := queue[0], Sorted(Dependents(deps, queue[0]));
    assert queue == [current] + queue[1..];
    assert current in queue;
    forall x | x in Dependents(deps, current) ensures Reaches(Waiting(deps), claim, x) {
      ReachesStep(Waiting(deps), claim, current, x);
    }
    forall x | x in seen + {current} ensures Covered(deps, x, seen + {current}, queue[1..] + more) {
      if x != current {
        assert Covered(deps, x, seen, queue);
      }
    }
  }

  lemma SearchEnds(deps: Dependencies, claim: string, seen: set<string>, wanted: set<string>)
    requires Searching(deps, claim, seen, [])
    ensures (seen - {claim}) * wanted == Unlocked(deps, wanted, claim)
  {
    var g := Waiting(deps);
    forall x | x in seen ensures Succ(g, x) <= seen {
      assert Covered(deps, x, seen, []);
    }
    forall x | Reaches(g, claim, x) ensures x in seen {
      ClosedHoldsReachable(g, seen, claim, x);
    }
  }

  lemma VisitShrinks(universe: set<string>, seen: set<string>, x: string)
    requires x in universe && x !in seen
    ensures universe - (seen + {x}) < universe - seen
  {
    assert x in universe - seen;
  }

  lemma VisitCounts(seen: set<string>, x: string, claim: string, wanted: set<string>)
    requires x !in seen && claim in seen
    ensures (seen + {x} - {claim}) * wanted ==
            if x in wanted then (seen - {claim}) * wanted + {x} else (seen - {claim}) * wanted
  {
  }

  /** The queue loop for one claim; a claim may be queued several times. */
  method CountUnlocked(deps: Dependencies, reverse: map<string, set<string>>, wanted: set<string>, claim: string)
    returns (score: nat)
    requires forall p :: Reversed(reverse, p) == Dependents(deps, p)
    ensures score == Score(deps, wanted, claim)
  {
    var seen := {claim};
    var descendants: set<string> := {};
    var queue := Sorted(Reversed(reverse, claim));
    SearchStarts(deps, claim);
    while queue != []
      invariant Searching(deps, claim, seen, queue)
      invariant descendants == (seen - {claim}) * wanted
      decreases {claim} + deps.Keys - seen, |queue|
    {
      var current := queue[0];
      if current in seen {
        SearchSkips(deps, claim, seen, queue);
        queue := queue[1..];
      } else {
        SearchVisits(deps, claim, seen, queue);
        VisitShrinks({claim} + deps.Keys, seen, current);
        VisitCounts(seen, current, claim, wanted);
        seen := seen + {current};
        if current in wanted {
          descendants := descendants + {current};
        }
        var more := Reversed(reverse, current);
        queue := queue[1..] + Sorted(more);
      }
    }
    SearchEnds(deps, claim, seen, wanted);
    score := |descendants|;
  }

  /** Claims that count: requested and, unless `blocked` is absent, blocked. */
  function Wanted(requested: set<string>, blocked: Option<set<string>>): set<string> {
    if blocked.None? then requested else requested * blocked.value
  }

  /** How many claims that count wait for `claim`, directly or not. */
  ghost function Waiters(deps: Dependencies, requested: set<string>, blocked: Option<set<string>>, claim: string): nat {
    |set x | x in requested && (blocked == None || x in blocked.value) && x != claim && Reaches(Waiting(deps), claim, x)|
  }

  lemma WaitersAreUnlocked(deps: Dependencies, requested: set<string>, blocked: Option<set<string>>, claim: string)
    ensures Waiters(deps, requested, blocked, claim) == Score(deps, Wanted(requested, blocked), claim)
  {
    assert Unlocked(deps, Wanted(requested, blocked), claim)
        == set x | x in requested && (blocked == None || x in blocked.value) && x != claim && Reaches(Waiting(deps), claim, x);
  }

  method UnlockScores(claims: seq<string>, requested: set<string>, deps: Dependencies, blocked: Option<set<string>>)
    returns (scores: map<string, nat>)
    ensures forall c :: c in scores <==> c in claims
    ensures forall c :: c in claims ==> scores[c] == Score(deps, Wanted(requested, blocked), c)
    ensures forall c :: c in claims ==> scores[c] == Waiters(deps, requested, blocked, c)
  {
    var reverse := BuildReverse(deps);
    scores := map[];
    for i := 0 to |claims|
      invariant forall c :: c in scores <==> c in claims[..i]
      invariant forall c :: c in claims[..i] ==> scores[c] == Score(deps, Wanted(requested, blocked), c)
    {
      assert claims[..i + 1] == claims[..i] + [claims[i]];
      var score := CountUnlocked(deps, reverse, Wanted(requested, blocked), claims[i]);
      scores := scores[claims[i] := score];
    }
    assert claims[..|claims|] == claims;
    forall c | c in claims ensures scores[c] == Waiters(deps, requested, blocked, c) {
      WaitersAreUnlocked(deps, requested, blocked, c);
    }
  }

  /** On acyclic dependencies a prerequisite unlocks what its dependent unlocks, and the dependent. */
  lemma PrerequisiteScoresHigher(deps: Dependencies, wanted: set<string>, prerequisite: string, dependent: string)
    requires Acyclic(Waiting(deps)) && dependent in Dependents(deps, prerequisite)
    ensures Score(deps, wanted, prerequisite) >= Score(deps, wanted, dependent) + if dependent in wanted then 1 else 0
  {
    var g := Waiting(deps);
    var above, below := Unlocked(deps, wanted, prerequisite), Unlocked(deps, wanted, dependent);
    ReachesSelf(g, prerequisite);
    ReachesSelf(g, dependent);
    ReachesStep(g, prerequisite, prerequisite, dependent);
    forall x | Reaches(g, dependent, x) ensures x != prerequisite && Reaches(g, prerequisite, x) {
      ReachesJoin(g, prerequisite, dependent, x);
      assert x == prerequisite ==> ReachesPlus(g, prerequisite, prerequisite);
    }
    var more := below + if dependent in wanted then {dependent} else {};
    assert more <= above;
    assert above == more + (above - more);
  }

  // ---- The order ----

  /** The sort key: priority, most unlocked first (`p`, `q` are the scores), ready order, claim. */
  predicate RunsNoLater(a: Task, p: nat, b: Task, q: nat) {
    var x, y := Priority(a.taskClass), Priority(b.taskClass);
    || x < y
    || (x == y && (p > q
                   || (p == q && (a.readyOrder < b.readyOrder
                                  || (a.readyOrder == b.readyOrder && AtMost(a.claim, b.claim))))))
  }

  function ScoreOf(scores: map<string, nat>, claim: string): nat {
    if claim in scores then scores[claim] else 0
  }

  lemma RunsNoLaterIsPreorder(scores: map<string, nat>)
    ensures TotalPreorder((a: Task, b: Task) =>
                            RunsNoLater(a, ScoreOf(scores, a.claim), b, ScoreOf(scores, b.claim)))
  {
    forall a: Task, b: Task
      ensures RunsNoLater(a, ScoreOf(scores, a.claim), b, ScoreOf(scores, b.claim))
              || RunsNoLater(b, ScoreOf(scores, b.claim), a, ScoreOf(scores, a.claim))
    {
      LessTotal(a.claim, b.claim);
    }
    forall a: Task, b: Task, c: Task
      | RunsNoLater(a, ScoreOf(scores, a.claim), b, ScoreOf(scores, b.claim))
        && RunsNoLater(b, ScoreOf(scores, b.claim), c, ScoreOf(scores, c.claim))
      ensures RunsNoLater(a, ScoreOf(scores, a.claim), c, ScoreOf(scores, c.claim))
    {
      if Less(a.claim, b.claim) && Less(b.claim, c.claim) {
        LessTransitive(a.claim, b.claim, c.claim);
      }
    }
  }

  /** `ordered` follows the sort key, with the scores the dependencies really give. */
  ghost predicate InSchedule(deps: Dependencies, wanted: set<string>, ordered: seq<Task>) {
    forall i, j :: 0 <= i < j < |ordered| ==>
      RunsNoLater(ordered[i], Score(deps, wanted, ordered[i].claim), ordered[j], Score(deps, wanted, ordered[j].claim))
  }

  // ---- The schedule, written out ----

  /** Diagnosis first, then proofs, maintenance, review, second attempts and reports. */
  ghost predicate GoesBefore(a: TaskClass, b: TaskClass) {
    match b
    case Clarification => false
    case Diagnostic => false
    case Proof => a in {Clarification, Diagnostic}
    case Sketch => a in {Clarification, Diagnostic}
    case Maintenance => a in {Clarification, Diagnostic, Proof, Sketch}
    case Review => a in {Clarification, Diagnostic, Proof, Sketch, Maintenance}
    case DuplicateProof => a !in {DuplicateProof, Reporting}
    case Reporting => a != Reporting
  }

  lemma PriorityTable()
    ensures Priority(Clarification) == Priority(Diagnostic) == 0
    ensures Priority(Proof) == Priority(Sketch) == 10 && Priority(Maintenance) == 15
    ensures Priority(Review) == 20 && Priority(DuplicateProof) == 30 && Priority(Reporting) == 40
    ensures forall a, b :: Priority(a) < Priority(b) <==> GoesBefore(a, b)
  {
  }

  /** No task goes before one of an earlier class; within a class, by waiting claims, age and claim id. */
  ghost predicate IsSchedule(deps: Dependencies, requested: set<string>, blocked: Option<set<string>>, ordered: seq<Task>) {
    forall i, j :: 0 <= i < j < |ordered| ==>
      || GoesBefore(ordered[i].taskClass, ordered[j].taskClass)
      || (!GoesBefore(ordered[j].taskClass, ordered[i].taskClass)
          && PrecedesInClass(ordered[i], Waiters(deps, requested, blocked, ordered[i].claim),
                             ordered[j], Waiters(deps, requested, blocked, ordered[j].claim)))
  }

  ghost predicate PrecedesInClass(a: Task, waitingForA: nat, b: Task, waitingForB: nat) {
    || waitingForA > waitingForB
    || (waitingForA == waitingForB && a.readyOrder < b.readyOrder)
    || (waitingForA == waitingForB && a.readyOrder == b.readyOrder && (a.claim == b.claim || Less(a.claim, b.claim)))
  }

  lemma ScheduleIsWritten(deps: Dependencies, requested: set<string>, blocked: Option<set<string>>, ordered: seq<Task>)
    requires InSchedule(deps, Wanted(requested, blocked), ordered)
    ensures IsSchedule(deps, requested, blocked, ordered)
  {
    PriorityTable();
    forall i, j | 0 <= i < j < |ordered| ensures
      || GoesBefore(ordered[i].taskClass, ordered[j].taskClass)
      || (!GoesBefore(ordered[j].taskClass, ordered[i].taskClass)
          && PrecedesInClass(ordered[i], Waiters(deps, requested, blocked, ordered[i].claim),
                             ordered[j], Waiters(deps, requested, blocked, ordered[j].claim)))
    {
      WaitersAreUnlocked(deps, requested, blocked, ordered[i].claim);
      WaitersAreUnlocked(deps, requested, blocked, ordered[j].claim);
    }
  }

  method Prioritize(tasks: seq<Task>, requested: set<string>, deps: Dependencies, blocked: Option<set<string>>)
    returns (ordered: seq<Task>)
    ensures multiset(ordered) == multiset(tasks)
    ensures InSchedule(deps, Wanted(requested, blocked), ordered)
    ensures IsSchedule(deps, requested, blocked, ordered)
  {
    var claims := seq(|tasks|, i requires 0 <= i < |tasks| => tasks[i].claim);
    var scores := UnlockScores(claims, requested, deps, blocked);
    RunsNoLaterIsPreorder(scores);
    ordered := Sort((a: Task, b: Task) => RunsNoLater(a, ScoreOf(scores, a.claim), b, ScoreOf(scores, b.claim)), tasks);
    forall i | 0 <= i < |ordered|
      ensures ScoreOf(scores, ordered[i].claim) == Score(deps, Wanted(requested, blocked), ordered[i].claim)
    {
      assert ordered[i] in multiset(tasks);
      var k :| 0 <= k < |tasks| && tasks[k] == ordered[i];
      assert claims[k] in claims;
    }
    ScheduleIsWritten(deps, requested, blocked, ordered);
  }

  /** Within one priority, work that others wait for runs before the work that waits for it. */
  lemma PrerequisitesRunFirst(deps: Dependencies, wanted: set<string>, ordered: seq<Task>, i: nat, j: nat)
    requires Acyclic(Waiting(deps)) && i < |ordered| && j < |ordered| && InSchedule(deps, wanted, ordered)
    requires Priority(ordered[i].taskClass) == Priority(ordered[j].taskClass)
    requires ordered[j].claim in Dependents(deps, ordered[i].claim) && ordered[j].claim in wanted
    ensures i < j
  {
    PrerequisiteScoresHigher(deps, wanted, ordered[i].claim, ordered[j].claim);
    ReachesSelf(Waiting(deps), ordered[j].claim);
  }
}
