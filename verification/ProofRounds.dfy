/**
 The proof-round loop of `verify_project`: schedule the ready frontier, let the workers
 report, schedule again, at most `len(objects) + 2` times.
 */
module ProofRounds {
  import opened Options
  import opened Ordering
  import opened Reachability
  import opened ClaimGraph

  /** The state a round's workers and certifier give a claim, scheduled or not; None leaves it as it is. */
  type Outcome = (nat, set<string>, string) -> Option<ClaimState>

  ghost function SelectionGraph(selected: set<string>, edges: seq<Edge>): Graph {
    Graph(selected, map c | c in selected :: SelectedTargets(selected, edges, c))
  }

  ghost predicate Schedulable(states: States, selected: set<string>, edges: seq<Edge>) {
    forall c :: c in selected ==>
      || IsReadyState(StateOf(states, c))
      || StateOf(states, c) == Certified
      || Transparent(SelectionContext(states, selected, edges), c)
  }

  ghost function SatisfiedInside(states: States, selected: set<string>, edges: seq<Edge>): set<string> {
    SatisfiedClaims(SelectionContext(states, selected, edges))
  }

  /** On an acyclic selection, an unsatisfied claim always has a ready one at or below it. */
  lemma UnsatisfiedMeansFrontier(states: States, selected: set<string>, edges: seq<Edge>)
    requires Acyclic(SelectionGraph(selected, edges))
    requires Schedulable(states, selected, edges)
    requires !(selected <= SatisfiedInside(states, selected, edges))
    ensures Frontier(states, selected, edges) != {}
  {
    var g := SelectionGraph(selected, edges);
    var ctx := SelectionContext(states, selected, edges);
    var rules := SatisfactionRules(ctx);
    var satisfied := SatisfiedClaims(ctx);
    var stuck := selected - satisfied;
    if forall n :: n in stuck ==> Succ(g, n) * stuck != {} {
      var u :| u in selected && u !in satisfied;
      assert u in stuck;
      NoSinkMeansCycle(g, stuck);
    }
    var low :| low in stuck && Succ(g, low) * stuck == {};
    forall d | d in SelectedTargets(selected, edges, low) ensures d in satisfied {
      assert d in Succ(g, low) && d in selected;
      assert d !in Succ(g, low) * stuck;
    }
    LeastClosedIsClosed(rules);
    assert Premises(rules, low) == SelectedTargets(selected, edges, low);
    assert low !in rules.base && low !in rules.via;
    assert low in Frontier(states, selected, edges);
  }

  /** A claim that still has to be proved is never satisfied. */
  lemma ReadyIsUnsatisfied(ctx: Context, claim: string)
    requires IsReadyState(StateOf(ctx.states, claim))
    ensures claim !in SatisfiedClaims(ctx)
  {
  }

  /** While any selected claim is in a ready state, the next frontier is not empty. */
  lemma FrontierProgress(states: States, selected: set<string>, edges: seq<Edge>, claim: string)
    requires Acyclic(SelectionGraph(selected, edges))
    requires Schedulable(states, selected, edges)
    requires claim in selected && IsReadyState(StateOf(states, claim))
    ensures Frontier(states, selected, edges) != {}
  {
    ReadyIsUnsatisfied(SelectionContext(states, selected, edges), claim);
    UnsatisfiedMeansFrontier(states, selected, edges);
  }

  function Settled(reported: Option<ClaimState>): ClaimState {
    match reported
    case None => Unresolved
    case Some(s) => if s == Proving then Unresolved else s
  }

  function Reported(reported: Option<ClaimState>, state: ClaimState): ClaimState {
    match reported
    case None => state
    case Some(s) => s
  }

  /** Claims take what was reported; a scheduled claim without a report ends UNRESOLVED. */
  ghost function AfterReports(states: States, round: nat, ready: set<string>, outcome: Outcome): States {
    map c | c in states ::
      if c in ready then Settled(outcome(round, ready, c)) else Reported(outcome(round, ready, c), states[c])
  }

  ghost function Scheduled(states: States, done: seq<string>): States {
    map c | c in states :: if c in done then Proving else states[c]
  }

  ghost function Unreported(states: States, done: seq<string>): States {
    map c | c in states :: if c in done && states[c] == Proving then Unresolved else states[c]
  }

  lemma ScheduleOne(states: States, done: seq<string>, claim: string)
    ensures SetState(Scheduled(states, done), claim, Proving) == Scheduled(states, done + [claim])
  {
  }

  lemma SettleOne(states: States, done: seq<string>, claim: string)
    ensures var now := Unreported(states, done);
            Unreported(states, done + [claim]) ==
            if StateOf(now, claim) == Proving then SetState(now, claim, Unresolved) else now
  {
  }

  function WithReports(states: States, round: nat, ready: set<string>, outcome: Outcome): States {
    map c | c in states :: Reported(outcome(round, ready, c), states[c])
  }

  lemma PhasesMakeARound(states: States, round: nat, ready: seq<string>, outcome: Outcome)
    ensures var scheduled := set c | c in ready;
            Unreported(WithReports(Scheduled(states, ready), round, scheduled, outcome), ready)
            == AfterReports(states, round, scheduled, outcome)
  {
  }

  /** The loop that starts the scheduled claims. */
  method StartAll(states: States, ready: seq<string>) returns (result: States)
    ensures result == Scheduled(states, ready)
  {
    result := states;
    for i := 0 to |ready|
      invariant result == Scheduled(states, ready[..i])
    {
      ScheduleOne(states, ready[..i], ready[i]);
      assert ready[..i + 1] == ready[..i] + [ready[i]];
      result := SetState(result, ready[i], Proving);
    }
    assert ready[..|ready|] == ready;
  }

  /** The loop over the claims that nobody reported on. */
  method SettleAll(reported: States, ready: seq<string>) returns (result: States)
    ensures result == Unreported(reported, ready)
  {
    result := reported;
    for i := 0 to |ready|
      invariant result == Unreported(reported, ready[..i])
    {
      SettleOne(reported, ready[..i], ready[i]);
      assert ready[..i + 1] == ready[..i] + [ready[i]];
      if StateOf(result, ready[i]) == Proving {
        result := SetState(result, ready[i], Unresolved);
      }
    }
    assert ready[..|ready|] == ready;
  }

  method RunRound(states: States, round: nat, ready: seq<string>, outcome: Outcome) returns (result: States)
    ensures result == AfterReports(states, round, (set c | c in ready), outcome)
    ensures result.Keys == states.Keys
    ensures forall c :: c in states && outcome(round, (set d | d in ready), c).Some? ==>
              var reported := outcome(round, (set d | d in ready), c).value;
              result[c] == if c in ready && reported == Proving then Unresolved else reported
    ensures forall c :: c in states && outcome(round, (set d | d in ready), c).None? ==>
              result[c] == if c in ready then Unresolved else states[c]
  {
    var proving := StartAll(states, ready);
    result := SettleAll(WithReports(proving, round, (set c | c in ready), outcome), ready);
    PhasesMakeARound(states, round, ready, outcome);
  }

  ghost function AwaitingClarification(states: States, selected: set<string>): set<string> {
    set c | c in selected && StateOf(states, c) == NeedsClarification
  }

  /** Claims above an open question are parked unless they are certified. */
  ghost predicate Parked(states: States, selected: set<string>, edges: seq<Edge>, claim: string) {
    && claim in selected && StateOf(states, claim) != Certified
    && exists b :: && b in AwaitingClarification(states, selected) && b != claim
                   && Reaches(BuildGraph(selected, edges), claim, b)
  }

  method ParkBlocked(states: States, selected: set<string>, edges: seq<Edge>) returns (result: States)
    ensures result.Keys == states.Keys
    ensures forall c :: c in states ==>
              result[c] == if Parked(states, selected, edges, c) then BlockedDependency else states[c]
  {
    var open := set c | c in selected && StateOf(states, c) == NeedsClarification;
    var parked := BlockedDescendants(Sorted(open), selected, edges);
    result := map c | c in states ::
      if c in parked && states[c] != Certified then BlockedDependency else states[c];
  }

  /** Each round certifies something of its frontier, and what it does not certify it leaves unreported. */
  ghost predicate Productive(outcome: Outcome, selected: set<string>) {
    forall round: nat, ready: set<string> ::
      ready != {} && ready <= selected ==> ProductiveRound(outcome, selected, round, ready)
  }

  ghost predicate ProductiveRound(outcome: Outcome, selected: set<string>, round: nat, ready: set<string>) {
    && (exists c :: c in ready && outcome(round, ready, c) == Some(Certified))
    && (forall c :: c in selected ==> outcome(round, ready, c) in {None, Some(Certified)})
  }

  /** No round reports on the claim. */
  ghost predicate NeverReported(outcome: Outcome, claim: string) {
    forall round: nat, ready: set<string> :: outcome(round, ready, claim) == None
  }

  ghost function CertifiedIn(states: States, selected: set<string>): set<string> {
    set c | c in selected && StateOf(states, c) == Certified
  }

  /** A run that can be proved completely, one round at a time. */
  ghost predicate Provable(states: States, selected: set<string>, edges: seq<Edge>, outcome: Outcome) {
    && Productive(outcome, selected)
    && Acyclic(SelectionGraph(selected, edges))
    && Schedulable(states, selected, edges)
    && selected <= states.Keys
  }

  /** One trip through the loop body; `idle` is the exit through an empty frontier. */
  method ScheduleRound(states: States, selected: set<string>, edges: seq<Edge>, round: nat, outcome: Outcome)
    returns (after: States, idle: bool)
    ensures after.Keys == states.Keys
    ensures forall c :: c in states && c !in selected && NeverReported(outcome, c) ==> after[c] == states[c]
    ensures idle ==> forall c :: c in states && c !in selected ==> after[c] == states[c]
    ensures idle ==> Frontier(after, selected, edges) == {}
    ensures Provable(states, selected, edges, outcome) ==>
              && Provable(after, selected, edges, outcome)
              && (idle ==> after == states && selected <= SatisfiedInside(after, selected, edges))
              && (!idle ==> |CertifiedIn(after, selected)| > |CertifiedIn(states, selected)|)
  {
    after := ParkBlocked(states, selected, edges);
    ghost var parked := after;
    if Provable(states, selected, edges, outcome) {
      NothingParked(states, parked, selected, edges);
    }
    var ready := ReadyFrontier(after, selected, edges);
    ghost var frontier := Frontier(after, selected, edges);
    assert frontier == set c | c in ready;
    idle := ready == [];
    if !idle {
      assert ready[0] in frontier;
      after := RunRound(after, round, ready, outcome);
    }
    if Provable(states, selected, edges, outcome) {
      if idle {
        if !(selected <= SatisfiedInside(after, selected, edges)) {
          UnsatisfiedMeansFrontier(after, selected, edges);
        }
      } else {
        ProvableRoundAdvances(states, selected, edges, round, frontier, outcome);
      }
    }
  }

  /**
   `drained` reports the exit through an empty frontier, as opposed to the round bound.
   A selection that can be scheduled at all is proved completely before the bound bites.
   */
  method RunRounds(initial: States, selected: set<string>, edges: seq<Edge>, objects: nat, outcome: Outcome)
    returns (states: States, rounds: nat, drained: bool)
    ensures rounds <= objects + 2
    ensures drained ==> Frontier(states, selected, edges) == {}
    ensures !drained ==> rounds == objects + 2
    ensures states.Keys == initial.Keys
    ensures forall c :: c in initial && c !in selected && NeverReported(outcome, c) ==> states[c] == initial[c]
    ensures Provable(initial, selected, edges, outcome) && |selected| <= objects ==>
              && drained && rounds <= |selected| + 1
              && selected <= SatisfiedInside(states, selected, edges)
  {
    states, rounds, drained := initial, 0, false;
    while !drained && rounds <= objects + 1
      invariant rounds <= objects + 2
      invariant drained ==> Frontier(states, selected, edges) == {}
      invariant states.Keys == initial.Keys
      invariant forall c :: c in initial && c !in selected && NeverReported(outcome, c) ==> states[c] == initial[c]
      invariant Provable(initial, selected, edges, outcome) ==> Provable(states, selected, edges, outcome)
      invariant Provable(initial, selected, edges, outcome) ==>
                  if drained then rounds <= |selected| + 1 && selected <= SatisfiedInside(states, selected, edges)
                  else rounds <= |CertifiedIn(states, selected)|
      decreases !drained, objects + 2 - rounds
    {
      SubsetSize(CertifiedIn(states, selected), selected);
      rounds := rounds + 1;
      states, drained := ScheduleRound(states, selected, edges, rounds, outcome);
    }
    SubsetSize(CertifiedIn(states, selected), selected);
  }

  lemma NothingParked(before: States, after: States, selected: set<string>, edges: seq<Edge>)
    requires Schedulable(before, selected, edges)
    requires before.Keys == after.Keys
    requires forall c :: c in before ==>
               after[c] == if Parked(before, selected, edges, c) then BlockedDependency else before[c]
    ensures after == before
  {
    assert AwaitingClarification(before, selected) == {};
  }

  lemma UnscheduledStay(states: States, selected: set<string>, round: nat, ready: set<string>, outcome: Outcome,
                        claim: string)
    requires ProductiveRound(outcome, selected, round, ready)
    requires claim in selected && claim in states && claim !in ready
    ensures StateOf(AfterReports(states, round, ready, outcome), claim) in {StateOf(states, claim), Certified}
  {
  }

  lemma RoundStaysSchedulable(states: States, selected: set<string>, edges: seq<Edge>, round: nat,
                              ready: set<string>, outcome: Outcome)
    requires Schedulable(states, selected, edges) && selected <= states.Keys
    requires ready <= selected && ProductiveRound(outcome, selected, round, ready)
    ensures Schedulable(AfterReports(states, round, ready, outcome), selected, edges)
  {
    var after := AfterReports(states, round, ready, outcome);
    forall c | c in selected
      ensures || IsReadyState(StateOf(after, c)) || StateOf(after, c) == Certified
              || Transparent(SelectionContext(after, selected, edges), c)
    {
      if c in ready {
        assert after[c] in {Unresolved, Certified};
      } else {
        UnscheduledStay(states, selected, round, ready, outcome, c);
      }
    }
  }

  lemma RoundCertifies(states: States, selected: set<string>, round: nat, ready: set<string>, outcome: Outcome)
    requires selected <= states.Keys && ready <= selected && ProductiveRound(outcome, selected, round, ready)
    requires forall c :: c in ready ==> IsReadyState(StateOf(states, c))
    ensures |CertifiedIn(AfterReports(states, round, ready, outcome), selected)| > |CertifiedIn(states, selected)|
  {
    var after := AfterReports(states, round, ready, outcome);
    var won :| won in ready && outcome(round, ready, won) == Some(Certified);
    var old', new' := CertifiedIn(states, selected), CertifiedIn(after, selected);
    forall c | c in old' ensures c in new' {
      UnscheduledStay(states, selected, round, ready, outcome, c);
    }
    assert won in new' && won !in old';
    SubsetSize(old' + {won}, new');
  }

  lemma RoundAdvances(states: States, selected: set<string>, edges: seq<Edge>, round: nat,
                      ready: set<string>, outcome: Outcome)
    requires Schedulable(states, selected, edges) && selected <= states.Keys
    requires ready == Frontier(states, selected, edges) && ready != {}
    requires ProductiveRound(outcome, selected, round, ready)
    ensures var after := AfterReports(states, round, ready, outcome);
            && Schedulable(after, selected, edges)
            && |CertifiedIn(after, selected)| > |CertifiedIn(states, selected)|
  {
    RoundStaysSchedulable(states, selected, edges, round, ready, outcome);
    RoundCertifies(states, selected, round, ready, outcome);
  }

  lemma ProvableRoundAdvances(states: States, selected: set<string>, edges: seq<Edge>, round: nat,
                              ready: set<string>, outcome: Outcome)
    requires Provable(states, selected, edges, outcome)
    requires ready == Frontier(states, selected, edges) && ready != {}
    ensures var after := AfterReports(states, round, ready, outcome);
            && Provable(after, selected, edges, outcome)
            && |CertifiedIn(after, selected)| > |CertifiedIn(states, selected)|
  {
    assert ProductiveRound(outcome, selected, round, ready);
    RoundAdvances(states, selected, edges, round, ready, outcome);
  }
}
