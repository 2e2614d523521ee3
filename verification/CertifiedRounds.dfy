/**
 A proof round of `verify_project` with its certification: the frontier is scheduled, the workers
 leave declarations and approved rows, one certification pass judges them, and scheduled claims
 without a result are settled.
 */
module CertifiedRounds {
  import opened Certification
  import opened ClaimGraph
  import opened Grounding
  import opened Options
  import opened Reachability
  import ProofRounds

  /** What the workers of one round leave for the certifier. */
  datatype Evidence = Evidence(inp: Inputs, rows: seq<Row>)

  function Started(states: States, ready: set<string>): States {
    map c | c in states :: if c in ready then Proving else states[c]
  }

  ghost function FrontierOf(e: Evidence, states: States, selected: set<string>): set<string> {
    Frontier(states, selected, e.inp.edges)
  }

  /** What the certifier of this round starts from. */
  ghost function RoundSetup(e: Evidence, book: Book, selected: set<string>): Setup {
    Setup(e.inp, e.rows, book.(states := Started(book.states, FrontierOf(e, book.states, selected))))
  }

  ghost function Pass(u: Setup): Progress {
    AfterPass(u.inp, u.rows, u.start)
  }

  ghost function AfterRound(e: Evidence, book: Book, selected: set<string>): Book {
    var ready := FrontierOf(e, book.states, selected);
    var pass := Pass(RoundSetup(e, book, selected)).book;
    pass.(states := map c | c in pass.states ::
      if c in ready && pass.states[c] == Proving then Unresolved else pass.states[c])
  }

  /** What the certifier reports is what it has changed. */
  ghost function Reports(u: Setup): ProofRounds.Outcome {
    var after := Pass(u).book.states;
    (round, ready, c) =>
      if c in after && StateOf(u.start.states, c) != after[c] then Some(after[c]) else None
  }

  /** Every scheduled claim got an acceptable row, and no selected claim is rejected or refuted. */
  ghost predicate Delivers(e: Evidence, book: Book, selected: set<string>) {
    var u := RoundSetup(e, book, selected);
    && Consistent(u)
    && (forall c :: c in FrontierOf(e, book.states, selected) ==> c in Acceptable(u))
    && selected !! Fallen(u)
  }

  /** Scheduling touches only claims that do not count. */
  lemma StartedKeepsRules(e: Evidence, book: Book, selected: set<string>, claim: string)
    ensures var before := SatisfactionRules(GraphContext(book.states, e.inp.edges));
            var after := SatisfactionRules(GraphContext(RoundSetup(e, book, selected).start.states, e.inp.edges));
            && (claim in before.base ==> claim in after.base) && (claim in before.via ==> claim in after.via)
            && Premises(before, claim) == Premises(after, claim)
  {
    assert claim in FrontierOf(e, book.states, selected) ==> IsReadyState(StateOf(book.states, claim));
  }

  lemma PremisesStaySelected(states: States, selected: set<string>, edges: seq<Edge>, claim: string)
    requires SelectionClosed(selected, edges) && claim in selected
    ensures Premises(SatisfactionRules(GraphContext(states, edges)), claim) <= selected
  {
  }

  /** Scheduling changes nothing that counts, and what counts inside the selection stands. */
  lemma SelectedStands(e: Evidence, book: Book, selected: set<string>)
    requires SelectionClosed(selected, e.inp.edges) && selected !! Fallen(RoundSetup(e, book, selected))
    ensures var u := RoundSetup(e, book, selected);
            SatisfiedClaims(GraphContext(book.states, e.inp.edges)) * selected <= FirmIn(u, u.start.states)
  {
    var u := RoundSetup(e, book, selected);
    var rules := SatisfactionRules(GraphContext(book.states, e.inp.edges));
    var firm := Without(SatisfactionRules(GraphContext(u.start.states, e.inp.edges)), Fallen(u));
    var all := LeastClosed(rules);
    var s := set c | c in all && (c in selected ==> c in LeastClosed(firm));
    LeastClosedIsClosed(rules);
    LeastClosedIsClosed(firm);
    forall c | c in rules.base ensures c in s {
      StartedKeepsRules(e, book, selected, c);
    }
    forall c | c in rules.via && Premises(rules, c) <= s ensures c in s {
      assert Premises(rules, c) <= all;
      if c in selected {
        StartedKeepsRules(e, book, selected, c);
        PremisesStaySelected(book.states, selected, e.inp.edges, c);
        assert Premises(firm, c) <= LeastClosed(firm);
      }
    }
    LeastClosedIsLeast(rules, s);
  }

  /** One pass certifies the whole frontier. */
  lemma FrontierIsCertified(e: Evidence, book: Book, selected: set<string>, claim: string)
    requires SelectionClosed(selected, e.inp.edges) && Delivers(e, book, selected)
    requires claim in FrontierOf(e, book.states, selected)
    ensures StateOf(Pass(RoundSetup(e, book, selected)).book.states, claim) == Certified
  {
    var u := RoundSetup(e, book, selected);
    var row :| row in u.rows && Judge(u.inp, row, true) == Certify && row.claim == claim;
    FrontierAgreesWithUnsatisfied(book.states, selected, e.inp.edges, claim);
    SelectedStands(e, book, selected);
    forall d | d in ApprovedTargets(e.inp.edges, claim) ensures d in FirmIn(u, u.start.states) {
      assert d !in Unsatisfied(book.states, e.inp.edges, claim);
    }
    StartIsJustified(u);
    StandingIsCertified(u, row, u.start);
    PassKeepsCertified(u, u.start, NOTHING);
    assert claim in Merged(NOTHING, Pass(u).tally).certified;
  }

  /** A round with its certification is a round of the loop with the certifier's reports. */
  lemma RoundIsReported(e: Evidence, book: Book, selected: set<string>, round: nat)
    ensures AfterRound(e, book, selected).states == ProofRounds.AfterReports(
              book.states, round, FrontierOf(e, book.states, selected), Reports(RoundSetup(e, book, selected)))
  {
    var u := RoundSetup(e, book, selected);
    var ready := FrontierOf(e, book.states, selected);
    StartIsJustified(u);
    PassKeepsFirm(u, u.start);
    var left := AfterRound(e, book, selected).states;
    var reported := ProofRounds.AfterReports(book.states, round, ready, Reports(u));
    assert left.Keys == reported.Keys;
    forall c | c in book.states ensures left[c] == reported[c] {
      ClaimIsReported(u, book.states, ready, round, c);
    }
  }

  lemma ClaimIsReported(u: Setup, states: States, ready: set<string>, round: nat, claim: string)
    requires claim in states && u.start.states == Started(states, ready) && claim in Pass(u).book.states
    ensures var left := Pass(u).book.states[claim];
            ProofRounds.AfterReports(states, round, ready, Reports(u))[claim]
            == if claim in ready && left == Proving then Unresolved else left
  {
  }

  /** What the loop's progress asks of a round follows from what the workers delivered. */
  lemma DeliveredRoundIsProductive(e: Evidence, book: Book, selected: set<string>, round: nat)
    requires SelectionClosed(selected, e.inp.edges) && Delivers(e, book, selected)
    requires FrontierOf(e, book.states, selected) != {}
    ensures ProofRounds.ProductiveRound(
              Reports(RoundSetup(e, book, selected)), selected, round, FrontierOf(e, book.states, selected))
  {
    var u := RoundSetup(e, book, selected);
    var ready := FrontierOf(e, book.states, selected);
    StartIsJustified(u);
    PassKeepsFirm(u, u.start);
    var c :| c in ready;
    FrontierIsCertified(e, book, selected, c);
    assert Reports(u)(round, ready, c) == Some(Certified);
  }

  lemma DeliveredRoundCertifiesFrontier(e: Evidence, book: Book, selected: set<string>)
    requires SelectionClosed(selected, e.inp.edges) && Delivers(e, book, selected)
    ensures forall c :: c in FrontierOf(e, book.states, selected) ==>
              StateOf(AfterRound(e, book, selected).states, c) == Certified
  {
    forall c | c in FrontierOf(e, book.states, selected)
      ensures StateOf(AfterRound(e, book, selected).states, c) == Certified
    {
      FrontierIsCertified(e, book, selected, c);
    }
  }

  // ---- The whole loop ----

  /** The rounds until the frontier is empty. */
  ghost function AfterRounds(rounds: seq<Evidence>, book: Book, selected: set<string>): Book
    decreases |rounds|
  {
    if rounds == [] || FrontierOf(rounds[0], book.states, selected) == {} then book
    else AfterRounds(rounds[1..], AfterRound(rounds[0], book, selected), selected)
  }

  ghost predicate DeliversThroughout(rounds: seq<Evidence>, book: Book, selected: set<string>)
    decreases |rounds|
  {
    rounds == [] || FrontierOf(rounds[0], book.states, selected) == {} ||
    (&& Delivers(rounds[0], book, selected)
     && DeliversThroughout(rounds[1..], AfterRound(rounds[0], book, selected), selected))
  }

  lemma NothingLeft(states: States, selected: set<string>, edges: seq<Edge>)
    requires Acyclic(ProofRounds.SelectionGraph(selected, edges))
    requires ProofRounds.Schedulable(states, selected, edges)
    requires Frontier(states, selected, edges) == {} || |ProofRounds.CertifiedIn(states, selected)| >= |selected|
    ensures selected <= ProofRounds.SatisfiedInside(states, selected, edges)
  {
    if !(selected <= ProofRounds.SatisfiedInside(states, selected, edges)) {
      ProofRounds.UnsatisfiedMeansFrontier(states, selected, edges);
      var c :| c in Frontier(states, selected, edges);
      SubsetSize(ProofRounds.CertifiedIn(states, selected) + {c}, selected);
    }
  }

  /**
   Every round certifies its whole frontier, so an acyclic closed selection whose evidence keeps
   coming is satisfied after at most as many rounds as it has uncertified claims.
   */
  lemma {:induction false} DeliveredRoundsSatisfyAll(rounds: seq<Evidence>, book: Book, selected: set<string>,
                                                     edges: seq<Edge>)
    requires SelectionClosed(selected, edges) && Acyclic(ProofRounds.SelectionGraph(selected, edges))
    requires ProofRounds.Schedulable(book.states, selected, edges) && selected <= book.states.Keys
    requires forall e :: e in rounds ==> e.inp.edges == edges
    requires DeliversThroughout(rounds, book, selected)
    requires |rounds| + |ProofRounds.CertifiedIn(book.states, selected)| >= |selected|
    ensures selected <= ProofRounds.SatisfiedInside(AfterRounds(rounds, book, selected).states, selected, edges)
    decreases |rounds|
  {
    if rounds == [] || FrontierOf(rounds[0], book.states, selected) == {} {
      NothingLeft(book.states, selected, edges);
    } else {
      var e, next := rounds[0], AfterRound(rounds[0], book, selected);
      RoundIsReported(e, book, selected, 0);
      DeliveredRoundIsProductive(e, book, selected, 0);
      ProofRounds.RoundAdvances(book.states, selected, edges, 0, FrontierOf(e, book.states, selected),
                                Reports(RoundSetup(e, book, selected)));
      DeliveredRoundsSatisfyAll(rounds[1..], next, selected, edges);
    }
  }
}
