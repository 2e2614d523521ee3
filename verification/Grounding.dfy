/**
 When repeated certification keeps "every CERTIFIED claim rests on satisfied prerequisites".

 The loop may reject or refute claims that others were certified on, so it need not.  It does when
 the prerequisites stand without the claims that fall.
 */
module Grounding {
  import opened Certification
  import opened ClaimGraph

  predicate IsFall(verdict: Verdict) {
    verdict.Reject? || verdict.Refute?
  }

  /** Claims whose row ends rejected or refuted. */
  ghost function Fallen(u: Setup): set<string> {
    set row | row in u.rows && IsFall(FinalVerdict(u, row)) :: row.claim
  }

  function Without(rules: Rules, gone: set<string>): Rules {
    rules.(base := rules.base - gone, via := rules.via - gone)
  }

  /** The least set when fallen claims neither belong to it nor support anything. */
  ghost function Core(u: Setup): set<string> {
    LeastClosed(Without(CertificationRules(u), Fallen(u)))
  }

  ghost function FirmIn(u: Setup, states: States): set<string> {
    LeastClosed(Without(SatisfactionRules(GraphContext(states, u.inp.edges)), Fallen(u)))
  }

  /** A claim that has not fallen is as it was, or has been certified. */
  ghost predicate Firmer(u: Setup, before: States, after: States) {
    && before.Keys == after.Keys
    && forall c :: c in before && c !in Fallen(u) ==> after[c] in {before[c], Certified}
  }

  lemma FirmIsSatisfied(u: Setup, states: States)
    ensures FirmIn(u, states) <= SatisfiedIn(u, states)
  {
    var rules := SatisfactionRules(GraphContext(states, u.inp.edges));
    LeastClosedMonotone(Without(rules, Fallen(u)), rules);
  }

  lemma FirmGrows(u: Setup, before: States, after: States)
    requires Firmer(u, before, after)
    ensures FirmIn(u, before) <= FirmIn(u, after)
  {
    var old' := Without(SatisfactionRules(GraphContext(before, u.inp.edges)), Fallen(u));
    var new' := Without(SatisfactionRules(GraphContext(after, u.inp.edges)), Fallen(u));
    var s := LeastClosed(new');
    LeastClosedIsClosed(new');
    forall c | c in old'.base ensures c in s {
      assert after[c] in {before[c], Certified};
    }
    forall c | c in old'.via && Premises(old', c) <= s ensures c in s {
      assert Premises(new', c) == Premises(old', c);
      assert after[c] in {before[c], Certified};
      assert c in new'.via || c in new'.base;
    }
    LeastClosedIsLeast(old', s);
  }

  // ---- A pass, without any condition on what is demoted ----

  lemma FallIsFallen(u: Setup, row: Row, states: States)
    requires Justified(u, states) && row in u.rows && IsFall(VerdictFor(u.inp, row, states))
    ensures row.claim in Fallen(u)
  {
    VerdictIsFinal(u, row, states);
  }

  lemma RowKeepsFirm(u: Setup, row: Row, now: Progress)
    requires Justified(u, now.book.states) && row in u.rows
    ensures Firmer(u, now.book.states, AfterRow(u.inp, row, now).book.states)
    ensures AfterRow(u.inp, row, now).tally.rejected <= now.tally.rejected + Fallen(u)
  {
    var verdict := VerdictFor(u.inp, row, now.book.states);
    if IsFall(verdict) {
      FallIsFallen(u, row, now.book.states);
    }
  }

  lemma FirmerJoins(u: Setup, before: States, now: States, after: States)
    requires Firmer(u, before, now) && Firmer(u, now, after)
    ensures Firmer(u, before, after)
  {
  }

  lemma {:induction false} RowsKeepFirm(u: Setup, k: nat, book: Book)
    requires Justified(u, book.states) && k <= |u.rows|
    ensures Firmer(u, book.states, AfterRows(u.inp, u.rows[..k], book).book.states)
    ensures AfterRows(u.inp, u.rows[..k], book).tally.rejected <= Fallen(u)
  {
    if k == 0 {
    } else {
      RowsKeepFirm(u, k - 1, book);
      RowsAreJustified(u, k - 1, book);
      var now := AfterRows(u.inp, u.rows[..k - 1], book);
      assert u.rows[..k][..k - 1] == u.rows[..k - 1];
      RowKeepsFirm(u, u.rows[k - 1], now);
      FirmerJoins(u, book.states, now.book.states, AfterRow(u.inp, u.rows[k - 1], now).book.states);
    }
  }

  lemma PassKeepsFirm(u: Setup, book: Book)
    requires Justified(u, book.states)
    ensures Firmer(u, book.states, AfterPass(u.inp, u.rows, book).book.states)
  {
    RowsKeepFirm(u, |u.rows|, book);
    assert u.rows[..|u.rows|] == u.rows;
  }

  lemma FirmTargetsAreReady(u: Setup, states: States, claim: string)
    requires ApprovedTargets(u.inp.edges, claim) <= FirmIn(u, states)
    ensures Ready(u.inp, states, claim)
  {
    FirmIsSatisfied(u, states);
  }

  lemma {:induction false} TallyGrows(u: Setup, i: nat, k: nat, book: Book)
    requires i <= k <= |u.rows|
    ensures AfterRows(u.inp, u.rows[..i], book).tally.certified <= AfterRows(u.inp, u.rows[..k], book).tally.certified
  {
    if i == k {
    } else {
      TallyGrows(u, i, k - 1, book);
      assert u.rows[..k][..k - 1] == u.rows[..k - 1];
    }
  }

  lemma TallyGrowsToEnd(u: Setup, i: nat, book: Book)
    requires i <= |u.rows|
    ensures AfterRows(u.inp, u.rows[..i], book).tally.certified <= AfterRows(u.inp, u.rows, book).tally.certified
  {
    TallyGrows(u, i, |u.rows|, book);
    assert u.rows[..|u.rows|] == u.rows;
  }

  lemma StandingRowIsCertified(u: Setup, row: Row, before: States, now: Progress)
    requires Judge(u.inp, row, true) == Certify && Firmer(u, before, now.book.states)
    requires ApprovedTargets(u.inp.edges, row.claim) <= FirmIn(u, before)
    ensures row.claim in AfterRow(u.inp, row, now).tally.certified
  {
    FirmGrows(u, before, now.book.states);
    FirmTargetsAreReady(u, now.book.states, row.claim);
  }

  lemma StandingVisitCertifies(u: Setup, i: nat, book: Book)
    requires Justified(u, book.states) && i < |u.rows| && Judge(u.inp, u.rows[i], true) == Certify
    requires ApprovedTargets(u.inp.edges, u.rows[i].claim) <= FirmIn(u, book.states)
    ensures u.rows[i].claim in AfterRows(u.inp, u.rows[..i + 1], book).tally.certified
  {
    RowsKeepFirm(u, i, book);
    StandingRowIsCertified(u, u.rows[i], book.states, AfterRows(u.inp, u.rows[..i], book));
    assert u.rows[..i + 1][..i] == u.rows[..i];
  }

  /** An acceptable claim whose prerequisites stand is certified by the very next pass. */
  lemma StandingIsCertified(u: Setup, row: Row, book: Book)
    requires Justified(u, book.states) && row in u.rows && Judge(u.inp, row, true) == Certify
    requires ApprovedTargets(u.inp.edges, row.claim) <= FirmIn(u, book.states)
    ensures row.claim in AfterRows(u.inp, u.rows, book).tally.certified
  {
    var i :| 0 <= i < |u.rows| && u.rows[i] == row;
    StandingVisitCertifies(u, i, book);
    TallyGrowsToEnd(u, i + 1, book);
  }

  // ---- What ends certified ----

  ghost predicate EndsCertified(u: Setup, claim: string) {
    exists row :: row in u.rows && row.claim == claim && FinalVerdict(u, row) == Certify
  }

  lemma CertifiedHasNotFallen(u: Setup, claim: string)
    requires DistinctClaims(u.rows) && EndsCertified(u, claim)
    ensures claim !in Fallen(u)
  {
  }

  /** Whatever was certified ends so and still is. */
  ghost predicate StaysCertified(u: Setup, certified: set<string>, states: States) {
    forall c :: c in certified ==> EndsCertified(u, c) && StateOf(states, c) == Certified
  }

  lemma StaysThroughFirm(u: Setup, certified: set<string>, before: States, after: States)
    requires DistinctClaims(u.rows) && StaysCertified(u, certified, before) && Firmer(u, before, after)
    ensures StaysCertified(u, certified, after)
  {
    forall c | c in certified ensures StateOf(after, c) == Certified {
      CertifiedHasNotFallen(u, c);
      assert c in before;
    }
  }

  lemma CertifiedByRow(u: Setup, row: Row, now: Progress)
    requires Consistent(u) && Justified(u, now.book.states) && row in u.rows
    requires VerdictFor(u.inp, row, now.book.states) == Certify
    ensures EndsCertified(u, row.claim)
    ensures StateOf(AfterRow(u.inp, row, now).book.states, row.claim) == Certified
  {
    VerdictIsFinal(u, row, now.book.states);
    CertifyMeansReady(u.inp, row, Ready(u.inp, now.book.states, row.claim));
    assert row.claim in u.inp.objects;
  }

  lemma RowKeepsCertified(u: Setup, row: Row, now: Progress)
    requires Consistent(u) && Justified(u, now.book.states) && row in u.rows
    requires StaysCertified(u, now.tally.certified, now.book.states)
    ensures var next := AfterRow(u.inp, row, now);
            StaysCertified(u, next.tally.certified, next.book.states)
  {
    RowKeepsFirm(u, row, now);
    StaysThroughFirm(u, now.tally.certified, now.book.states, AfterRow(u.inp, row, now).book.states);
    if VerdictFor(u.inp, row, now.book.states) == Certify {
      CertifiedByRow(u, row, now);
    }
  }

  lemma {:induction false} RowsKeepCertified(u: Setup, k: nat, book: Book)
    requires Consistent(u) && Justified(u, book.states) && k <= |u.rows|
    ensures var now := AfterRows(u.inp, u.rows[..k], book);
            StaysCertified(u, now.tally.certified, now.book.states)
  {
    if k == 0 {
    } else {
      RowsKeepCertified(u, k - 1, book);
      RowsAreJustified(u, k - 1, book);
      assert u.rows[..k][..k - 1] == u.rows[..k - 1];
      RowKeepsCertified(u, u.rows[k - 1], AfterRows(u.inp, u.rows[..k - 1], book));
    }
  }

  lemma PassKeepsCertified(u: Setup, book: Book, found: Tally)
    requires Consistent(u) && Justified(u, book.states) && StaysCertified(u, found.certified, book.states)
    ensures var pass := AfterPass(u.inp, u.rows, book);
            StaysCertified(u, Merged(found, pass.tally).certified, pass.book.states)
  {
    var end, pass := AfterRows(u.inp, u.rows, book), AfterPass(u.inp, u.rows, book);
    RowsKeepCertified(u, |u.rows|, book);
    RowsKeepFirm(u, |u.rows|, book);
    assert u.rows[..|u.rows|] == u.rows;
    assert Firmer(u, end.book.states, pass.book.states);
    StaysThroughFirm(u, end.tally.certified, end.book.states, pass.book.states);
    PassKeepsFirm(u, book);
    StaysThroughFirm(u, found.certified, book.states, pass.book.states);
  }

  // ---- What is CERTIFIED at the end ----

  /** The row is rejected or refuted in every pass, whatever else happens. */
  predicate SurelyFalls(inp: Inputs, row: Row) {
    IsFall(Judge(inp, row, false))
  }

  /** The claim started CERTIFIED and may have stayed so, or its row ends certified. */
  ghost predicate MayBeCertified(u: Setup, claim: string) {
    || (&& claim in u.start.states && u.start.states[claim] == Certified
        && forall row :: row in u.rows && row.claim == claim ==> !SurelyFalls(u.inp, row))
    || EndsCertified(u, claim)
  }

  ghost predicate Accounted(u: Setup, states: States) {
    forall c :: c in states && states[c] == Certified ==> StateOf(u.start.states, c) == Certified || EndsCertified(u, c)
  }

  lemma RowKeepsAccount(u: Setup, row: Row, now: Progress)
    requires Consistent(u) && Justified(u, now.book.states) && row in u.rows && Accounted(u, now.book.states)
    ensures Accounted(u, AfterRow(u.inp, row, now).book.states)
  {
    if VerdictFor(u.inp, row, now.book.states) == Certify {
      CertifiedByRow(u, row, now);
    }
  }

  lemma {:induction false} RowsKeepAccount(u: Setup, k: nat, book: Book)
    requires Consistent(u) && Justified(u, book.states) && k <= |u.rows| && Accounted(u, book.states)
    ensures Accounted(u, AfterRows(u.inp, u.rows[..k], book).book.states)
  {
    if k == 0 {
    } else {
      RowsKeepAccount(u, k - 1, book);
      RowsAreJustified(u, k - 1, book);
      assert u.rows[..k][..k - 1] == u.rows[..k - 1];
      RowKeepsAccount(u, u.rows[k - 1], AfterRows(u.inp, u.rows[..k - 1], book));
    }
  }

  lemma PassKeepsAccount(u: Setup, book: Book)
    requires Consistent(u) && Justified(u, book.states) && Accounted(u, book.states)
    ensures Accounted(u, AfterPass(u.inp, u.rows, book).book.states)
  {
    RowsKeepAccount(u, |u.rows|, book);
    assert u.rows[..|u.rows|] == u.rows;
  }

  /** The row has been dealt with: it will be demoted, or has been refuted. */
  ghost predicate Felled(row: Row, now: Progress) {
    row.claim in now.tally.rejected || StateOf(now.book.states, row.claim) != Certified
  }

  lemma FallingRowIsFelled(u: Setup, row: Row, now: Progress)
    requires SurelyFalls(u.inp, row)
    ensures Felled(row, AfterRow(u.inp, row, now))
  {
  }

  lemma OtherRowsKeepFelled(u: Setup, row: Row, other: Row, now: Progress)
    requires row.claim != other.claim && Felled(row, now)
    ensures Felled(row, AfterRow(u.inp, other, now))
  {
  }

  lemma {:induction false} RowsAreFelled(u: Setup, i: nat, k: nat, book: Book)
    requires DistinctClaims(u.rows) && i < k <= |u.rows| && SurelyFalls(u.inp, u.rows[i])
    ensures Felled(u.rows[i], AfterRows(u.inp, u.rows[..k], book))
  {
    assert u.rows[..k][..k - 1] == u.rows[..k - 1];
    var now := AfterRows(u.inp, u.rows[..k - 1], book);
    if i == k - 1 {
      FallingRowIsFelled(u, u.rows[i], now);
    } else {
      RowsAreFelled(u, i, k - 1, book);
      OtherRowsKeepFelled(u, u.rows[i], u.rows[k - 1], now);
    }
  }

  lemma PassFells(u: Setup, book: Book, row: Row)
    requires DistinctClaims(u.rows) && row in u.rows && SurelyFalls(u.inp, row)
    ensures StateOf(AfterPass(u.inp, u.rows, book).book.states, row.claim) != Certified
  {
    var i :| 0 <= i < |u.rows| && u.rows[i] == row;
    RowsAreFelled(u, i, |u.rows|, book);
    assert u.rows[..|u.rows|] == u.rows;
  }

  lemma PassLeavesMayBe(u: Setup, book: Book, claim: string)
    requires Consistent(u) && Justified(u, book.states) && Accounted(u, book.states)
    requires StateOf(AfterPass(u.inp, u.rows, book).book.states, claim) == Certified
    ensures MayBeCertified(u, claim)
  {
    PassKeepsAccount(u, book);
    forall row | row in u.rows && row.claim == claim ensures !SurelyFalls(u.inp, row) {
      if SurelyFalls(u.inp, row) {
        PassFells(u, book, row);
      }
    }
  }

  // ---- The loop ----

  lemma QuietPassHoldsCore(u: Setup, book: Book, found: Tally)
    requires Consistent(u) && Justified(u, book.states) && Firmer(u, u.start.states, book.states)
    requires StaysCertified(u, found.certified, book.states)
    requires AfterPass(u.inp, u.rows, book).tally.certified <= found.certified
    ensures Core(u) <= FirmIn(u, book.states)
  {
    var rules := Without(CertificationRules(u), Fallen(u));
    var now := Without(SatisfactionRules(GraphContext(book.states, u.inp.edges)), Fallen(u));
    var s := FirmIn(u, book.states);
    LeastClosedIsClosed(now);
    forall c | c in rules.base ensures c in s {
      assert book.states[c] in {u.start.states[c], Certified};
    }
    forall c | c in rules.via && Premises(rules, c) <= s ensures c in s {
      if c in Acceptable(u) {
        QuietAcceptable(u, book, found, c);
      } else {
        assert Premises(now, c) == Premises(rules, c);
        assert book.states[c] in {u.start.states[c], Certified};
        assert c in now.via || c in now.base;
      }
    }
    LeastClosedIsLeast(rules, s);
  }

  lemma QuietAcceptable(u: Setup, book: Book, found: Tally, claim: string)
    requires Justified(u, book.states) && StaysCertified(u, found.certified, book.states)
    requires AfterPass(u.inp, u.rows, book).tally.certified <= found.certified
    requires claim in Acceptable(u) && claim !in Fallen(u)
    requires Premises(CertificationRules(u), claim) <= FirmIn(u, book.states)
    ensures claim in FirmIn(u, book.states)
  {
    var row :| row in u.rows && Judge(u.inp, row, true) == Certify && row.claim == claim;
    TargetsArePremises(u, claim);
    StandingIsCertified(u, row, book);
    LeastClosedIsClosed(Without(SatisfactionRules(GraphContext(book.states, u.inp.edges)), Fallen(u)));
    assert StateOf(book.states, claim) == Certified;
  }

  lemma TargetsArePremises(u: Setup, claim: string)
    ensures ApprovedTargets(u.inp.edges, claim) == Premises(CertificationRules(u), claim)
  {
    if claim !in ApprovedSources(u.inp.edges) {
      assert ApprovedTargets(u.inp.edges, claim) == {};
    }
  }

  /** Whatever is demoted on the way, the end still satisfies all that stands without the fallen. */
  lemma {:induction false} StabilisedHoldsCore(u: Setup, book: Book, found: Tally)
    requires Consistent(u) && Justified(u, book.states) && Firmer(u, u.start.states, book.states)
    requires StaysCertified(u, found.certified, book.states) && Accounted(u, book.states)
    ensures var end := Stabilised(u.inp, u.rows, book, found).book.states;
            && Core(u) <= FirmIn(u, end)
            && forall c :: StateOf(end, c) == Certified ==> MayBeCertified(u, c)
    decreases RowClaims(u.rows) - found.certified
  {
    var pass := AfterPass(u.inp, u.rows, book);
    CountedHaveRows(u.inp, u.rows, book);
    PassKeepsFirm(u, book);
    if pass.tally.certified <= found.certified {
      QuietPassHoldsCore(u, book, found);
      FirmGrows(u, book.states, pass.book.states);
      forall c | StateOf(pass.book.states, c) == Certified ensures MayBeCertified(u, c) {
        PassLeavesMayBe(u, book, c);
      }
    } else {
      PassIsJustified(u, book);
      FirmerJoins(u, u.start.states, book.states, pass.book.states);
      PassKeepsCertified(u, book, found);
      PassKeepsAccount(u, book);
      StabilisedHoldsCore(u, pass.book, Merged(found, pass.tally));
    }
  }

  lemma StartIsJustified(u: Setup)
    ensures Justified(u, u.start.states)
  {
    LeastClosedIsClosed(CertificationRules(u));
  }

  /** Without any condition on demotions: what ends satisfied lies between the core and the least set. */
  lemma CertifiesBetweenCoreAndLeastSet(u: Setup)
    requires Consistent(u)
    ensures var end := Stabilised(u.inp, u.rows, u.start, NOTHING).book.states;
            Core(u) <= SatisfiedIn(u, end) <= Reachable(u)
  {
    StartIsJustified(u);
    StabilisedHoldsCore(u, u.start, NOTHING);
    FirmIsSatisfied(u, Stabilised(u.inp, u.rows, u.start, NOTHING).book.states);
    CertifiesOnlyTheLeastSet(u);
  }

  // ---- Grounding ----

  /** The prerequisites of all that may end CERTIFIED stand without the claims that fall. */
  ghost predicate TargetsStand(u: Setup) {
    forall c :: MayBeCertified(u, c) ==> ApprovedTargets(u.inp.edges, c) <= Core(u)
  }

  /** Demotions do no harm as long as nothing that stays CERTIFIED leans on what falls. */
  lemma TargetsStandMeansGrounded(u: Setup)
    requires Consistent(u) && TargetsStand(u)
    ensures Grounded(Stabilised(u.inp, u.rows, u.start, NOTHING).book.states, u.inp.edges)
  {
    var end := Stabilised(u.inp, u.rows, u.start, NOTHING).book.states;
    StartIsJustified(u);
    StabilisedHoldsCore(u, u.start, NOTHING);
    forall c | c in end && end[c] == Certified ensures Unsatisfied(end, u.inp.edges, c) == {} {
      assert MayBeCertified(u, c);
      FirmIsSatisfied(u, end);
    }
  }

  lemma NothingDemotedKeepsCore(u: Setup)
    requires NothingDemoted(u)
    ensures Reachable(u) <= Core(u)
  {
    var rules := CertificationRules(u);
    var s := Reachable(u) * Core(u);
    LeastClosedIsClosed(rules);
    LeastClosedIsClosed(Without(rules, Fallen(u)));
    forall c | c in rules.via && Premises(rules, c) <= s ensures c in s {
      assert c in Reachable(u) && c !in Fallen(u);
      assert Premises(Without(rules, Fallen(u)), c) == Premises(rules, c);
    }
    LeastClosedIsLeast(rules, s);
  }

  lemma GroundedTargetsReach(u: Setup, claim: string)
    requires Grounded(u.start.states, u.inp.edges) && MayBeCertified(u, claim)
    ensures ApprovedTargets(u.inp.edges, claim) <= Reachable(u)
  {
    if !EndsCertified(u, claim) {
      StartIsJustified(u);
      JustifiedIsBounded(u, u.start.states);
      NothingUnsatisfied(u, u.start.states, claim);
    } else {
      var row :| row in u.rows && row.claim == claim && FinalVerdict(u, row) == Certify;
      CertifyMeansReady(u.inp, row, ApprovedTargets(u.inp.edges, claim) <= Reachable(u));
    }
  }

  /** In particular when nothing of the least set is demoted. */
  lemma CertificationKeepsGrounded(u: Setup)
    requires WellFormed(u) && Grounded(u.start.states, u.inp.edges)
    ensures Grounded(Stabilised(u.inp, u.rows, u.start, NOTHING).book.states, u.inp.edges)
  {
    NothingDemotedKeepsCore(u);
    forall c | MayBeCertified(u, c) ensures ApprovedTargets(u.inp.edges, c) <= Core(u) {
      GroundedTargetsReach(u, c);
    }
    TargetsStandMeansGrounded(u);
  }
}
