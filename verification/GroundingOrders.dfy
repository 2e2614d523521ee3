/**
 Exactly when certification leaves the store grounded, whatever the order of the rows.

 `Grounding.TargetsStandMeansGrounded` is sufficient for every order.  It is necessary as well,
 unless a claim that starts CERTIFIED falls in some orders only: the order that certifies all it can
 before anything falls then leaves a CERTIFIED claim without its prerequisites.
 */
module GroundingOrders {
  import opened Certification
  import opened ClaimGraph
  import opened Grounding

  ghost predicate GroundedInEveryOrder(u: Setup) {
    forall v :: Reordered(u, v) ==> Grounded(Stabilised(v.inp, v.rows, v.start, NOTHING).book.states, v.inp.edges)
  }

  /** A claim that starts CERTIFIED and falls does so in every pass, ready or not. */
  ghost predicate NoLateFall(u: Setup) {
    forall row :: row in u.rows && StateOf(u.start.states, row.claim) == Certified && IsFall(FinalVerdict(u, row)) ==>
      SurelyFalls(u.inp, row)
  }

  // ---- Nothing depends on the order but the outcome ----

  lemma SameFalls(u: Setup, v: Setup)
    requires Reordered(u, v)
    ensures Fallen(u) == Fallen(v) && Core(u) == Core(v) && Reachable(u) == Reachable(v)
  {
    ReorderedVerdicts(u, v);
    SameReachable(u, v);
    assert Acceptable(u) == Acceptable(v);
  }

  lemma SameMayBe(u: Setup, v: Setup, claim: string)
    requires Reordered(u, v)
    ensures EndsCertified(u, claim) <==> EndsCertified(v, claim)
    ensures MayBeCertified(u, claim) <==> MayBeCertified(v, claim)
  {
    ReorderedVerdicts(u, v);
  }

  lemma StandingIsSufficient(u: Setup)
    requires Consistent(u) && TargetsStand(u)
    ensures GroundedInEveryOrder(u)
  {
    forall v | Reordered(u, v)
      ensures Grounded(Stabilised(v.inp, v.rows, v.start, NOTHING).book.states, v.inp.edges)
    {
      SameFalls(u, v);
      forall c | MayBeCertified(v, c) ensures ApprovedTargets(v.inp.edges, c) <= Core(v) {
        SameMayBe(u, v, c);
      }
      TargetsStandMeansGrounded(v);
    }
  }

  // ---- While nothing falls, satisfaction only grows ----

  ghost predicate Risen(u: Setup, states: States) {
    && states.Keys == u.start.states.Keys
    && forall c :: c in states ==> states[c] in {u.start.states[c], Certified}
  }

  /** Just these claims have been certified. */
  ghost predicate RisenBy(u: Setup, certified: set<string>, states: States) {
    && states.Keys == u.start.states.Keys
    && (forall c :: c in certified ==> StateOf(states, c) == Certified)
    && (forall c :: c in states && c !in certified ==> states[c] == u.start.states[c])
  }

  lemma RisenRow(u: Setup, row: Row, now: Progress)
    requires Risen(u, now.book.states) && VerdictFor(u.inp, row, now.book.states) != Refute
    ensures Risen(u, AfterRow(u.inp, row, now).book.states)
  {
  }

  /** Everything of the least set is satisfied once no acceptable claim is ready and uncertified. */
  lemma RisenIsComplete(u: Setup, states: States)
    requires Risen(u, states)
    requires forall row :: && row in u.rows && Judge(u.inp, row, true) == Certify
                           && ApprovedTargets(u.inp.edges, row.claim) <= SatisfiedIn(u, states) ==>
               StateOf(states, row.claim) == Certified
    ensures Reachable(u) <= SatisfiedIn(u, states)
  {
    var target, now := CertificationRules(u), SatisfactionRules(GraphContext(states, u.inp.edges));
    var s := LeastClosed(now);
    LeastClosedIsClosed(now);
    forall c | c in target.via && Premises(target, c) <= s ensures c in s {
      if c in Acceptable(u) {
        var row :| row in u.rows && Judge(u.inp, row, true) == Certify && row.claim == c;
        TargetsArePremises(u, c);
        assert StateOf(states, row.claim) == Certified;
      } else {
        assert Premises(now, c) == Premises(target, c);
        assert states[c] in {u.start.states[c], Certified};
        assert c in now.base || c in now.via;
      }
    }
    assert target.base <= now.base;
    LeastClosedIsLeast(target, s);
  }

  // ---- All that can be certified, one after another ----

  ghost predicate EndsWell(u: Setup, row: Row) {
    row in u.rows && FinalVerdict(u, row) == Certify
  }

  /** Rows that a pass from the start certifies in this order. */
  ghost predicate Derivation(u: Setup, done: seq<Row>) {
    var now := AfterRows(u.inp, done, u.start);
    && DistinctClaims(done) && (forall row :: row in done ==> EndsWell(u, row))
    && now.tally.certified == RowClaims(done) <= Reachable(u)
    && RisenBy(u, now.tally.certified, now.book.states) && Justified(u, now.book.states)
  }

  lemma SomeRowIsReady(u: Setup, states: States, row: Row) returns (next: Row)
    requires Consistent(u) && Risen(u, states) && Justified(u, states)
    requires EndsWell(u, row) && StateOf(states, row.claim) != Certified
    ensures EndsWell(u, next) && StateOf(states, next.claim) != Certified
    ensures VerdictFor(u.inp, next, states) == Certify
  {
    if forall r :: && r in u.rows && Judge(u.inp, r, true) == Certify
                        && ApprovedTargets(u.inp.edges, r.claim) <= SatisfiedIn(u, states) ==>
              StateOf(states, r.claim) == Certified {
      RisenIsComplete(u, states);
      CertifyMeansReady(u.inp, row, ApprovedTargets(u.inp.edges, row.claim) <= Reachable(u));
      next := row;
    } else {
      next :| && next in u.rows && Judge(u.inp, next, true) == Certify
              && ApprovedTargets(u.inp.edges, next.claim) <= SatisfiedIn(u, states)
              && StateOf(states, next.claim) != Certified;
      JustifiedIsBounded(u, states);
    }
  }

  lemma RowsAppend(inp: Inputs, rows: seq<Row>, row: Row, book: Book)
    ensures AfterRows(inp, rows + [row], book) == AfterRow(inp, row, AfterRows(inp, rows, book))
    ensures RowClaims(rows + [row]) == RowClaims(rows) + {row.claim}
  {
    assert (rows + [row])[..|rows|] == rows;
    assert forall r :: r in rows + [row] <==> r in rows || r == row;
  }

  lemma DistinctAppend(rows: seq<Row>, row: Row)
    requires DistinctClaims(rows) && row.claim !in RowClaims(rows)
    ensures DistinctClaims(rows + [row])
  {
    forall i, j | 0 <= i < j < |rows + [row]| ensures (rows + [row])[i].claim != (rows + [row])[j].claim {
      assert rows[i].claim in RowClaims(rows);
    }
  }

  lemma CertifyingRises(u: Setup, next: Row, now: Progress)
    requires Consistent(u) && RisenBy(u, now.tally.certified, now.book.states) && next in u.rows
    requires VerdictFor(u.inp, next, now.book.states) == Certify
    ensures var after := AfterRow(u.inp, next, now);
            && after.tally.certified == now.tally.certified + {next.claim}
            && RisenBy(u, after.tally.certified, after.book.states)
  {
    CertifyMeansReady(u.inp, next, Ready(u.inp, now.book.states, next.claim));
    assert next.claim in u.inp.objects;
  }

  lemma DerivationGrows(u: Setup, done: seq<Row>, next: Row)
    requires Consistent(u) && Derivation(u, done) && EndsWell(u, next)
    requires var states := AfterRows(u.inp, done, u.start).book.states;
             StateOf(states, next.claim) != Certified && VerdictFor(u.inp, next, states) == Certify
    ensures Derivation(u, done + [next])
  {
    var now := AfterRows(u.inp, done, u.start);
    RowsAppend(u.inp, done, next, u.start);
    DistinctAppend(done, next);
    CertifyingRises(u, next, now);
    RowIsJustified(u, next, now);
  }

  ghost predicate Complete(u: Setup, done: seq<Row>) {
    forall row :: EndsWell(u, row) ==> StateOf(AfterRows(u.inp, done, u.start).book.states, row.claim) == Certified
  }

  lemma {:induction false} DerivationCompletes(u: Setup, done: seq<Row>) returns (all: seq<Row>)
    requires Consistent(u) && Derivation(u, done)
    ensures Derivation(u, all) && Complete(u, all)
    decreases RowClaims(u.rows) - RowClaims(done)
  {
    var states := AfterRows(u.inp, done, u.start).book.states;
    if row :| EndsWell(u, row) && StateOf(states, row.claim) != Certified {
      var next := SomeRowIsReady(u, states, row);
      RowsAppend(u.inp, done, next, u.start);
      DerivationGrows(u, done, next);
      assert next.claim in RowClaims(u.rows) && next.claim !in RowClaims(done);
      all := DerivationCompletes(u, done + [next]);
    } else {
      all := done;
    }
  }

  lemma NoRowsYet(u: Setup)
    ensures Derivation(u, [])
  {
    LeastClosedIsClosed(CertificationRules(u));
    assert RowClaims([]) == {};
  }

  // ---- The order that certifies first ----

  /** The other rows, those that refute or those that do not. */
  ghost function Others(u: Setup, rows: seq<Row>, done: set<string>, refuted: bool): seq<Row> {
    if rows == [] then []
    else
      var k := |rows| - 1;
      Others(u, rows[..k], done, refuted)
      + if rows[k].claim !in done && (FinalVerdict(u, rows[k]) == Refute) == refuted then [rows[k]] else []
  }

  lemma {:induction false} OthersMembers(u: Setup, rows: seq<Row>, done: set<string>, refuted: bool)
    requires DistinctClaims(rows)
    ensures DistinctClaims(Others(u, rows, done, refuted))
    ensures forall row :: row in Others(u, rows, done, refuted) <==>
              row in rows && row.claim !in done && (FinalVerdict(u, row) == Refute) == refuted
    decreases |rows|
  {
    if rows == [] {
    } else {
      var k := |rows| - 1;
      var init := Others(u, rows[..k], done, refuted);
      OthersMembers(u, rows[..k], done, refuted);
      assert rows == rows[..k] + [rows[k]];
      assert rows[k].claim !in RowClaims(rows[..k]);
      if rows[k].claim !in done && (FinalVerdict(u, rows[k]) == Refute) == refuted {
        DistinctAppend(init, rows[k]);
        assert Others(u, rows, done, refuted) == init + [rows[k]];
      }
    }
  }

  lemma DistinctConcat(a: seq<Row>, b: seq<Row>)
    requires DistinctClaims(a) && DistinctClaims(b) && RowClaims(a) !! RowClaims(b)
    ensures DistinctClaims(a + b) && RowClaims(a + b) == RowClaims(a) + RowClaims(b)
  {
    forall i, j | 0 <= i < j < |a + b| ensures (a + b)[i].claim != (a + b)[j].claim {
      if i < |a| <= j {
        assert a[i].claim in RowClaims(a) && b[j - |a|].claim in RowClaims(b);
      }
    }
    assert forall r :: r in a + b <==> r in a || r in b;
  }

  /** First a derivation of all that ends certified, then what does not refute, then the refutations. */
  ghost predicate CertifiesFirst(v: Setup, n: nat, m: nat) {
    && n <= m <= |v.rows| && Derivation(v, v.rows[..n]) && Complete(v, v.rows[..n])
    && (forall i :: n <= i < m ==> FinalVerdict(v, v.rows[i]) != Refute)
    && (forall i :: m <= i < |v.rows| ==> FinalVerdict(v, v.rows[i]) == Refute)
  }

  lemma SameClaimSameRow(rows: seq<Row>, a: Row, b: Row)
    requires DistinctClaims(rows) && a in rows && b in rows && a.claim == b.claim
    ensures a == b
  {
  }

  lemma SameDerivation(u: Setup, v: Setup, done: seq<Row>)
    requires Reordered(u, v) && Derivation(u, done) && Complete(u, done)
    ensures Derivation(v, done) && Complete(v, done)
  {
    ReorderedVerdicts(u, v);
    SameReachable(u, v);
  }

  lemma JoinedIsReordered(u: Setup, done: seq<Row>, q: seq<Row>)
    requires Consistent(u) && DistinctClaims(done) && forall row :: row in done ==> row in u.rows
    requires q == done + Others(u, u.rows, RowClaims(done), false) + Others(u, u.rows, RowClaims(done), true)
    ensures Reordered(u, u.(rows := q))
  {
    var middle, last := Others(u, u.rows, RowClaims(done), false), Others(u, u.rows, RowClaims(done), true);
    OthersMembers(u, u.rows, RowClaims(done), false);
    OthersMembers(u, u.rows, RowClaims(done), true);
    DistinctConcat(done, middle);
    forall a, b | a in middle && b in last ensures a.claim != b.claim {
      if a.claim == b.claim {
        SameClaimSameRow(u.rows, a, b);
      }
    }
    DistinctConcat(done + middle, last);
    forall row ensures row in u.rows <==> row in q {
      if row in u.rows && row.claim in RowClaims(done) {
        var other :| other in done && other.claim == row.claim;
        SameClaimSameRow(u.rows, row, other);
      }
    }
  }

  lemma JoinedParts(done: seq<Row>, middle: seq<Row>, last: seq<Row>)
    ensures var q := done + middle + last;
            && q[..|done|] == done
            && (forall i :: |done| <= i < |done| + |middle| ==> q[i] in middle)
            && (forall i :: |done| + |middle| <= i < |q| ==> q[i] in last)
  {
  }

  lemma JoinedCertifiesFirst(v: Setup, done: seq<Row>, middle: seq<Row>, last: seq<Row>)
    requires v.rows == done + middle + last && Derivation(v, done) && Complete(v, done)
    requires forall row :: row in middle ==> FinalVerdict(v, row) != Refute
    requires forall row :: row in last ==> FinalVerdict(v, row) == Refute
    ensures CertifiesFirst(v, |done|, |done| + |middle|)
  {
    var q := v.rows;
    JoinedParts(done, middle, last);
    assert forall i :: |done| <= i < |done| + |middle| ==> FinalVerdict(v, q[i]) != Refute;
    assert forall i :: |done| + |middle| <= i < |q| ==> FinalVerdict(v, q[i]) == Refute;
  }

  lemma OrderExists(u: Setup) returns (v: Setup, n: nat, m: nat)
    requires Consistent(u)
    ensures Reordered(u, v) && CertifiesFirst(v, n, m)
  {
    NoRowsYet(u);
    var done := DerivationCompletes(u, []);
    var middle, last := Others(u, u.rows, RowClaims(done), false), Others(u, u.rows, RowClaims(done), true);
    OthersMembers(u, u.rows, RowClaims(done), false);
    OthersMembers(u, u.rows, RowClaims(done), true);
    v, n, m := u.(rows := done + middle + last), |done|, |done| + |middle|;
    JoinedIsReordered(u, done, v.rows);
    ReorderedVerdicts(u, v);
    SameDerivation(u, v, done);
    JoinedCertifiesFirst(v, done, middle, last);
  }

  // ---- Its first pass decides everything ----

  /** Nothing has fallen, and all that will end certified is. */
  ghost predicate Topped(v: Setup, states: States) {
    && Risen(v, states) && Justified(v, states)
    && forall row :: EndsWell(v, row) ==> StateOf(states, row.claim) == Certified
  }

  lemma ToppedVerdicts(v: Setup, states: States, row: Row)
    requires Topped(v, states)
    ensures VerdictFor(v.inp, row, states) == FinalVerdict(v, row)
  {
    JustifiedIsBounded(v, states);
    RisenIsComplete(v, states);
    assert Unsatisfied(states, v.inp.edges, row.claim) == {} <==>
           ApprovedTargets(v.inp.edges, row.claim) <= Reachable(v) by {
      assert SatisfiedIn(v, states) == Reachable(v);
      assert forall d :: d in ApprovedTargets(v.inp.edges, row.claim) && d !in Reachable(v) ==>
          d in Unsatisfied(states, v.inp.edges, row.claim);
    }
  }

  lemma ToppedRow(v: Setup, row: Row, now: Progress)
    requires Topped(v, now.book.states) && row in v.rows && FinalVerdict(v, row) != Refute
    requires now.tally.certified <= Reachable(v)
    ensures Topped(v, AfterRow(v.inp, row, now).book.states)
  {
    ToppedVerdicts(v, now.book.states, row);
    RisenRow(v, row, now);
    RowIsJustified(v, row, now);
  }

  lemma DerivationIsTopped(v: Setup, done: seq<Row>)
    requires Derivation(v, done) && Complete(v, done)
    ensures Topped(v, AfterRows(v.inp, done, v.start).book.states)
  {
  }

  lemma NextRow(inp: Inputs, rows: seq<Row>, k: nat, book: Book)
    requires k < |rows|
    ensures AfterRows(inp, rows[..k + 1], book) == AfterRow(inp, rows[k], AfterRows(inp, rows[..k], book))
  {
    assert rows[..k + 1][..k] == rows[..k];
  }

  lemma ToppedNext(v: Setup, k: nat)
    requires k < |v.rows| && FinalVerdict(v, v.rows[k]) != Refute
    requires Topped(v, AfterRows(v.inp, v.rows[..k], v.start).book.states)
    ensures Topped(v, AfterRows(v.inp, v.rows[..k + 1], v.start).book.states)
  {
    StartIsJustified(v);
    RowsAreJustified(v, k, v.start);
    ToppedRow(v, v.rows[k], AfterRows(v.inp, v.rows[..k], v.start));
    NextRow(v.inp, v.rows, k, v.start);
  }

  lemma {:induction false} StaysTopped(v: Setup, n: nat, k: nat)
    requires n <= k <= |v.rows| && Topped(v, AfterRows(v.inp, v.rows[..n], v.start).book.states)
    requires forall i :: n <= i < k ==> FinalVerdict(v, v.rows[i]) != Refute
    ensures Topped(v, AfterRows(v.inp, v.rows[..k], v.start).book.states)
    decreases k
  {
    if k == n {
    } else {
      StaysTopped(v, n, k - 1);
      ToppedNext(v, k - 1);
    }
  }

  /** The claim is about to be rejected, or no longer has a state that counts. */
  ghost predicate Struck(claim: string, now: Progress) {
    claim in now.tally.rejected || StateOf(now.book.states, claim) !in {Certified, SkippedUnproved}
  }

  lemma {:induction false} StruckToEnd(v: Setup, i: nat, k: nat)
    requires DistinctClaims(v.rows) && i < k <= |v.rows|
    requires IsFall(VerdictFor(v.inp, v.rows[i], AfterRows(v.inp, v.rows[..i], v.start).book.states))
    ensures Struck(v.rows[i].claim, AfterRows(v.inp, v.rows[..k], v.start))
    decreases k
  {
    assert v.rows[..k][..k - 1] == v.rows[..k - 1];
    if i < k - 1 {
      StruckToEnd(v, i, k - 1);
      assert v.rows[i].claim != v.rows[k - 1].claim;
    }
  }

  lemma RefutationIsSure(inp: Inputs, row: Row, before: bool, after: bool)
    ensures Judge(inp, row, before) == Refute ==> Judge(inp, row, after) == Refute
  {
  }

  lemma DerivedEndWell(v: Setup, n: nat, m: nat, i: nat)
    requires CertifiesFirst(v, n, m) && i < n
    ensures FinalVerdict(v, v.rows[i]) == Certify
  {
    assert v.rows[..n][i] in v.rows[..n];
    assert EndsWell(v, v.rows[..n][i]);
  }

  lemma FallenAreStruck(v: Setup, n: nat, m: nat, claim: string)
    requires DistinctClaims(v.rows) && CertifiesFirst(v, n, m) && claim in Fallen(v)
    ensures Struck(claim, AfterRows(v.inp, v.rows, v.start))
  {
    var row :| row in v.rows && row.claim == claim && IsFall(FinalVerdict(v, row));
    var i :| 0 <= i < |v.rows| && v.rows[i] == row;
    var states := AfterRows(v.inp, v.rows[..i], v.start).book.states;
    if i < n {
      DerivedEndWell(v, n, m, i);
      assert false;
    } else if i < m {
      DerivationIsTopped(v, v.rows[..n]);
      StaysTopped(v, n, i);
      ToppedVerdicts(v, states, row);
    } else {
      RefutationIsSure(v.inp, row, ApprovedTargets(v.inp.edges, claim) <= Reachable(v), Ready(v.inp, states, claim));
    }
    StruckToEnd(v, i, |v.rows|);
    assert v.rows[..|v.rows|] == v.rows;
  }

  /** Who ends certified is, who starts CERTIFIED and does not fall still is, and who falls has fallen. */
  ghost predicate Decided(v: Setup, states: States) {
    && Justified(v, states)
    && (forall c :: EndsCertified(v, c) ==> StateOf(states, c) == Certified)
    && (forall c :: StateOf(v.start.states, c) == Certified && c !in Fallen(v) ==> StateOf(states, c) == Certified)
    && (forall c :: c in Fallen(v) ==> StateOf(states, c) !in {Certified, SkippedUnproved})
  }

  lemma FirstPassCertifies(v: Setup, n: nat, m: nat, claim: string)
    requires Consistent(v) && CertifiesFirst(v, n, m) && EndsCertified(v, claim)
    ensures StateOf(AfterPass(v.inp, v.rows, v.start).book.states, claim) == Certified
  {
    var row :| row in v.rows && row.claim == claim && FinalVerdict(v, row) == Certify;
    assert EndsWell(v, row);
    StartIsJustified(v);
    if claim in AfterRows(v.inp, v.rows[..n], v.start).tally.certified {
      TallyGrowsToEnd(v, n, v.start);
      PassKeepsCertified(v, v.start, NOTHING);
      assert claim in Merged(NOTHING, AfterPass(v.inp, v.rows, v.start).tally).certified;
    } else {
      PassKeepsFirm(v, v.start);
      CertifiedHasNotFallen(v, claim);
      assert claim in v.start.states && v.start.states[claim] == Certified;
    }
  }

  lemma FirstPassFells(v: Setup, n: nat, m: nat, claim: string)
    requires DistinctClaims(v.rows) && CertifiesFirst(v, n, m) && claim in Fallen(v)
    ensures StateOf(AfterPass(v.inp, v.rows, v.start).book.states, claim) !in {Certified, SkippedUnproved}
  {
    FallenAreStruck(v, n, m, claim);
  }

  lemma FirstPassKeeps(v: Setup, claim: string)
    requires StateOf(v.start.states, claim) == Certified && claim !in Fallen(v)
    ensures StateOf(AfterPass(v.inp, v.rows, v.start).book.states, claim) == Certified
  {
    StartIsJustified(v);
    PassKeepsFirm(v, v.start);
  }

  lemma FirstPassDecides(v: Setup, n: nat, m: nat)
    requires Consistent(v) && CertifiesFirst(v, n, m)
    ensures Decided(v, AfterPass(v.inp, v.rows, v.start).book.states)
  {
    var after := AfterPass(v.inp, v.rows, v.start).book.states;
    StartIsJustified(v);
    PassIsJustified(v, v.start);
    forall c | EndsCertified(v, c) ensures StateOf(after, c) == Certified {
      FirstPassCertifies(v, n, m, c);
    }
    forall c | StateOf(v.start.states, c) == Certified && c !in Fallen(v) ensures StateOf(after, c) == Certified {
      FirstPassKeeps(v, c);
    }
    forall c | c in Fallen(v) ensures StateOf(after, c) !in {Certified, SkippedUnproved} {
      FirstPassFells(v, n, m, c);
    }
  }

  // ---- Later passes change nothing about it ----

  ghost predicate FallenAreDown(v: Setup, states: States) {
    forall c :: c in Fallen(v) ==> StateOf(states, c) !in {Certified, SkippedUnproved}
  }

  lemma RowKeepsDown(v: Setup, row: Row, now: Progress)
    requires Consistent(v) && Justified(v, now.book.states) && row in v.rows && FallenAreDown(v, now.book.states)
    ensures FallenAreDown(v, AfterRow(v.inp, row, now).book.states)
  {
    if VerdictFor(v.inp, row, now.book.states) == Certify {
      CertifiedByRow(v, row, now);
      CertifiedHasNotFallen(v, row.claim);
    }
  }

  lemma {:induction false} RowsKeepDown(v: Setup, k: nat, book: Book)
    requires Consistent(v) && Justified(v, book.states) && k <= |v.rows| && FallenAreDown(v, book.states)
    ensures FallenAreDown(v, AfterRows(v.inp, v.rows[..k], book).book.states)
  {
    if k == 0 {
    } else {
      RowsKeepDown(v, k - 1, book);
      RowsAreJustified(v, k - 1, book);
      assert v.rows[..k][..k - 1] == v.rows[..k - 1];
      RowKeepsDown(v, v.rows[k - 1], AfterRows(v.inp, v.rows[..k - 1], book));
    }
  }

  lemma PassKeepsDown(v: Setup, book: Book)
    requires Consistent(v) && Justified(v, book.states) && FallenAreDown(v, book.states)
    ensures FallenAreDown(v, AfterPass(v.inp, v.rows, book).book.states)
  {
    RowsKeepDown(v, |v.rows|, book);
    assert v.rows[..|v.rows|] == v.rows;
  }

  lemma FirmStaysCertified(v: Setup, before: States, after: States, claim: string)
    requires Firmer(v, before, after) && StateOf(before, claim) == Certified && claim !in Fallen(v)
    ensures StateOf(after, claim) == Certified
  {
  }

  lemma PassKeepsDecided(v: Setup, book: Book)
    requires Consistent(v) && Decided(v, book.states)
    ensures Decided(v, AfterPass(v.inp, v.rows, book).book.states)
  {
    var after := AfterPass(v.inp, v.rows, book).book.states;
    PassIsJustified(v, book);
    PassKeepsFirm(v, book);
    PassKeepsDown(v, book);
    forall c | EndsCertified(v, c) ensures StateOf(after, c) == Certified {
      CertifiedHasNotFallen(v, c);
      FirmStaysCertified(v, book.states, after, c);
    }
    forall c | StateOf(v.start.states, c) == Certified && c !in Fallen(v) ensures StateOf(after, c) == Certified {
      FirmStaysCertified(v, book.states, after, c);
    }
  }

  lemma {:induction false} StabilisedStaysDecided(v: Setup, book: Book, found: Tally)
    requires Consistent(v) && Decided(v, AfterPass(v.inp, v.rows, book).book.states)
    ensures Decided(v, Stabilised(v.inp, v.rows, book, found).book.states)
    decreases RowClaims(v.rows) - found.certified
  {
    var pass := AfterPass(v.inp, v.rows, book);
    CountedHaveRows(v.inp, v.rows, book);
    if !(pass.tally.certified <= found.certified) {
      PassKeepsDecided(v, pass.book);
      StabilisedStaysDecided(v, pass.book, Merged(found, pass.tally));
    }
  }

  // ---- Then grounded certificates need standing prerequisites ----

  lemma SatisfiedIsCore(v: Setup, states: States)
    requires Consistent(v) && Decided(v, states) && Grounded(states, v.inp.edges)
    ensures SatisfiedIn(v, states) <= Core(v)
  {
    var rules := CertificationRules(v);
    var firm := Without(rules, Fallen(v));
    var s := set c | c in Reachable(v) && (c in SatisfiedIn(v, states) ==> c in Core(v));
    JustifiedIsBounded(v, states);
    LeastClosedIsClosed(rules);
    LeastClosedIsClosed(firm);
    forall c | c in rules.base ensures c in s {
      if c in SatisfiedIn(v, states) {
        SatisfiedHasStanding(v, states, c);
        assert c in firm.base;
      }
    }
    forall c | c in rules.via && Premises(rules, c) <= s ensures c in s {
      if c in SatisfiedIn(v, states) {
        SupportIsSatisfied(v, states, c);
        SatisfiedHasStanding(v, states, c);
        assert c in firm.via && Premises(firm, c) == Premises(rules, c);
      }
    }
    LeastClosedIsLeast(rules, s);
  }

  lemma SupportIsSatisfied(v: Setup, states: States, claim: string)
    requires Grounded(states, v.inp.edges) && claim in SatisfiedIn(v, states)
    ensures Premises(CertificationRules(v), claim) <= SatisfiedIn(v, states)
  {
    var now := SatisfactionRules(GraphContext(states, v.inp.edges));
    if claim in now.base {
      NothingUnsatisfied(v, states, claim);
      PremisesAreTargets(v, claim);
    } else {
      LeastClosedUnfolds(now, claim);
      LeastClosedMonotone(now.(via := now.via - {claim}), now);
      assert Premises(now, claim) == Premises(CertificationRules(v), claim);
    }
  }

  lemma StayerHasNotFallen(v: Setup, claim: string)
    requires NoLateFall(v) && StateOf(v.start.states, claim) == Certified
    requires forall row :: row in v.rows && row.claim == claim ==> !SurelyFalls(v.inp, row)
    ensures claim !in Fallen(v)
  {
  }

  lemma MayBeCertifiedIs(v: Setup, states: States, claim: string)
    requires NoLateFall(v) && Decided(v, states) && MayBeCertified(v, claim)
    ensures StateOf(states, claim) == Certified
  {
    if !EndsCertified(v, claim) {
      StayerHasNotFallen(v, claim);
    }
  }

  lemma GroundedMeansStand(v: Setup, states: States)
    requires Consistent(v) && NoLateFall(v) && Decided(v, states) && Grounded(states, v.inp.edges)
    ensures TargetsStand(v)
  {
    SatisfiedIsCore(v, states);
    forall c | MayBeCertified(v, c) ensures ApprovedTargets(v.inp.edges, c) <= Core(v) {
      MayBeCertifiedIs(v, states, c);
      NothingUnsatisfied(v, states, c);
    }
  }

  lemma StandingIsNecessary(u: Setup)
    requires Consistent(u) && NoLateFall(u) && GroundedInEveryOrder(u)
    ensures TargetsStand(u)
  {
    var v, n, m := OrderExists(u);
    var end := Stabilised(v.inp, v.rows, v.start, NOTHING).book.states;
    FirstPassDecides(v, n, m);
    StabilisedStaysDecided(v, v.start, NOTHING);
    assert Grounded(end, v.inp.edges);
    ReorderedVerdicts(u, v);
    GroundedMeansStand(v, end);
    SameFalls(u, v);
    forall c | MayBeCertified(u, c) ensures ApprovedTargets(u.inp.edges, c) <= Core(u) {
      SameMayBe(u, v, c);
    }
  }

  /**
   Every order of the rows leaves the store grounded if and only if the prerequisites of all that may
   end CERTIFIED stand without the claims that fall.
   */
  lemma GroundedInEveryOrderExactly(u: Setup)
    requires Consistent(u) && NoLateFall(u)
    ensures GroundedInEveryOrder(u) <==> TargetsStand(u)
  {
    if GroundedInEveryOrder(u) {
      StandingIsNecessary(u);
    }
    if TargetsStand(u) {
      StandingIsSufficient(u);
    }
  }
}
