/**
 `certify_current_correspondence` and the loop in `verify_project` that repeats it until no
 new claim is certified.

 A pass reads claim states while it changes them, so a row sees what earlier rows of the same
 pass have done.  The rejections it collects are written back only after its row loop.

 The loop is compared with one least fixpoint that knows nothing about passes or row orders:
 the claims that are satisfied at the start, and every claim with an acceptable declaration
 whose prerequisites are in the set.
 */
module Certification {
  import opened Options
  import opened Ordering
  import opened ClaimGraph

  datatype Declaration = Declaration(
    name: string, kind: string, typeHash: string, valueHash: Option<string>, axioms: set<string>)

  /** A correspondence row; the claim id is the table's primary key. */
  datatype Row = Row(claim: string, declaration: string, status: string, approved: bool, run: int)

  datatype Certificate = Certificate(status: string, typeHash: string, declaration: string)

  /** What one pass reads and does not change. */
  datatype Inputs = Inputs(
    run: int,
    objects: set<string>,
    edges: seq<Edge>,
    declarations: map<string, Declaration>,
    baselineAxioms: set<string>)

  datatype Rejection = NotInSnapshot | NoDeclaration | IsAxiom | NoValue | ForbiddenAxioms

  datatype Verdict = Ignore | Pending | Reject(reason: Rejection) | Refute | Certify

  /** The store tables a pass changes. */
  datatype Book = Book(states: States, certificates: map<string, Certificate>)

  predicate EndsWith(s: string, suffix: string) {
    |suffix| <= |s| && s[|s| - |suffix|..] == suffix
  }

  predicate Forbidden(axiomName: string, baseline: set<string>) {
    || axiomName == "sorryAx"
    || EndsWith(axiomName, ".sorryAx")
    || ("ManuscriptVerification." <= axiomName && axiomName !in baseline)
  }

  predicate HasForbiddenAxiom(inp: Inputs, d: Declaration) {
    exists a | a in d.axioms :: Forbidden(a, inp.baselineAxioms)
  }

  /** The branches of the row loop, given whether all direct prerequisites are satisfied. */
  function Judge(inp: Inputs, row: Row, ready: bool): Verdict {
    if row.run != inp.run || !row.approved then Ignore
    else if row.claim !in inp.objects then Reject(NotInSnapshot)
    else if row.declaration !in inp.declarations then Reject(NoDeclaration)
    else
      var d := inp.declarations[row.declaration];
      if d.kind == "axiom" then Reject(IsAxiom)
      else if d.valueHash.None? then Reject(NoValue)
      else if !ready && row.status != "counterexample" then Pending
      else if HasForbiddenAxiom(inp, d) then Reject(ForbiddenAxioms)
      else if row.status == "counterexample" then Refute
      else Certify
  }

  ghost predicate Ready(inp: Inputs, states: States, claim: string) {
    Unsatisfied(states, inp.edges, claim) == {}
  }

  /** The certificate table and claim state after one row, without the deferred rejections. */
  function Recorded(inp: Inputs, row: Row, verdict: Verdict, book: Book): Book
    requires verdict in {Refute, Certify} ==> row.declaration in inp.declarations
  {
    match verdict
    case Refute =>
      Book(SetState(book.states, row.claim, CounterexampleFound),
           book.certificates[row.claim := CertificateFor(inp, row, "COUNTEREXAMPLE")])
    case Certify =>
      Book(SetState(book.states, row.claim, Certified),
           book.certificates[row.claim := CertificateFor(inp, row, "CERTIFIED")])
    case _ => book
  }

  function CertificateFor(inp: Inputs, row: Row, status: string): Certificate
    requires row.declaration in inp.declarations
  {
    var d := inp.declarations[row.declaration];
    Certificate(status, d.typeHash, d.name)
  }

  /** A prior certificate of the same formal type lets a stale claim be reconciled. */
  predicate Reconciles(inp: Inputs, row: Row, book: Book)
    requires row.declaration in inp.declarations
  {
    && row.claim in book.certificates
    && book.certificates[row.claim].typeHash == inp.declarations[row.declaration].typeHash
    && book.certificates[row.claim].status == "CERTIFIED"
    && row.claim in book.states
    && book.states[row.claim] in {DirtySource, Invalidated}
  }

  // ---- A pass as a function of the rows seen so far ----

  /** The four result lists, as sets: a claim has one row. */
  datatype Tally = Tally(certified: set<string>, reconciled: set<string>, counterexamples: set<string>,
                         rejected: set<string>)

  function Counted(tally: Tally, claim: string, verdict: Verdict, reconciles: bool): Tally {
    match verdict
    case Certify =>
      tally.(certified := tally.certified + {claim},
             reconciled := if reconciles then tally.reconciled + {claim} else tally.reconciled)
    case Refute => tally.(counterexamples := tally.counterexamples + {claim})
    case Reject(_) => tally.(rejected := tally.rejected + {claim})
    case _ => tally
  }

  datatype Progress = Progress(book: Book, tally: Tally)

  ghost function VerdictFor(inp: Inputs, row: Row, states: States): Verdict {
    Judge(inp, row, Ready(inp, states, row.claim))
  }

  ghost function AfterRow(inp: Inputs, row: Row, before: Progress): Progress {
    var verdict := VerdictFor(inp, row, before.book.states);
    Progress(Recorded(inp, row, verdict, before.book),
             Counted(before.tally, row.claim, verdict,
                     verdict == Certify && Reconciles(inp, row, before.book)))
  }

  ghost function AfterRows(inp: Inputs, rows: seq<Row>, book: Book): Progress {
    if rows == [] then Progress(book, Tally({}, {}, {}, {}))
    else AfterRow(inp, rows[|rows| - 1], AfterRows(inp, rows[..|rows| - 1], book))
  }

  function Demoted(states: States, claims: set<string>): States {
    map c | c in states :: if c in claims then FailedFormalization else states[c]
  }

  /** A whole pass: the row loop, then the deferred rejections. */
  ghost function AfterPass(inp: Inputs, rows: seq<Row>, book: Book): Progress {
    var end := AfterRows(inp, rows, book);
    end.(book := end.book.(states := Demoted(end.book.states, end.tally.rejected)))
  }

  // ---- Repeating the pass until it certifies nothing new ----

  ghost predicate DistinctClaims(rows: seq<Row>) {
    forall i, j :: 0 <= i < j < |rows| ==> rows[i].claim != rows[j].claim
  }

  function RowClaims(rows: seq<Row>): set<string> {
    set row | row in rows :: row.claim
  }

  const NOTHING := Tally({}, {}, {}, {})

  function Merged(found: Tally, pass: Tally): Tally {
    Tally(found.certified + pass.certified, found.reconciled + pass.reconciled,
          found.counterexamples + pass.counterexamples, {})
  }

  /** The `while True` loop: stop after the first pass that certifies nothing new. */
  ghost function Stabilised(inp: Inputs, rows: seq<Row>, book: Book, found: Tally): Progress
    decreases RowClaims(rows) - found.certified
  {
    CountedHaveRows(inp, rows, book);
    var pass := AfterPass(inp, rows, book);
    if pass.tally.certified <= found.certified then Progress(pass.book, Merged(found, pass.tally))
    else Stabilised(inp, rows, pass.book, Merged(found, pass.tally))
  }

  lemma {:induction false} CountedHaveRows(inp: Inputs, rows: seq<Row>, book: Book)
    ensures var tally := AfterRows(inp, rows, book).tally;
            && tally.certified <= RowClaims(rows) && tally.reconciled <= RowClaims(rows)
            && tally.counterexamples <= RowClaims(rows) && tally.rejected <= RowClaims(rows)
  {
    if rows == [] {
    } else {
      var k := |rows| - 1;
      CountedHaveRows(inp, rows[..k], book);
      assert RowClaims(rows[..k]) <= RowClaims(rows);
      assert rows[k].claim in RowClaims(rows);
    }
  }

  // ---- What the loop amounts to ----

  /** The tables at the start of the loop, with everything it reads. */
  datatype Setup = Setup(inp: Inputs, rows: seq<Row>, start: Book)

  /** Claims whose row is approved, current and maps to an acceptable declaration. */
  ghost function Acceptable(u: Setup): set<string> {
    set row | row in u.rows && Judge(u.inp, row, true) == Certify :: row.claim
  }

  /** Satisfaction in the starting states, plus: an acceptable claim may join after its prerequisites. */
  ghost function CertificationRules(u: Setup): Rules {
    var base := SatisfactionRules(GraphContext(u.start.states, u.inp.edges));
    base.(via := base.via + Acceptable(u))
  }

  /** The least set closed under the two rules. */
  ghost function Reachable(u: Setup): set<string> {
    LeastClosed(CertificationRules(u))
  }

  /** What a row comes to once everything in the least set is satisfied. */
  ghost function FinalVerdict(u: Setup, row: Row): Verdict {
    Judge(u.inp, row, ApprovedTargets(u.inp.edges, row.claim) <= Reachable(u))
  }

  ghost function ClaimsWith(u: Setup, verdict: Verdict): set<string> {
    set row | row in u.rows && FinalVerdict(u, row) == verdict :: row.claim
  }

  function StateFor(verdict: Verdict, prior: ClaimState): ClaimState {
    match verdict
    case Certify => Certified
    case Refute => CounterexampleFound
    case Reject(_) => FailedFormalization
    case _ => prior
  }

  ghost function SettledState(u: Setup, claim: string): ClaimState
    requires claim in u.start.states
  {
    if row :| row in u.rows && row.claim == claim
    then StateFor(FinalVerdict(u, row), u.start.states[claim])
    else u.start.states[claim]
  }

  /** No claim that is going to be rejected or refuted belongs to the least set. */
  ghost predicate NothingDemoted(u: Setup) {
    forall row :: row in u.rows && (FinalVerdict(u, row).Reject? || FinalVerdict(u, row).Refute?) ==>
      row.claim !in Reachable(u)
  }

  /** One row to a claim, and every object has a claim row. */
  ghost predicate Consistent(u: Setup) {
    DistinctClaims(u.rows) && u.inp.objects <= u.start.states.Keys
  }

  ghost predicate WellFormed(u: Setup) {
    Consistent(u) && NothingDemoted(u)
  }

  /** Every claim is either untouched or already where it will end. */
  ghost predicate OnTheWay(u: Setup, states: States) {
    && states.Keys == u.start.states.Keys
    && forall c :: c in states ==> states[c] == u.start.states[c] || states[c] == SettledState(u, c)
  }

  /** Nothing of the least set that counted towards satisfaction stops counting. */
  ghost predicate KeepsStanding(u: Setup, before: States, after: States) {
    && before.Keys == after.Keys
    && forall c :: c in before && c in Reachable(u) ==> StandingKept(before[c], after[c])
  }

  predicate StandingKept(before: ClaimState, after: ClaimState) {
    && (before == Certified ==> after == Certified)
    && (before == SkippedUnproved ==> after in {SkippedUnproved, Certified})
  }

  ghost function SatisfiedIn(u: Setup, states: States): set<string> {
    SatisfiedClaims(GraphContext(states, u.inp.edges))
  }

  lemma StandingKeepsSatisfied(u: Setup, before: States, after: States)
    requires KeepsStanding(u, before, after) && SatisfiedIn(u, before) <= Reachable(u)
    ensures SatisfiedIn(u, before) <= SatisfiedIn(u, after)
  {
    var old', new' := SatisfactionRules(GraphContext(before, u.inp.edges)), SatisfactionRules(GraphContext(after, u.inp.edges));
    var s := LeastClosed(new') * LeastClosed(old');
    LeastClosedIsClosed(new');
    LeastClosedIsClosed(old');
    forall c | c in old'.base ensures c in s {
      assert c in LeastClosed(old') && StandingKept(before[c], after[c]);
    }
    forall c | c in old'.via && Premises(old', c) <= s ensures c in s {
      assert Premises(new', c) == Premises(old', c);
      assert c in LeastClosed(old') && StandingKept(before[c], after[c]);
      assert c in new'.via || c in new'.base;
    }
    LeastClosedIsLeast(old', s);
  }

  lemma RowSettles(u: Setup, row: Row)
    requires DistinctClaims(u.rows) && row in u.rows && row.claim in u.start.states
    ensures SettledState(u, row.claim) == StateFor(FinalVerdict(u, row), u.start.states[row.claim])
  {
    var other :| other in u.rows && other.claim == row.claim
      && SettledState(u, row.claim) == StateFor(FinalVerdict(u, other), u.start.states[row.claim]);
  }

  /** What counts now counted at the start or belongs to the least set. */
  ghost predicate Justified(u: Setup, states: States) {
    && states.Keys == u.start.states.Keys
    && (forall c :: c in states && states[c] == Certified ==> c in Reachable(u))
    && (forall c :: c in states && states[c] == SkippedUnproved ==> u.start.states[c] == SkippedUnproved)
  }

  lemma JustifiedIsBounded(u: Setup, states: States)
    requires Justified(u, states)
    ensures SatisfiedIn(u, states) <= Reachable(u)
  {
    var target, now := CertificationRules(u), SatisfactionRules(GraphContext(states, u.inp.edges));
    LeastClosedIsClosed(target);
    forall c | c in now.via && Premises(now, c) <= Reachable(u) ensures c in Reachable(u) {
      assert c in target.via && Premises(target, c) == Premises(now, c);
    }
    LeastClosedIsLeast(now, Reachable(u));
  }

  lemma PremisesAreTargets(u: Setup, claim: string)
    ensures Premises(CertificationRules(u), claim) <= ApprovedTargets(u.inp.edges, claim)
  {
  }

  /** The least set is closed under certification of acceptable claims. */
  lemma AcceptableJoins(u: Setup, claim: string)
    requires claim in Acceptable(u) && ApprovedTargets(u.inp.edges, claim) <= Reachable(u)
    ensures claim in Reachable(u)
  {
    var target := CertificationRules(u);
    LeastClosedIsClosed(target);
    PremisesAreTargets(u, claim);
    assert claim in target.via;
  }

  lemma CertifyMeansReady(inp: Inputs, row: Row, ready: bool)
    requires Judge(inp, row, ready) == Certify
    ensures ready && Judge(inp, row, true) == Certify
  {
  }

  lemma SettledByItsRow(u: Setup, claim: string)
    requires claim in u.start.states && SettledState(u, claim) != u.start.states[claim]
    ensures exists row :: && row in u.rows && row.claim == claim
                          && SettledState(u, claim) == StateFor(FinalVerdict(u, row), u.start.states[claim])
  {
  }

  lemma CertifiedIsReachable(u: Setup, states: States, claim: string)
    requires WellFormed(u) && OnTheWay(u, states) && claim in states && states[claim] == Certified
    ensures claim in Reachable(u)
  {
    if u.start.states[claim] == Certified {
      LeastClosedIsClosed(CertificationRules(u));
    } else {
      SettledByItsRow(u, claim);
      var row :| row in u.rows && row.claim == claim && FinalVerdict(u, row) == Certify;
      CertifyMeansReady(u.inp, row, ApprovedTargets(u.inp.edges, claim) <= Reachable(u));
      assert claim in Acceptable(u);
      AcceptableJoins(u, claim);
    }
  }

  lemma OnTheWayIsJustified(u: Setup, states: States)
    requires WellFormed(u) && OnTheWay(u, states)
    ensures Justified(u, states)
  {
    forall c | c in states && states[c] == Certified ensures c in Reachable(u) {
      CertifiedIsReachable(u, states, c);
    }
  }

  /** On the way, nothing is satisfied that is not in the least set. */
  lemma SatisfiedIsBounded(u: Setup, states: States)
    requires WellFormed(u) && OnTheWay(u, states)
    ensures SatisfiedIn(u, states) <= Reachable(u)
  {
    OnTheWayIsJustified(u, states);
    JustifiedIsBounded(u, states);
  }

  lemma NothingUnsatisfied(u: Setup, states: States, claim: string)
    requires Ready(u.inp, states, claim)
    ensures ApprovedTargets(u.inp.edges, claim) <= SatisfiedIn(u, states)
  {
    forall d | d in ApprovedTargets(u.inp.edges, claim) ensures d in SatisfiedIn(u, states) {
      assert d !in Unsatisfied(states, u.inp.edges, claim);
    }
  }

  /** A verdict reached on the way is the final one, unless the row is still pending. */
  lemma VerdictIsFinal(u: Setup, row: Row, states: States)
    requires Justified(u, states)
    ensures VerdictFor(u.inp, row, states) != Pending ==>
              VerdictFor(u.inp, row, states) == FinalVerdict(u, row)
  {
    JustifiedIsBounded(u, states);
    if Ready(u.inp, states, row.claim) {
      NothingUnsatisfied(u, states, row.claim);
    }
  }

  /** The verdict does not get worse as standing is kept. */
  lemma VerdictPersists(u: Setup, row: Row, before: States, after: States)
    requires WellFormed(u) && OnTheWay(u, before) && OnTheWay(u, after) && KeepsStanding(u, before, after)
    ensures VerdictFor(u.inp, row, before) != Pending ==>
              VerdictFor(u.inp, row, after) == VerdictFor(u.inp, row, before)
  {
    SatisfiedIsBounded(u, before);
    StandingKeepsSatisfied(u, before, after);
    if Ready(u.inp, before, row.claim) {
      NothingUnsatisfied(u, before, row.claim);
    }
    JudgePersists(u.inp, row, Ready(u.inp, before, row.claim), Ready(u.inp, after, row.claim));
  }

  lemma JudgePersists(inp: Inputs, row: Row, before: bool, after: bool)
    requires before ==> after
    ensures Judge(inp, row, before) != Pending ==> Judge(inp, row, after) == Judge(inp, row, before)
  {
  }

  /** One row visited during a pass that started from `book`. */
  ghost predicate Visited(u: Setup, row: Row, book: Book, now: Progress) {
    var first := VerdictFor(u.inp, row, book.states);
    && (row.claim in now.tally.certified ==>
          FinalVerdict(u, row) == Certify && StateOf(now.book.states, row.claim) == Certified)
    && (row.claim in now.tally.counterexamples ==>
          FinalVerdict(u, row) == Refute && StateOf(now.book.states, row.claim)
          == if row.claim in now.book.states then CounterexampleFound else Discovered)
    && (row.claim in now.tally.rejected ==> FinalVerdict(u, row).Reject?)
    && (first == Certify ==> row.claim in now.tally.certified)
    && (first == Refute ==> row.claim in now.tally.counterexamples)
    && (first.Reject? ==> row.claim in now.tally.rejected)
    && (row.claim in now.tally.reconciled <==>
        && row.claim in now.tally.certified
        && row.declaration in u.inp.declarations && Reconciles(u.inp, row, book))
    && (row.claim !in now.tally.certified + now.tally.counterexamples ==>
          SameRecord(row.claim, book, now.book))
  }

  ghost predicate SameRecord(claim: string, before: Book, after: Book) {
    && (claim in before.states <==> claim in after.states)
    && StateOf(after.states, claim) == StateOf(before.states, claim)
    && (claim in before.certificates <==> claim in after.certificates)
    && (claim in before.certificates ==> after.certificates[claim] == before.certificates[claim])
  }

  ghost predicate Unvisited(row: Row, book: Book, now: Progress) {
    && row.claim !in now.tally.certified + now.tally.reconciled + now.tally.counterexamples + now.tally.rejected
    && SameRecord(row.claim, book, now.book)
  }

  ghost predicate MidPass(u: Setup, k: nat, book: Book, now: Progress)
    requires k <= |u.rows|
  {
    && OnTheWay(u, now.book.states)
    && KeepsStanding(u, book.states, now.book.states)
    && (forall i :: 0 <= i < k ==> Visited(u, u.rows[i], book, now))
    && (forall i :: k <= i < |u.rows| ==> Unvisited(u.rows[i], book, now))
  }

  lemma {:induction false} PassSoFar(u: Setup, k: nat, book: Book)
    requires WellFormed(u) && OnTheWay(u, book.states) && k <= |u.rows|
    ensures MidPass(u, k, book, AfterRows(u.inp, u.rows[..k], book))
  {
    if k == 0 {
    } else {
      PassSoFar(u, k - 1, book);
      assert u.rows[..k][..k - 1] == u.rows[..k - 1];
      VisitOne(u, k - 1, book, AfterRows(u.inp, u.rows[..k - 1], book));
    }
  }

  /** Recording a final verdict keeps the states on their way and loses no standing. */
  lemma RecordingKeepsTrack(u: Setup, row: Row, now: Progress)
    requires WellFormed(u) && OnTheWay(u, now.book.states) && row in u.rows
    ensures OnTheWay(u, AfterRow(u.inp, row, now).book.states)
    ensures KeepsStanding(u, now.book.states, AfterRow(u.inp, row, now).book.states)
  {
    OnTheWayIsJustified(u, now.book.states);
    VerdictIsFinal(u, row, now.book.states);
    if row.claim in u.start.states {
      RowSettles(u, row);
      FinalStateKeepsTrack(u, row, now.book.states);
    }
  }

  lemma SettlingKeepsTrack(u: Setup, states: States, claim: string)
    requires OnTheWay(u, states) && claim in u.start.states
    ensures OnTheWay(u, SetState(states, claim, SettledState(u, claim)))
  {
  }

  lemma StandingChange(u: Setup, states: States, claim: string, state: ClaimState)
    requires state == Certified || claim !in Reachable(u)
    ensures KeepsStanding(u, states, SetState(states, claim, state))
  {
  }

  lemma FinalStateKeepsTrack(u: Setup, row: Row, states: States)
    requires WellFormed(u) && OnTheWay(u, states) && row in u.rows && row.claim in u.start.states
    requires SettledState(u, row.claim) == StateFor(FinalVerdict(u, row), u.start.states[row.claim])
    ensures var after := SetState(states, row.claim, SettledState(u, row.claim));
            FinalVerdict(u, row) in {Certify, Refute} ==> OnTheWay(u, after) && KeepsStanding(u, states, after)
  {
    SettlingKeepsTrack(u, states, row.claim);
    var verdict := FinalVerdict(u, row);
    if verdict == Certify || verdict == Refute {
      StandingChange(u, states, row.claim, SettledState(u, row.claim));
    }
  }

  lemma VisitSelf(u: Setup, row: Row, book: Book, now: Progress)
    requires WellFormed(u) && OnTheWay(u, book.states) && row in u.rows
    requires OnTheWay(u, now.book.states) && KeepsStanding(u, book.states, now.book.states)
    requires Unvisited(row, book, now)
    ensures Visited(u, row, book, AfterRow(u.inp, row, now))
  {
    OnTheWayIsJustified(u, now.book.states);
    VerdictIsFinal(u, row, now.book.states);
    VerdictPersists(u, row, book.states, now.book.states);
    assert Judge(u.inp, row, true) == Certify ==> row.claim in u.inp.objects;
  }

  lemma VisitOthers(u: Setup, other: Row, row: Row, book: Book, now: Progress)
    requires other.claim != row.claim
    ensures Visited(u, other, book, now) ==> Visited(u, other, book, AfterRow(u.inp, row, now))
    ensures Unvisited(other, book, now) ==> Unvisited(other, book, AfterRow(u.inp, row, now))
  {
  }

  lemma VisitOne(u: Setup, k: nat, book: Book, now: Progress)
    requires WellFormed(u) && OnTheWay(u, book.states) && k < |u.rows|
    requires MidPass(u, k, book, now)
    ensures MidPass(u, k + 1, book, AfterRow(u.inp, u.rows[k], now))
  {
    var row := u.rows[k];
    var next := AfterRow(u.inp, row, now);
    RecordingKeepsTrack(u, row, now);
    assert Unvisited(row, book, now);
    VisitSelf(u, row, book, now);
    forall i | 0 <= i < |u.rows| && i != k
      ensures Visited(u, u.rows[i], book, now) ==> Visited(u, u.rows[i], book, next)
      ensures Unvisited(u.rows[i], book, now) ==> Unvisited(u.rows[i], book, next)
    {
      VisitOthers(u, u.rows[i], row, book, now);
    }
  }

  // ---- The loop ----

  ghost predicate ReconciledRow(u: Setup, row: Row) {
    row.declaration in u.inp.declarations && Reconciles(u.inp, row, u.start)
  }

  ghost predicate BetweenPasses(u: Setup, book: Book, found: Tally) {
    && OnTheWay(u, book.states)
    && KeepsStanding(u, u.start.states, book.states)
    && found.certified + found.reconciled + found.counterexamples <= RowClaims(u.rows)
    && forall row :: row in u.rows ==> RowBetweenPasses(u, row, book, found)
  }

  ghost predicate RowBetweenPasses(u: Setup, row: Row, book: Book, found: Tally) {
    && (row.claim in found.certified ==>
          FinalVerdict(u, row) == Certify && StateOf(book.states, row.claim) == Certified)
    && (row.claim in found.counterexamples ==> FinalVerdict(u, row) == Refute)
    && (FinalVerdict(u, row) == Certify && row.claim !in found.certified ==>
          SameRecord(row.claim, u.start, book))
    && (row.claim in found.reconciled <==> row.claim in found.certified && ReconciledRow(u, row))
  }

  lemma WholePass(u: Setup, book: Book)
    requires WellFormed(u) && OnTheWay(u, book.states)
    ensures MidPass(u, |u.rows|, book, AfterRows(u.inp, u.rows, book))
    ensures forall row :: row in u.rows ==> Visited(u, row, book, AfterRows(u.inp, u.rows, book))
  {
    PassSoFar(u, |u.rows|, book);
    assert u.rows[..|u.rows|] == u.rows;
  }

  lemma RowVisited(u: Setup, row: Row, book: Book)
    requires WellFormed(u) && OnTheWay(u, book.states) && row in u.rows
    ensures Visited(u, row, book, AfterRows(u.inp, u.rows, book))
  {
    WholePass(u, book);
  }

  lemma RowOfRejected(u: Setup, book: Book, claim: string) returns (row: Row)
    requires claim in AfterRows(u.inp, u.rows, book).tally.rejected
    ensures row in u.rows && row.claim == claim
  {
    CountedHaveRows(u.inp, u.rows, book);
    row :| row in u.rows && row.claim == claim;
  }

  lemma RejectedEndsRejected(u: Setup, book: Book, claim: string)
    requires WellFormed(u) && OnTheWay(u, book.states) && claim in u.start.states
    requires claim in AfterRows(u.inp, u.rows, book).tally.rejected
    ensures SettledState(u, claim) == FailedFormalization
    ensures claim !in Reachable(u)
  {
    var row := RowOfRejected(u, book, claim);
    RowVisited(u, row, book);
    RowSettles(u, row);
  }

  lemma DemotingKeepsTrack(u: Setup, before: States, states: States, rejected: set<string>)
    requires OnTheWay(u, states) && KeepsStanding(u, before, states)
    requires forall c :: c in rejected && c in u.start.states ==>
      SettledState(u, c) == FailedFormalization && c !in Reachable(u)
    ensures OnTheWay(u, Demoted(states, rejected)) && KeepsStanding(u, before, Demoted(states, rejected))
  {
  }

  /** The deferred rejections hit only claims that end rejected. */
  lemma DemotionKeepsTrack(u: Setup, book: Book)
    requires WellFormed(u) && OnTheWay(u, book.states)
    ensures var end, pass := AfterRows(u.inp, u.rows, book), AfterPass(u.inp, u.rows, book);
            && OnTheWay(u, pass.book.states)
            && KeepsStanding(u, book.states, pass.book.states)
            && forall row :: row in u.rows && row.claim !in end.tally.rejected ==>
                 SameRecord(row.claim, end.book, pass.book)
  {
    var end := AfterRows(u.inp, u.rows, book);
    WholePass(u, book);
    forall c | c in end.tally.rejected && c in u.start.states
      ensures SettledState(u, c) == FailedFormalization && c !in Reachable(u)
    {
      RejectedEndsRejected(u, book, c);
    }
    DemotingKeepsTrack(u, book.states, end.book.states, end.tally.rejected);
  }

  lemma PassKeepsRow(u: Setup, row: Row, book: Book, found: Tally)
    requires WellFormed(u) && BetweenPasses(u, book, found) && row in u.rows
    ensures var pass := AfterPass(u.inp, u.rows, book);
            RowBetweenPasses(u, row, pass.book, Merged(found, pass.tally))
  {
    var end, pass := AfterRows(u.inp, u.rows, book), AfterPass(u.inp, u.rows, book);
    WholePass(u, book);
    DemotionKeepsTrack(u, book);
    assert Visited(u, row, book, end);
    assert RowBetweenPasses(u, row, book, found);
    if FinalVerdict(u, row) == Certify {
      assert row.claim !in end.tally.rejected && row.claim !in end.tally.counterexamples;
      assert row.claim in found.certified ==> StateOf(book.states, row.claim) == Certified;
    }
  }

  lemma PassKeepsInvariant(u: Setup, book: Book, found: Tally)
    requires WellFormed(u) && BetweenPasses(u, book, found)
    ensures var pass := AfterPass(u.inp, u.rows, book);
            BetweenPasses(u, pass.book, Merged(found, pass.tally))
  {
    DemotionKeepsTrack(u, book);
    CountedHaveRows(u.inp, u.rows, book);
    forall row | row in u.rows
      ensures RowBetweenPasses(u, row, AfterPass(u.inp, u.rows, book).book,
                               Merged(found, AfterPass(u.inp, u.rows, book).tally))
    {
      PassKeepsRow(u, row, book, found);
    }
  }

  /** When a pass certifies nothing new, everything in the least set was satisfied before it. */
  lemma QuietPassIsComplete(u: Setup, book: Book, found: Tally)
    requires WellFormed(u) && BetweenPasses(u, book, found)
    requires AfterPass(u.inp, u.rows, book).tally.certified <= found.certified
    ensures SatisfiedIn(u, book.states) == Reachable(u)
  {
    var end := AfterRows(u.inp, u.rows, book);
    var target := CertificationRules(u);
    var now := SatisfactionRules(GraphContext(book.states, u.inp.edges));
    var s := LeastClosed(now);
    LeastClosedIsClosed(now);
    WholePass(u, book);
    SatisfiedIsBounded(u, book.states);
    forall c | c in target.via && Premises(target, c) <= s ensures c in s {
      assert Premises(now, c) == Premises(target, c);
      if c in Acceptable(u) {
        var row :| row in u.rows && Judge(u.inp, row, true) == Certify && row.claim == c;
        assert Premises(now, c) == ApprovedTargets(u.inp.edges, c) || ApprovedTargets(u.inp.edges, c) == {};
        assert Unsatisfied(book.states, u.inp.edges, c) == {};
        assert Visited(u, row, book, end);
        assert RowBetweenPasses(u, row, book, found);
        assert c in now.base;
      } else {
        assert c in now.base || c in now.via;
      }
    }
    assert target.base <= now.base;
    LeastClosedIsLeast(target, s);
  }

  ghost function SettledStates(u: Setup): States {
    map c | c in u.start.states :: SettledState(u, c)
  }

  ghost function ReconciledClaims(u: Setup): set<string> {
    set row | row in u.rows && FinalVerdict(u, row) == Certify && ReconciledRow(u, row) :: row.claim
  }

  /** The loop's outcome, told without mentioning passes or row order. */
  ghost predicate IsSettled(u: Setup, r: Progress) {
    && r.book.states == SettledStates(u)
    && r.tally.certified == ClaimsWith(u, Certify)
    && r.tally.reconciled == ReconciledClaims(u)
    && r.tally.counterexamples == ClaimsWith(u, Refute)
    && SatisfiedIn(u, r.book.states) == Reachable(u)
  }

  lemma QuietPassVerdicts(u: Setup, row: Row, book: Book, found: Tally)
    requires WellFormed(u) && BetweenPasses(u, book, found) && row in u.rows
    requires AfterPass(u.inp, u.rows, book).tally.certified <= found.certified
    ensures var end := AfterRows(u.inp, u.rows, book);
            && (row.claim in end.tally.certified <==> FinalVerdict(u, row) == Certify)
            && (row.claim in end.tally.counterexamples <==> FinalVerdict(u, row) == Refute)
            && (row.claim in end.tally.rejected <==> FinalVerdict(u, row).Reject?)
  {
    QuietPassIsComplete(u, book, found);
    WholePass(u, book);
    assert Visited(u, row, book, AfterRows(u.inp, u.rows, book));
    assert Unsatisfied(book.states, u.inp.edges, row.claim) == {} <==>
           ApprovedTargets(u.inp.edges, row.claim) <= Reachable(u) by {
      assert ApprovedTargets(u.inp.edges, row.claim) <= Reachable(u) ==>
          Unsatisfied(book.states, u.inp.edges, row.claim) == {};
      assert forall d :: d in ApprovedTargets(u.inp.edges, row.claim) && d !in Reachable(u) ==>
          d in Unsatisfied(book.states, u.inp.edges, row.claim);
    }
  }

  lemma QuietPassTallies(u: Setup, book: Book, found: Tally)
    requires WellFormed(u) && BetweenPasses(u, book, found)
    requires AfterPass(u.inp, u.rows, book).tally.certified <= found.certified
    ensures var merged := Merged(found, AfterPass(u.inp, u.rows, book).tally);
            && merged.certified == ClaimsWith(u, Certify)
            && merged.reconciled == ReconciledClaims(u)
            && merged.counterexamples == ClaimsWith(u, Refute)
  {
    var merged := Merged(found, AfterPass(u.inp, u.rows, book).tally);
    PassKeepsInvariant(u, book, found);
    forall row | row in u.rows ensures RowTallied(u, row, merged) {
      QuietRowIsTallied(u, row, book, found);
    }
    TalliesAreSettled(u, merged);
  }

  ghost predicate RowTallied(u: Setup, row: Row, tally: Tally) {
    && (row.claim in tally.certified <==> FinalVerdict(u, row) == Certify)
    && (row.claim in tally.counterexamples <==> FinalVerdict(u, row) == Refute)
    && (row.claim in tally.reconciled <==> FinalVerdict(u, row) == Certify && ReconciledRow(u, row))
  }

  lemma QuietRowIsTallied(u: Setup, row: Row, book: Book, found: Tally)
    requires WellFormed(u) && BetweenPasses(u, book, found) && row in u.rows
    requires AfterPass(u.inp, u.rows, book).tally.certified <= found.certified
    ensures RowTallied(u, row, Merged(found, AfterPass(u.inp, u.rows, book).tally))
  {
    PassKeepsRow(u, row, book, found);
    QuietPassVerdicts(u, row, book, found);
    assert RowBetweenPasses(u, row, book, found);
  }

  lemma TalliesAreSettled(u: Setup, tally: Tally)
    requires tally.certified + tally.reconciled + tally.counterexamples <= RowClaims(u.rows)
    requires forall row :: row in u.rows ==> RowTallied(u, row, tally)
    ensures tally.certified == ClaimsWith(u, Certify) && tally.counterexamples == ClaimsWith(u, Refute)
    ensures tally.reconciled == ReconciledClaims(u)
  {
    forall c | c in tally.certified + tally.reconciled + tally.counterexamples
      ensures exists row :: row in u.rows && row.claim == c && RowTallied(u, row, tally)
    {
      var row :| row in u.rows && row.claim == c;
      assert RowTallied(u, row, tally);
    }
  }

  lemma QuietPassState(u: Setup, row: Row, book: Book, found: Tally)
    requires WellFormed(u) && BetweenPasses(u, book, found)
    requires AfterPass(u.inp, u.rows, book).tally.certified <= found.certified
    requires row in u.rows && row.claim in u.start.states
    ensures row.claim in AfterPass(u.inp, u.rows, book).book.states
    ensures AfterPass(u.inp, u.rows, book).book.states[row.claim]
            == StateFor(FinalVerdict(u, row), u.start.states[row.claim])
  {
    WholePass(u, book);
    DemotionKeepsTrack(u, book);
    RowSettles(u, row);
    QuietPassVerdicts(u, row, book, found);
    assert Visited(u, row, book, AfterRows(u.inp, u.rows, book));
  }

  lemma WithoutRow(u: Setup, states: States, claim: string)
    requires OnTheWay(u, states) && claim in states && forall row :: row in u.rows ==> row.claim != claim
    ensures claim in u.start.states && states[claim] == SettledState(u, claim)
  {
  }

  lemma QuietStateOf(u: Setup, book: Book, found: Tally, claim: string)
    requires WellFormed(u) && BetweenPasses(u, book, found) && claim in u.start.states
    requires AfterPass(u.inp, u.rows, book).tally.certified <= found.certified
    ensures claim in AfterPass(u.inp, u.rows, book).book.states
    ensures AfterPass(u.inp, u.rows, book).book.states[claim] == SettledState(u, claim)
  {
    if row :| row in u.rows && row.claim == claim {
      RowSettles(u, row);
      DemotionKeepsTrack(u, book);
      QuietPassState(u, row, book, found);
    } else {
      DemotionKeepsTrack(u, book);
      WithoutRow(u, AfterPass(u.inp, u.rows, book).book.states, claim);
    }
  }

  lemma QuietPassStates(u: Setup, book: Book, found: Tally)
    requires WellFormed(u) && BetweenPasses(u, book, found)
    requires AfterPass(u.inp, u.rows, book).tally.certified <= found.certified
    ensures AfterPass(u.inp, u.rows, book).book.states == SettledStates(u)
  {
    var states := AfterPass(u.inp, u.rows, book).book.states;
    PassKeepsClaims(u, book);
    forall c | c in u.start.states ensures c in states && states[c] == SettledState(u, c) {
      QuietStateOf(u, book, found, c);
    }
  }

  lemma PassKeepsClaims(u: Setup, book: Book)
    requires WellFormed(u) && OnTheWay(u, book.states)
    ensures AfterPass(u.inp, u.rows, book).book.states.Keys == u.start.states.Keys
  {
    DemotionKeepsTrack(u, book);
  }

  lemma QuietPassIsSettled(u: Setup, book: Book, found: Tally)
    requires WellFormed(u) && BetweenPasses(u, book, found)
    requires AfterPass(u.inp, u.rows, book).tally.certified <= found.certified
    ensures var pass := AfterPass(u.inp, u.rows, book);
            IsSettled(u, Progress(pass.book, Merged(found, pass.tally)))
  {
    QuietPassTallies(u, book, found);
    QuietPassStates(u, book, found);
    QuietPassIsComplete(u, book, found);
    DemotionKeepsTrack(u, book);
    var pass := AfterPass(u.inp, u.rows, book);
    SatisfiedIsBounded(u, book.states);
    StandingKeepsSatisfied(u, book.states, pass.book.states);
    SatisfiedIsBounded(u, pass.book.states);
  }

  /** The loop ends in the settled outcome, from any point between two passes. */
  lemma {:induction false} StabilisedIsSettled(u: Setup, book: Book, found: Tally)
    requires WellFormed(u) && BetweenPasses(u, book, found)
    ensures IsSettled(u, Stabilised(u.inp, u.rows, book, found))
    decreases RowClaims(u.rows) - found.certified
  {
    var pass := AfterPass(u.inp, u.rows, book);
    CountedHaveRows(u.inp, u.rows, book);
    if pass.tally.certified <= found.certified {
      QuietPassIsSettled(u, book, found);
    } else {
      PassKeepsInvariant(u, book, found);
      StabilisedIsSettled(u, pass.book, Merged(found, pass.tally));
    }
  }

  lemma SettlesWhenNothingDemoted(u: Setup)
    requires WellFormed(u)
    ensures IsSettled(u, Stabilised(u.inp, u.rows, u.start, NOTHING))
  {
    assert forall row :: row in u.rows ==> RowBetweenPasses(u, row, u.start, NOTHING);
    assert BetweenPasses(u, u.start, NOTHING);
    StabilisedIsSettled(u, u.start, NOTHING);
  }

  /** What counts as satisfied has a state that lets it count. */
  lemma SatisfiedHasStanding(u: Setup, states: States, claim: string)
    requires claim in SatisfiedIn(u, states)
    ensures StateOf(states, claim) in {Certified, SkippedUnproved}
  {
  }

  /** A settled outcome in which something of the least set was demoted contradicts itself. */
  lemma SettledDemotesNothing(u: Setup, r: Progress)
    requires Consistent(u) && IsSettled(u, r)
    ensures NothingDemoted(u)
  {
    forall row | row in u.rows && row.claim in Reachable(u)
      ensures !FinalVerdict(u, row).Reject? && !FinalVerdict(u, row).Refute?
    {
      SatisfiedHasStanding(u, r.book.states, row.claim);
      assert row.claim in u.start.states;
      RowSettles(u, row);
    }
  }

  /**
   Repeating the pass certifies exactly the least closed set, with the states and result lists that
   go with it, if and only if that set holds no claim whose row ends rejected or refuted.
   */
  lemma CertifiesTheLeastSet(u: Setup)
    requires Consistent(u)
    ensures IsSettled(u, Stabilised(u.inp, u.rows, u.start, NOTHING)) <==> NothingDemoted(u)
  {
    if NothingDemoted(u) {
      SettlesWhenNothingDemoted(u);
    }
    if IsSettled(u, Stabilised(u.inp, u.rows, u.start, NOTHING)) {
      SettledDemotesNothing(u, Stabilised(u.inp, u.rows, u.start, NOTHING));
    }
  }

  ghost predicate Reordered(u: Setup, v: Setup) {
    && v == u.(rows := v.rows) && DistinctClaims(v.rows)
    && forall row :: row in u.rows <==> row in v.rows
  }

  lemma SameReachable(u: Setup, v: Setup)
    requires Reordered(u, v)
    ensures Reachable(u) == Reachable(v)
  {
    assert Acceptable(u) == Acceptable(v);
  }

  lemma ReorderedVerdicts(u: Setup, v: Setup)
    requires Reordered(u, v)
    ensures forall row :: FinalVerdict(u, row) == FinalVerdict(v, row)
    ensures forall verdict :: ClaimsWith(u, verdict) == ClaimsWith(v, verdict)
    ensures ReconciledClaims(u) == ReconciledClaims(v)
  {
    SameReachable(u, v);
    assert forall row :: FinalVerdict(u, row) == FinalVerdict(v, row);
  }

  lemma ReorderedWellFormed(u: Setup, v: Setup)
    requires Reordered(u, v) && WellFormed(u)
    ensures WellFormed(v)
  {
    ReorderedVerdicts(u, v);
  }

  lemma ReorderedOutcome(u: Setup, v: Setup, a: Progress, b: Progress)
    requires Reordered(u, v) && DistinctClaims(u.rows) && IsSettled(u, a) && IsSettled(v, b)
    ensures a.book.states == b.book.states && a.tally.certified == b.tally.certified
    ensures a.tally.reconciled == b.tally.reconciled && a.tally.counterexamples == b.tally.counterexamples
  {
    ReorderedVerdicts(u, v);
    ReorderedSettles(u, v);
  }

  lemma ReorderedSettles(u: Setup, v: Setup)
    requires Reordered(u, v) && DistinctClaims(u.rows)
    ensures SettledStates(u) == SettledStates(v)
  {
    ReorderedVerdicts(u, v);
    forall c | c in u.start.states ensures SettledState(u, c) == SettledState(v, c) {
      if row :| row in u.rows && row.claim == c {
        RowSettles(u, row);
        RowSettles(v, row);
      }
    }
  }

  /** Any other order of the same rows certifies the same claims and leaves the same states. */
  lemma RowOrderIsIrrelevant(u: Setup, reordered: seq<Row>)
    requires WellFormed(u) && DistinctClaims(reordered)
    requires forall row :: row in u.rows <==> row in reordered
    ensures var a := Stabilised(u.inp, u.rows, u.start, NOTHING);
            var b := Stabilised(u.inp, reordered, u.start, NOTHING);
            a.book.states == b.book.states && a.tally == b.tally
  {
    var v := u.(rows := reordered);
    ReorderedWellFormed(u, v);
    SettlesWhenNothingDemoted(u);
    SettlesWhenNothingDemoted(v);
    ReorderedOutcome(u, v, Stabilised(u.inp, u.rows, u.start, NOTHING), Stabilised(v.inp, v.rows, v.start, NOTHING));
    StabilisedReportsNoRejections(u.inp, u.rows, u.start, NOTHING);
    StabilisedReportsNoRejections(u.inp, reordered, u.start, NOTHING);
  }

  lemma {:induction false} StabilisedReportsNoRejections(inp: Inputs, rows: seq<Row>, book: Book, found: Tally)
    ensures Stabilised(inp, rows, book, found).tally.rejected == {}
    decreases RowClaims(rows) - found.certified
  {
    var pass := AfterPass(inp, rows, book);
    CountedHaveRows(inp, rows, book);
    if !(pass.tally.certified <= found.certified) {
      StabilisedReportsNoRejections(inp, rows, pass.book, Merged(found, pass.tally));
    }
  }

  /** Every CERTIFIED claim rests on satisfied direct prerequisites. */
  ghost predicate Grounded(states: States, edges: seq<Edge>) {
    forall c :: c in states && states[c] == Certified ==> Unsatisfied(states, edges, c) == {}
  }

  // ---- Without any condition: nothing outside the least set ----

  lemma CertifiedIsJustified(u: Setup, row: Row, states: States)
    requires Justified(u, states) && row in u.rows && VerdictFor(u.inp, row, states) == Certify
    ensures row.claim in Reachable(u)
  {
    CertifyMeansReady(u.inp, row, Ready(u.inp, states, row.claim));
    NothingUnsatisfied(u, states, row.claim);
    JustifiedIsBounded(u, states);
    assert row.claim in Acceptable(u);
    AcceptableJoins(u, row.claim);
  }

  lemma RowIsJustified(u: Setup, row: Row, now: Progress)
    requires Justified(u, now.book.states) && now.tally.certified <= Reachable(u) && row in u.rows
    ensures Justified(u, AfterRow(u.inp, row, now).book.states)
    ensures AfterRow(u.inp, row, now).tally.certified <= Reachable(u)
  {
    if VerdictFor(u.inp, row, now.book.states) == Certify {
      CertifiedIsJustified(u, row, now.book.states);
    }
  }

  lemma {:induction false} RowsAreJustified(u: Setup, k: nat, book: Book)
    requires Justified(u, book.states) && k <= |u.rows|
    ensures Justified(u, AfterRows(u.inp, u.rows[..k], book).book.states)
    ensures AfterRows(u.inp, u.rows[..k], book).tally.certified <= Reachable(u)
  {
    if k == 0 {
    } else {
      RowsAreJustified(u, k - 1, book);
      assert u.rows[..k][..k - 1] == u.rows[..k - 1];
      RowIsJustified(u, u.rows[k - 1], AfterRows(u.inp, u.rows[..k - 1], book));
    }
  }

  lemma PassIsJustified(u: Setup, book: Book)
    requires Justified(u, book.states)
    ensures Justified(u, AfterPass(u.inp, u.rows, book).book.states)
    ensures AfterPass(u.inp, u.rows, book).tally.certified <= Reachable(u)
  {
    RowsAreJustified(u, |u.rows|, book);
    assert u.rows[..|u.rows|] == u.rows;
  }

  lemma {:induction false} StabilisedIsJustified(u: Setup, book: Book, found: Tally)
    requires Justified(u, book.states) && found.certified <= Reachable(u)
    ensures Justified(u, Stabilised(u.inp, u.rows, book, found).book.states)
    ensures Stabilised(u.inp, u.rows, book, found).tally.certified <= Reachable(u)
    decreases RowClaims(u.rows) - found.certified
  {
    var pass := AfterPass(u.inp, u.rows, book);
    CountedHaveRows(u.inp, u.rows, book);
    PassIsJustified(u, book);
    if !(pass.tally.certified <= found.certified) {
      StabilisedIsJustified(u, pass.book, Merged(found, pass.tally));
    }
  }

  /** Whatever is rejected on the way, no claim outside the least set is ever certified or satisfied. */
  lemma CertifiesOnlyTheLeastSet(u: Setup)
    ensures var end := Stabilised(u.inp, u.rows, u.start, NOTHING);
            end.tally.certified <= Reachable(u) && SatisfiedIn(u, end.book.states) <= Reachable(u)
  {
    var rules := CertificationRules(u);
    LeastClosedIsClosed(rules);
    assert Justified(u, u.start.states);
    StabilisedIsJustified(u, u.start, NOTHING);
    JustifiedIsBounded(u, Stabilised(u.inp, u.rows, u.start, NOTHING).book.states);
  }

  // ---- Why NothingDemoted is needed ----

  /** A stale certificate on `a` is rejected in the very pass that certifies its dependent `b`. */
  function DemotionExample(): Setup {
    var inp := Inputs(1, {"a", "b"}, [Edge("b", "a", "uses", true)],
                      map["B" := Declaration("B", "theorem", "t", Some("v"), {})], {});
    Setup(inp, [Row("a", "A", "approved", true, 1), Row("b", "B", "approved", true, 1)],
          Book(map["a" := Certified, "b" := ReadyToProve], map[]))
  }

  lemma DemotionExampleRules(states: States)
    requires states.Keys == {"a", "b"} && states["a"] != SkippedUnproved && states["b"] != SkippedUnproved
    ensures var edges := DemotionExample().inp.edges;
            && Unsatisfied(states, edges, "a") == {}
            && Unsatisfied(states, edges, "b") == if states["a"] == Certified then {} else {"a"}
  {
    var edges := DemotionExample().inp.edges;
    var rules := SatisfactionRules(GraphContext(states, edges));
    assert edges == [edges[0]];
    assert ApprovedTargets(edges, "a") == {} && ApprovedTargets(edges, "b") == {"a"};
    LeastClosedUnfolds(rules, "a");
  }

  lemma TwoRows(inp: Inputs, r: Row, q: Row, book: Book)
    ensures AfterRows(inp, [r, q], book) == AfterRow(inp, q, AfterRow(inp, r, Progress(book, NOTHING)))
  {
    assert [r, q][..1] == [r] && [r][..0] == [];
    assert AfterRows(inp, [], book) == Progress(book, NOTHING);
    assert AfterRows(inp, [r], book) == AfterRow(inp, r, AfterRows(inp, [], book));
  }

  ghost predicate PlainStates(states: States) {
    states.Keys == {"a", "b"} && states["a"] != SkippedUnproved && states["b"] != SkippedUnproved
  }

  lemma ExampleRows(now: Progress)
    requires PlainStates(now.book.states)
    ensures var u := DemotionExample();
            AfterRow(u.inp, u.rows[0], now) == now.(tally := now.tally.(rejected := now.tally.rejected + {"a"}))
    ensures var next := AfterRow(DemotionExample().inp, DemotionExample().rows[1], now);
            if now.book.states["a"] == Certified
            then && next.book.states == now.book.states["b" := Certified]
                 && next.tally.certified == now.tally.certified + {"b"}
                 && next.tally.rejected == now.tally.rejected
            else next == now
  {
    DemotionExampleRules(now.book.states);
  }

  lemma ExampleLoop(book: Book) returns (end: Progress)
    requires PlainStates(book.states)
    ensures end == AfterRows(DemotionExample().inp, DemotionExample().rows, book)
    ensures end.tally.rejected == {"a"}
    ensures end.book.states == if book.states["a"] == Certified then book.states["b" := Certified] else book.states
    ensures end.tally.certified == if book.states["a"] == Certified then {"b"} else {}
  {
    var u := DemotionExample();
    TwoRows(u.inp, u.rows[0], u.rows[1], book);
    ExampleRows(Progress(book, NOTHING));
    var one := Progress(book, NOTHING.(rejected := {"a"}));
    ExampleRows(one);
    end := AfterRow(u.inp, u.rows[1], one);
  }

  /** `a` is always rejected; `b` is certified while `a` still counts. */
  lemma ExamplePass(book: Book) returns (pass: Progress)
    requires PlainStates(book.states)
    ensures pass == AfterPass(DemotionExample().inp, DemotionExample().rows, book)
    ensures PlainStates(pass.book.states) && pass.book.states["a"] == FailedFormalization
    ensures pass.book.states["b"] == if book.states["a"] == Certified then Certified else book.states["b"]
    ensures pass.tally.certified == if book.states["a"] == Certified then {"b"} else {}
  {
    var end := ExampleLoop(book);
    pass := end.(book := end.book.(states := Demoted(end.book.states, end.tally.rejected)));
  }

  lemma ExampleStabilises() returns (states: States)
    ensures var u := DemotionExample();
            states == Stabilised(u.inp, u.rows, u.start, NOTHING).book.states
    ensures PlainStates(states) && states["a"] == FailedFormalization && states["b"] == Certified
  {
    var u := DemotionExample();
    var first := ExamplePass(u.start);
    var second := ExamplePass(first.book);
    StopsAfter(u.inp, u.rows, u.start, first, second);
    states := second.book.states;
  }

  lemma ExampleGrounding(states: States)
    requires PlainStates(states)
    ensures Grounded(states, DemotionExample().inp.edges) <==>
            (states["b"] == Certified ==> states["a"] == Certified)
  {
    DemotionExampleRules(states);
  }

  lemma DemotionExampleIsSound()
    ensures var u := DemotionExample();
            && DistinctClaims(u.rows) && u.inp.objects <= u.start.states.Keys
            && PlainStates(u.start.states) && Grounded(u.start.states, u.inp.edges)
  {
    ExampleGrounding(DemotionExample().start.states);
  }

  /** Deferring the rejections leaves `b` CERTIFIED on a prerequisite that is not. */
  lemma DemotionLeavesUngrounded()
    ensures var u := DemotionExample();
            && DistinctClaims(u.rows) && u.inp.objects <= u.start.states.Keys
            && Grounded(u.start.states, u.inp.edges)
            && !Grounded(Stabilised(u.inp, u.rows, u.start, NOTHING).book.states, u.inp.edges)
  {
    DemotionExampleIsSound();
    var states := ExampleStabilises();
    ExampleGrounding(states);
  }

  lemma StopsAfter(inp: Inputs, rows: seq<Row>, book: Book, first: Progress, second: Progress)
    requires first == AfterPass(inp, rows, book) && first.tally.certified != {}
    requires second == AfterPass(inp, rows, first.book) && second.tally.certified == {}
    ensures Stabilised(inp, rows, book, NOTHING).book == second.book
  {
    var found := Merged(NOTHING, first.tally);
    assert Stabilised(inp, rows, book, NOTHING) == Stabilised(inp, rows, first.book, found);
    assert Stabilised(inp, rows, first.book, found) == Progress(second.book, Merged(found, second.tally));
  }

  // ---- What a pass decides, told of the row and its declaration ----

  ghost predicate Applies(inp: Inputs, row: Row) {
    row.run == inp.run && row.approved
  }

  /** The four causes that need no look at the prerequisites. */
  ghost predicate Unfounded(inp: Inputs, row: Row) {
    || row.claim !in inp.objects
    || row.declaration !in inp.declarations
    || inp.declarations[row.declaration].kind == "axiom"
    || inp.declarations[row.declaration].valueHash == None
  }

  /** The declaration rests on an unfinished proof, or on an axiom of the project that is new. */
  ghost predicate Untrusted(inp: Inputs, row: Row) {
    row.declaration in inp.declarations &&
    exists a :: a in inp.declarations[row.declaration].axioms && Unproved(a, inp.baselineAxioms)
  }

  ghost predicate Unproved(name: string, baseline: set<string>) {
    || name == "sorryAx"
    || (|name| >= 8 && name[|name| - 8..] == ".sorryAx")
    || (|name| >= 23 && name[..23] == "ManuscriptVerification." && name !in baseline)
  }

  ghost predicate Refutes(row: Row) {
    row.status == "counterexample"
  }

  /** Current, approved, and on a finished declaration without a forbidden axiom. */
  ghost predicate Supported(inp: Inputs, row: Row) {
    Applies(inp, row) && !Unfounded(inp, row) && !Untrusted(inp, row)
  }

  ghost predicate Satisfied(inp: Inputs, row: Row, states: States) {
    AllDeserved(states, inp.edges, row.claim)
  }

  ghost predicate MustCertify(inp: Inputs, row: Row, states: States) {
    Supported(inp, row) && !Refutes(row) && Satisfied(inp, row, states)
  }

  ghost predicate MustRefute(inp: Inputs, row: Row) {
    Supported(inp, row) && Refutes(row)
  }

  ghost predicate MustReject(inp: Inputs, row: Row, states: States) {
    Applies(inp, row) &&
    (Unfounded(inp, row) || (Untrusted(inp, row) && (Refutes(row) || Satisfied(inp, row, states))))
  }

  lemma EndsWithPlain(s: string, suffix: string)
    ensures EndsWith(s, suffix) <==> |s| >= |suffix| && s[|s| - |suffix|..] == suffix
  {
  }

  lemma ForbiddenIsUnproved(name: string, baseline: set<string>)
    ensures Forbidden(name, baseline) <==> Unproved(name, baseline)
  {
    EndsWithPlain(name, ".sorryAx");
    assert "ManuscriptVerification." <= name <==> |name| >= 23 && name[..23] == "ManuscriptVerification.";
  }

  lemma UntrustedIsForbidden(inp: Inputs, row: Row)
    requires row.declaration in inp.declarations
    ensures Untrusted(inp, row) <==> HasForbiddenAxiom(inp, inp.declarations[row.declaration])
  {
    forall a ensures Forbidden(a, inp.baselineAxioms) <==> Unproved(a, inp.baselineAxioms) {
      ForbiddenIsUnproved(a, inp.baselineAxioms);
    }
  }

  /** Each verdict, in terms of the row, its declaration and its prerequisites. */
  lemma VerdictMeans(inp: Inputs, row: Row, states: States)
    ensures var verdict := VerdictFor(inp, row, states);
            && (verdict == Ignore <==> !Applies(inp, row))
            && (verdict.Reject? <==> MustReject(inp, row, states))
            && (verdict == Certify <==> MustCertify(inp, row, states))
            && (verdict == Refute <==> MustRefute(inp, row))
            && (verdict == Pending <==>
                  Applies(inp, row) && !Unfounded(inp, row) && !Refutes(row) && !Satisfied(inp, row, states))
  {
    NoneUnsatisfied(row.claim, states, inp.edges);
    if row.declaration in inp.declarations {
      UntrustedIsForbidden(inp, row);
    }
  }

  /** The claim gets a certificate of its declaration's formal type; the others keep theirs. */
  ghost predicate Certifies(inp: Inputs, row: Row, status: string, before: map<string, Certificate>,
                            after: map<string, Certificate>)
    requires row.declaration in inp.declarations
  {
    var d := inp.declarations[row.declaration];
    after == before[row.claim := Certificate(status, d.typeHash, d.name)]
  }

  /** The states that the next row sees. */
  ghost function Moved(inp: Inputs, row: Row, states: States): States {
    if row.claim !in states then states
    else if MustCertify(inp, row, states) then states[row.claim := Certified]
    else if MustRefute(inp, row) then states[row.claim := CounterexampleFound]
    else states
  }

  /** `seen[i]` are the states that row `i` meets. */
  ghost predicate PassSees(inp: Inputs, rows: seq<Row>, start: States, seen: seq<States>) {
    && |seen| == |rows| + 1 && seen[0] == start
    && forall i :: 0 <= i < |rows| ==> seen[i + 1] == Moved(inp, rows[i], seen[i])
  }

  datatype Ruling = ToCertify | ToRefute | ToReject

  ghost predicate Must(inp: Inputs, row: Row, states: States, ruling: Ruling) {
    match ruling
    case ToCertify => MustCertify(inp, row, states)
    case ToRefute => MustRefute(inp, row)
    case ToReject => MustReject(inp, row, states)
  }

  function Listed(tally: Tally, ruling: Ruling): set<string> {
    match ruling
    case ToCertify => tally.certified
    case ToRefute => tally.counterexamples
    case ToReject => tally.rejected
  }

  ghost predicate RuledAt(inp: Inputs, rows: seq<Row>, seen: seq<States>, ruling: Ruling, claim: string)
    requires |seen| > |rows|
  {
    exists i :: 0 <= i < |rows| && rows[i].claim == claim && Must(inp, rows[i], seen[i], ruling)
  }

  /** The result lists of a pass: exactly the claims of the rows that must be there, judged on what they meet. */
  ghost predicate PassFinds(inp: Inputs, rows: seq<Row>, seen: seq<States>, tally: Tally)
    requires |seen| > |rows|
  {
    forall ruling, c :: c in Listed(tally, ruling) <==> RuledAt(inp, rows, seen, ruling, c)
  }

  lemma RuledAppend(inp: Inputs, rows: seq<Row>, seen: seq<States>, row: Row, next: States, ruling: Ruling, claim: string)
    requires |seen| == |rows| + 1
    ensures RuledAt(inp, rows + [row], seen + [next], ruling, claim) <==>
              RuledAt(inp, rows, seen, ruling, claim) || (row.claim == claim && Must(inp, row, seen[|rows|], ruling))
  {
    var more, after := rows + [row], seen + [next];
    assert more[|rows|] == row && after[|rows|] == seen[|rows|];
    if RuledAt(inp, rows, seen, ruling, claim) {
      var i :| 0 <= i < |rows| && rows[i].claim == claim && Must(inp, rows[i], seen[i], ruling);
      assert more[i] == rows[i] && after[i] == seen[i];
    }
    if RuledAt(inp, more, after, ruling, claim) {
      var i :| 0 <= i < |more| && more[i].claim == claim && Must(inp, more[i], after[i], ruling);
      assert i == |rows| || (more[i] == rows[i] && after[i] == seen[i]);
    }
  }

  lemma SeesAppend(inp: Inputs, rows: seq<Row>, start: States, seen: seq<States>, row: Row)
    requires PassSees(inp, rows, start, seen)
    ensures PassSees(inp, rows + [row], start, seen + [Moved(inp, row, seen[|rows|])])
  {
  }

  lemma FindsAppend(inp: Inputs, rows: seq<Row>, seen: seq<States>, tally: Tally, row: Row, next: States, after: Tally)
    requires |seen| == |rows| + 1 && PassFinds(inp, rows, seen, tally)
    requires forall ruling :: Listed(after, ruling) ==
               Listed(tally, ruling) + if Must(inp, row, seen[|rows|], ruling) then {row.claim} else {}
    ensures PassFinds(inp, rows + [row], seen + [next], after)
  {
    forall ruling, c ensures c in Listed(after, ruling) <==> RuledAt(inp, rows + [row], seen + [next], ruling, c) {
      RuledAppend(inp, rows, seen, row, next, ruling, c);
    }
  }

  /** What one row adds to the lists. */
  lemma CountedLists(inp: Inputs, tally: Tally, row: Row, states: States, reconciles: bool)
    ensures var after := Counted(tally, row.claim, VerdictFor(inp, row, states), reconciles);
            forall ruling :: Listed(after, ruling) ==
              Listed(tally, ruling) + if Must(inp, row, states, ruling) then {row.claim} else {}
  {
    VerdictMeans(inp, row, states);
  }

  lemma RecordedMoves(inp: Inputs, row: Row, book: Book)
    ensures Recorded(inp, row, VerdictFor(inp, row, book.states), book).states == Moved(inp, row, book.states)
  {
    VerdictMeans(inp, row, book.states);
  }

  class CertificationStore {
    var states: States
    var certificates: map<string, Certificate>
    const rows: seq<Row>

    constructor (states: States, certificates: map<string, Certificate>, rows: seq<Row>)
      ensures this.states == states && this.certificates == certificates && this.rows == rows
    {
      this.states, this.certificates, this.rows := states, certificates, rows;
    }

    ghost function Tables(): Book
      reads this
    {
      Book(states, certificates)
    }

    method SetClaimState(claim: string, state: ClaimState)
      modifies this`states
      ensures states == SetState(old(states), claim, state)
      ensures states.Keys == old(states).Keys
      ensures forall c :: c in states ==> states[c] == if c == claim then state else old(states)[c]
    {
      if claim in states {
        states := states[claim := state];
      }
    }

    /** The body of the row loop: judge the row on the current states and record the outcome. */
    method JudgeRow(inp: Inputs, row: Row) returns (verdict: Verdict, reconciles: bool)
      modifies this
      ensures verdict == VerdictFor(inp, row, old(states))
      ensures reconciles <==> verdict == Certify && Reconciles(inp, row, old(Tables()))
      ensures Tables() == Recorded(inp, row, verdict, old(Tables()))
      ensures verdict.Reject? <==> MustReject(inp, row, old(states))
      ensures verdict == Certify <==> MustCertify(inp, row, old(states))
      ensures verdict == Refute <==> MustRefute(inp, row)
      ensures states == Moved(inp, row, old(states))
      ensures verdict == Certify ==>
                row.declaration in inp.declarations && Certifies(inp, row, "CERTIFIED", old(certificates), certificates)
      ensures verdict == Refute ==>
                row.declaration in inp.declarations && Certifies(inp, row, "COUNTEREXAMPLE", old(certificates), certificates)
      ensures verdict !in {Certify, Refute} ==> certificates == old(certificates)
      ensures reconciles ==> row.declaration in inp.declarations
      ensures reconciles <==>
                && verdict == Certify && row.claim in old(certificates)
                && old(certificates)[row.claim].status == "CERTIFIED"
                && old(certificates)[row.claim].typeHash == inp.declarations[row.declaration].typeHash
                && StateOf(old(states), row.claim) in {DirtySource, Invalidated}
    {
      VerdictMeans(inp, row, states);
      RecordedMoves(inp, row, Tables());
      var open := UnsatisfiedDependencies(row.claim, states, inp.edges);
      assert open == [] <==> Ready(inp, states, row.claim);
      verdict := Judge(inp, row, open == []);
      reconciles := verdict == Certify && Reconciles(inp, row, Book(states, certificates));
      match verdict
      case Refute =>
        certificates := certificates[row.claim := CertificateFor(inp, row, "COUNTEREXAMPLE")];
        SetClaimState(row.claim, CounterexampleFound);
      case Certify =>
        certificates := certificates[row.claim := CertificateFor(inp, row, "CERTIFIED")];
        SetClaimState(row.claim, Certified);
      case _ =>
    }

    /** The deferred loop over the rejections. */
    method RejectAll(claims: seq<string>)
      modifies this`states
      ensures states == Demoted(old(states), set c | c in claims)
      ensures states.Keys == old(states).Keys
      ensures forall c :: c in states ==> states[c] == if c in claims then FailedFormalization else old(states)[c]
    {
      for i := 0 to |claims|
        invariant states == Demoted(old(states), set c | c in claims[..i])
      {
        assert claims[..i + 1] == claims[..i] + [claims[i]];
        SetClaimState(claims[i], FailedFormalization);
      }
      assert claims[..|claims|] == claims;
    }

    /** The row loop; `seen` holds the states that each row meets, and those at the end. */
    method JudgeRows(inp: Inputs) returns (tally: Tally, ghost seen: seq<States>)
      modifies this
      ensures Progress(Tables(), tally) == AfterRows(inp, rows, old(Tables()))
      ensures PassSees(inp, rows, old(states), seen) && PassFinds(inp, rows, seen, tally)
      ensures seen[|rows|] == states && states.Keys == old(states).Keys
    {
      ghost var start := Tables();
      tally := Tally({}, {}, {}, {});
      seen := [states];
      for i := 0 to |rows|
        invariant Progress(Tables(), tally) == AfterRows(inp, rows[..i], start)
        invariant PassSees(inp, rows[..i], start.states, seen) && PassFinds(inp, rows[..i], seen, tally)
        invariant seen[i] == states && states.Keys == start.states.Keys
      {
        assert rows[..i + 1][..i] == rows[..i] && rows[..i + 1] == rows[..i] + [rows[i]];
        ghost var before := tally;
        var verdict, reconciles := JudgeRow(inp, rows[i]);
        tally := Counted(tally, rows[i].claim, verdict, reconciles);
        CountedLists(inp, before, rows[i], seen[i], reconciles);
        SeesAppend(inp, rows[..i], start.states, seen, rows[i]);
        FindsAppend(inp, rows[..i], seen, before, rows[i], states, tally);
        seen := seen + [states];
      }
      assert rows[..|rows|] == rows;
    }

    method CertifyCurrentCorrespondence(inp: Inputs) returns (tally: Tally, ghost seen: seq<States>)
      modifies this
      ensures Progress(Tables(), tally) == AfterPass(inp, rows, old(Tables()))
      ensures PassSees(inp, rows, old(states), seen) && PassFinds(inp, rows, seen, tally)
      ensures PassEnds(rows, seen, tally, states) && states.Keys == old(states).Keys
    {
      tally, seen := JudgeRows(inp);
      var queue := Sorted(tally.rejected);
      assert tally.rejected == set c | c in queue;
      RejectAll(queue);
    }

    /** The loop of `verify_project`. */
    method CertifyUntilStable(inp: Inputs) returns (found: Tally)
      modifies this
      ensures Progress(Tables(), found) == Stabilised(inp, rows, old(Tables()), NOTHING)
      ensures AllSupported(inp, rows, found.certified) && OnlySupported(inp, rows, old(states), states)
      ensures DefectsFail(inp, rows, states)
    {
      ghost var start := Tables();
      found := NOTHING;
      var more := true;
      while more
        invariant more ==> Stabilised(inp, rows, Tables(), found) == Stabilised(inp, rows, start, NOTHING)
        invariant !more ==> Progress(Tables(), found) == Stabilised(inp, rows, start, NOTHING)
        invariant AllSupported(inp, rows, found.certified) && OnlySupported(inp, rows, start.states, states)
        invariant states.Keys == start.states.Keys
        invariant !more ==> DefectsFail(inp, rows, states)
        decreases more, RowClaims(rows) - found.certified
      {
        CountedHaveRows(inp, rows, Tables());
        ghost var before := states;
        var current, seen := CertifyCurrentCorrespondence(inp);
        PassIsSupported(inp, rows, before, seen, current, states);
        SupportCarries(inp, rows, start.states, before, states);
        more := !(current.certified <= found.certified);
        found := Merged(found, current);
      }
    }
  }

  ghost predicate HasSupport(inp: Inputs, rows: seq<Row>, claim: string) {
    exists row :: row in rows && row.claim == claim && Supported(inp, row) && !Refutes(row)
  }

  ghost predicate AllSupported(inp: Inputs, rows: seq<Row>, claims: set<string>) {
    forall c :: c in claims ==> HasSupport(inp, rows, c)
  }

  ghost predicate OnlySupported(inp: Inputs, rows: seq<Row>, start: States, states: States) {
    forall c :: c in states && states[c] == Certified ==> StateOf(start, c) == Certified || HasSupport(inp, rows, c)
  }

  /** A row with a defect that shows at once leaves its claim FAILED_FORMALIZATION. */
  ghost predicate DefectsFail(inp: Inputs, rows: seq<Row>, states: States) {
    forall row :: row in rows && row.claim in states && Applies(inp, row)
                  && (Unfounded(inp, row) || (Untrusted(inp, row) && Refutes(row))) ==>
      states[row.claim] == FailedFormalization
  }

  lemma MovedIsSupported(inp: Inputs, rows: seq<Row>, start: States, states: States, row: Row)
    requires row in rows && OnlySupported(inp, rows, start, states)
    ensures Moved(inp, row, states).Keys == states.Keys && OnlySupported(inp, rows, start, Moved(inp, row, states))
  {
    if MustCertify(inp, row, states) {
      assert HasSupport(inp, rows, row.claim);
    }
  }

  lemma {:induction false} SeenIsSupported(inp: Inputs, rows: seq<Row>, start: States, seen: seq<States>, k: nat)
    requires PassSees(inp, rows, start, seen) && k <= |rows|
    ensures seen[k].Keys == start.Keys && OnlySupported(inp, rows, start, seen[k])
  {
    if k == 0 {
    } else {
      SeenIsSupported(inp, rows, start, seen, k - 1);
      MovedIsSupported(inp, rows, start, seen[k - 1], rows[k - 1]);
    }
  }

  lemma DefectIsRejected(inp: Inputs, rows: seq<Row>, seen: seq<States>, tally: Tally, row: Row)
    requires |seen| > |rows| && PassFinds(inp, rows, seen, tally)
    requires row in rows && Applies(inp, row) && (Unfounded(inp, row) || (Untrusted(inp, row) && Refutes(row)))
    ensures row.claim in tally.rejected
  {
    var i :| 0 <= i < |rows| && rows[i] == row;
    assert Must(inp, rows[i], seen[i], ToReject);
    assert RuledAt(inp, rows, seen, ToReject, row.claim);
    assert Listed(tally, ToReject) == tally.rejected;
  }

  lemma CertifiedIsSupported(inp: Inputs, rows: seq<Row>, seen: seq<States>, tally: Tally, claim: string)
    requires |seen| > |rows| && PassFinds(inp, rows, seen, tally) && claim in tally.certified
    ensures HasSupport(inp, rows, claim)
  {
    assert claim in Listed(tally, ToCertify);
    var i :| 0 <= i < |rows| && rows[i].claim == claim && Must(inp, rows[i], seen[i], ToCertify);
    assert rows[i] in rows;
  }

  ghost predicate PassEnds(rows: seq<Row>, seen: seq<States>, tally: Tally, after: States)
    requires |seen| > |rows|
  {
    && after.Keys == seen[|rows|].Keys
    && forall c :: c in after ==> after[c] == if c in tally.rejected then FailedFormalization else seen[|rows|][c]
  }

  lemma PassIsSupported(inp: Inputs, rows: seq<Row>, start: States, seen: seq<States>, tally: Tally, after: States)
    requires PassSees(inp, rows, start, seen) && PassFinds(inp, rows, seen, tally) && PassEnds(rows, seen, tally, after)
    ensures AllSupported(inp, rows, tally.certified) && OnlySupported(inp, rows, start, after)
    ensures DefectsFail(inp, rows, after)
  {
    SeenIsSupported(inp, rows, start, seen, |rows|);
    forall c | c in tally.certified ensures HasSupport(inp, rows, c) {
      CertifiedIsSupported(inp, rows, seen, tally, c);
    }
    forall row | row in rows && row.claim in after && Applies(inp, row)
                 && (Unfounded(inp, row) || (Untrusted(inp, row) && Refutes(row)))
      ensures after[row.claim] == FailedFormalization
    {
      DefectIsRejected(inp, rows, seen, tally, row);
    }
  }

  lemma SupportCarries(inp: Inputs, rows: seq<Row>, start: States, middle: States, end: States)
    requires OnlySupported(inp, rows, start, middle) && OnlySupported(inp, rows, middle, end)
    requires middle.Keys == start.Keys
    ensures OnlySupported(inp, rows, start, end)
  {
  }
}
