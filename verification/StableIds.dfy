/**
 How claims keep their ids when a manuscript is indexed again (`_assign_stable_ids` in
 `incremental/latex.py`).  A label is an id; an unlabelled claim takes the id of the nearest
 earlier row with the same statement, then of the nearest earlier row of its file and kind, and
 only then a new one.
 */
module StableIds {
  import opened Options
  import opened Ordering
  import opened Sorting

  /** `body` stands for the fields that play no part in the matching. */
  datatype Draft =
    Draft(file: string, kind: string, latexLabel: Option<string>, ordinal: int, hash: string, body: string)

  datatype Assigned = Assigned(draft: Draft, id: string)

  datatype Row =
    Row(id: string, file: string, kind: string, latexLabel: Option<string>, ordinal: int, hash: string)

  /** An empty label counts as none. */
  predicate Labelled(d: Draft) {
    d.latexLabel.Some? && d.latexLabel.value != ""
  }

  function LabelOf(d: Draft): string {
    if d.latexLabel.Some? then d.latexLabel.value else ""
  }

  // ---- Generated ids ----

  function Digit(n: nat): char
    requires n < 10
  {
    "0123456789"[n]
  }

  function Decimal(n: nat): string {
    if n < 10 then [Digit(n)] else Decimal(n / 10) + [Digit(n % 10)]
  }

  function Zeros(k: nat): string {
    if k == 0 then "" else Zeros(k - 1) + ['0']
  }

  /** At least six digits. */
  function Padded(n: nat): string {
    if |Decimal(n)| < 6 then Zeros(6 - |Decimal(n)|) + Decimal(n) else Decimal(n)
  }

  function AutoId(kind: string, n: nat): string {
    kind + ":auto" + ['-'] + Padded(n)
  }

  function DigitValue(c: char): nat {
    if '0' <= c <= '9' then c as int - '0' as int else 0
  }

  function Value(s: string): nat {
    if s == [] then 0 else Value(s[..|s| - 1]) * 10 + DigitValue(s[|s| - 1])
  }

  predicate AllDigits(s: string) {
    forall i :: 0 <= i < |s| ==> '0' <= s[i] <= '9'
  }

  lemma ValueStep(s: string, c: char)
    ensures Value(s + [c]) == Value(s) * 10 + DigitValue(c)
  {
    assert (s + [c])[..|s|] == s;
  }

  lemma DigitReadsBack(n: nat)
    requires n < 10
    ensures DigitValue(Digit(n)) == n && '0' <= Digit(n) <= '9'
  {
  }

  lemma {:induction false} DecimalReadsBack(n: nat)
    ensures Value(Decimal(n)) == n && AllDigits(Decimal(n))
  {
    DigitReadsBack(n % 10);
    if n < 10 {
      ValueStep([], Digit(n));
      assert [] + [Digit(n)] == [Digit(n)];
    } else {
      DecimalReadsBack(n / 10);
      ValueStep(Decimal(n / 10), Digit(n % 10));
    }
  }

  lemma {:induction false} ZerosAreZero(k: nat)
    ensures Value(Zeros(k)) == 0
  {
    if k == 0 {
    } else {
      ZerosAreZero(k - 1);
      ValueStep(Zeros(k - 1), '0');
    }
  }

  lemma {:induction false} ZerosAreDigits(k: nat)
    ensures AllDigits(Zeros(k))
  {
    if k == 0 {
    } else {
      ZerosAreDigits(k - 1);
    }
  }

  lemma {:induction false} ZerosAddNothing(k: nat, s: string)
    ensures Value(Zeros(k) + s) == Value(s)
    decreases |s|
  {
    if s == [] {
      ZerosAreZero(k);
      assert Zeros(k) + s == Zeros(k);
    } else {
      var front, last := s[..|s| - 1], s[|s| - 1];
      ZerosAddNothing(k, front);
      ValueStep(Zeros(k) + front, last);
      assert Zeros(k) + s == Zeros(k) + front + [last];
    }
  }

  lemma PaddingReadsBack(k: nat, s: string)
    requires AllDigits(s)
    ensures Value(Zeros(k) + s) == Value(s) && AllDigits(Zeros(k) + s)
  {
    ZerosAddNothing(k, s);
    ZerosAreDigits(k);
  }

  lemma PaddedReadsBack(n: nat)
    ensures Value(Padded(n)) == n && AllDigits(Padded(n))
  {
    var d := Decimal(n);
    DecimalReadsBack(n);
    if |d| < 6 {
      PaddingReadsBack(6 - |d|, d);
    }
  }

  lemma {:induction false} DecimalHasNoLeadingZero(n: nat)
    ensures |Decimal(n)| >= 1 && (n > 0 ==> Decimal(n)[0] != '0')
  {
    if n < 10 {
      DigitReadsBack(n);
    } else {
      DecimalHasNoLeadingZero(n / 10);
    }
  }

  /** The number in decimal, filled with zeros to six digits and no further. */
  ghost predicate SixDigits(digits: string, n: nat) {
    AllDigits(digits) && Value(digits) == n && |digits| >= 6 && (|digits| > 6 ==> digits[0] != '0')
  }

  lemma {:induction false} ZerosLength(k: nat)
    ensures |Zeros(k)| == k
  {
    if k == 0 {
    } else {
      ZerosLength(k - 1);
    }
  }

  lemma AutoIdReads(kind: string, n: nat)
    ensures exists digits :: AutoId(kind, n) == kind + ":auto-" + digits && SixDigits(digits, n)
  {
    PaddedReadsBack(n);
    DecimalHasNoLeadingZero(n);
    if |Decimal(n)| < 6 {
      ZerosLength(6 - |Decimal(n)|);
    } else if |Decimal(n)| > 6 {
      assert n > 0;
    }
    assert ":auto" + ['-'] == ":auto-";
    assert AutoId(kind, n) == kind + ":auto-" + Padded(n);
    assert SixDigits(Padded(n), n);
  }

  lemma DigitsBehindDash(a: string, d: string)
    requires AllDigits(d)
    ensures (a + ['-'] + d)[|a|] == '-'
    ensures forall p :: |a| < p < |a + ['-'] + d| ==> '0' <= (a + ['-'] + d)[p] <= '9'
  {
  }

  /** The last dash separates the digits, so their string is determined. */
  lemma LastDashSplits(a: string, d: string, b: string, e: string)
    requires a + ['-'] + d == b + ['-'] + e && AllDigits(d) && AllDigits(e)
    ensures d == e
  {
    DigitsBehindDash(a, d);
    DigitsBehindDash(b, e);
    assert |a| == |b|;
    assert d == (a + ['-'] + d)[|a| + 1..] && e == (b + ['-'] + e)[|b| + 1..];
  }

  /** No two allocations agree, whatever their kinds. */
  lemma AutoIdsDiffer(k: string, m: nat, l: string, n: nat)
    requires AutoId(k, m) == AutoId(l, n)
    ensures m == n
  {
    PaddedReadsBack(m);
    PaddedReadsBack(n);
    LastDashSplits(k + ":auto", Padded(m), l + ":auto", Padded(n));
  }

  // ---- The nearest earlier row ----

  predicate Eligible(r: Row, d: Draft, exact: bool) {
    r.file == d.file && r.kind == d.kind && (exact ==> r.hash == d.hash)
  }

  function Distance(r: Row, d: Draft): nat {
    if r.ordinal < d.ordinal then d.ordinal - r.ordinal else r.ordinal - d.ordinal
  }

  /** The sort key `(abs(ordinal difference), claim_id)`. */
  predicate NoFarther(d: Draft, a: Row, b: Row) {
    Distance(a, d) < Distance(b, d) || (Distance(a, d) == Distance(b, d) && AtMost(a.id, b.id))
  }

  ghost predicate DistinctIds(rows: set<Row>) {
    forall a, b :: a in rows && b in rows && a.id == b.id ==> a == b
  }

  ghost predicate IsNearest(rows: set<Row>, d: Draft, exact: bool, r: Row) {
    r in rows && Eligible(r, d, exact) && forall x :: x in rows && Eligible(x, d, exact) ==> NoFarther(d, r, x)
  }

  ghost function Nearest(rows: set<Row>, d: Draft, exact: bool): Option<Row> {
    if exists r :: IsNearest(rows, d, exact, r) then
      var r :| IsNearest(rows, d, exact, r);
      Some(r)
    else None
  }

  lemma NoFartherOrders(d: Draft)
    ensures TotalPreorder((a, b) => NoFarther(d, a, b))
  {
    forall a, b ensures NoFarther(d, a, b) || NoFarther(d, b, a) {
      LessTotal(a.id, b.id);
    }
    forall a, b, c | NoFarther(d, a, b) && NoFarther(d, b, c) ensures NoFarther(d, a, c) {
      if Less(a.id, b.id) && Less(b.id, c.id) {
        LessTransitive(a.id, b.id, c.id);
      }
    }
  }

  lemma NearestIsUnique(rows: set<Row>, d: Draft, exact: bool, r: Row, s: Row)
    requires DistinctIds(rows) && IsNearest(rows, d, exact, r) && IsNearest(rows, d, exact, s)
    ensures r == s
  {
    assert NoFarther(d, r, s) && NoFarther(d, s, r);
    if Less(r.id, s.id) {
      LessAsymmetric(r.id, s.id);
    }
  }

  lemma NearestIs(rows: set<Row>, d: Draft, exact: bool, r: Row)
    requires DistinctIds(rows) && IsNearest(rows, d, exact, r)
    ensures Nearest(rows, d, exact) == Some(r)
  {
    var s :| IsNearest(rows, d, exact, s) && Nearest(rows, d, exact) == Some(s);
    NearestIsUnique(rows, d, exact, r, s);
  }

  lemma {:induction false} NearestExists(rows: set<Row>, d: Draft, exact: bool, r: Row)
    requires r in rows && Eligible(r, d, exact)
    ensures Nearest(rows, d, exact).Some?
    decreases |rows|
  {
    var rest := rows - {r};
    if x :| x in rest && Eligible(x, d, exact) {
      NearestExists(rest, d, exact, x);
      var m :| IsNearest(rest, d, exact, m);
      NoFartherOrders(d);
      var atMost := (a, b) => NoFarther(d, a, b);
      assert atMost(m, r) || atMost(r, m);
      if NoFarther(d, m, r) {
        assert IsNearest(rows, d, exact, m);
      } else {
        forall y | y in rows && Eligible(y, d, exact) ensures NoFarther(d, r, y) {
          if y != r {
            assert atMost(r, m) && atMost(m, y);
            assert atMost(r, y);
          }
        }
        assert atMost(r, r);
        assert IsNearest(rows, d, exact, r);
      }
    } else {
      LessTotal(r.id, r.id);
      assert IsNearest(rows, d, exact, r);
    }
  }

  function Gap(a: int, b: int): int {
    if a < b then b - a else a - b
  }

  /** The pick has the draft's file, kind and (in the first pass) statement; of those, the least gap, then id. */
  ghost predicate PicksNearest(left: set<Row>, d: Draft, exact: bool, pick: Option<Row>) {
    match pick
    case None => forall x :: x in left ==> x.file != d.file || x.kind != d.kind || (exact && x.hash != d.hash)
    case Some(r) =>
      && r in left && r.file == d.file && r.kind == d.kind && (exact ==> r.hash == d.hash)
      && forall x :: x in left && x.file == d.file && x.kind == d.kind && (exact ==> x.hash == d.hash) ==>
           || Gap(r.ordinal, d.ordinal) < Gap(x.ordinal, d.ordinal)
           || (Gap(r.ordinal, d.ordinal) == Gap(x.ordinal, d.ordinal) && (r.id == x.id || Less(r.id, x.id)))
  }

  lemma NearestPicks(rows: set<Row>, d: Draft, exact: bool)
    ensures PicksNearest(rows, d, exact, Nearest(rows, d, exact))
  {
    forall x | x in rows && Eligible(x, d, exact) ensures Nearest(rows, d, exact).Some? {
      NearestExists(rows, d, exact, x);
    }
  }

  // ---- The two passes ----

  /** `newcomers` records which drafts were given new ids. */
  datatype Matching =
    Matching(named: seq<Assigned>, pending: seq<Draft>, available: set<Row>, counter: nat, newcomers: seq<Draft>)

  function LabelledOnes(drafts: seq<Draft>): seq<Assigned> {
    if drafts == [] then []
    else
      var d := drafts[|drafts| - 1];
      LabelledOnes(drafts[..|drafts| - 1]) + if Labelled(d) then [Assigned(d, LabelOf(d))] else []
  }

  function Unlabelled(drafts: seq<Draft>): seq<Draft> {
    if drafts == [] then []
    else
      var d := drafts[|drafts| - 1];
      Unlabelled(drafts[..|drafts| - 1]) + if Labelled(d) then [] else [d]
  }

  function Prior(rows: set<Row>): set<Row> {
    set r | r in rows && r.latexLabel.None?
  }

  function Taken(m: Matching, d: Draft, r: Row): Matching {
    m.(named := m.named + [Assigned(d, r.id)], available := m.available - {r})
  }

  function Allocated(m: Matching, d: Draft): Matching {
    m.(named := m.named + [Assigned(d, AutoId(d.kind, m.counter))], counter := m.counter + 1,
       newcomers := m.newcomers + [d])
  }

  ghost function Exact(m: Matching, d: Draft): Matching {
    match Nearest(m.available, d, true)
    case Some(r) => Taken(m, d, r)
    case None => m.(pending := m.pending + [d])
  }

  ghost function ExactAll(m: Matching, drafts: seq<Draft>): Matching {
    if drafts == [] then m else Exact(ExactAll(m, drafts[..|drafts| - 1]), drafts[|drafts| - 1])
  }

  ghost function Loose(m: Matching, d: Draft): Matching {
    match Nearest(m.available, d, false)
    case Some(r) => Taken(m, d, r)
    case None => Allocated(m, d)
  }

  ghost function LooseAll(m: Matching, drafts: seq<Draft>): Matching {
    if drafts == [] then m else Loose(LooseAll(m, drafts[..|drafts| - 1]), drafts[|drafts| - 1])
  }

  function Initial(drafts: seq<Draft>, rows: set<Row>, counter: nat): Matching {
    Matching(LabelledOnes(drafts), [], Prior(rows), counter, [])
  }

  ghost function AfterExact(drafts: seq<Draft>, rows: set<Row>, counter: nat): Matching {
    ExactAll(Initial(drafts, rows, counter), Unlabelled(drafts))
  }

  ghost function Final(drafts: seq<Draft>, rows: set<Row>, counter: nat): Matching {
    var first := AfterExact(drafts, rows, counter);
    LooseAll(first, first.pending)
  }

  // ---- A claim loses its id only when all rows of its statement have gone to that statement ----

  /** The id is that of an earlier unlabelled row with the same file, kind and statement. */
  ghost predicate KeepsRow(rows: set<Row>, a: Assigned) {
    exists r :: && r in rows && r.latexLabel == None && r.id == a.id
                && r.file == a.draft.file && r.kind == a.draft.kind && r.hash == a.draft.hash
  }

  /** The row went to a draft with its own file, kind and statement. */
  ghost predicate GoesToItsStatement(out: seq<Assigned>, r: Row) {
    exists b :: && b in out && b.draft.latexLabel in {None, Some("")} && b.id == r.id
                && r.file == b.draft.file && r.kind == b.draft.kind && r.hash == b.draft.hash
  }

  /** An unlabelled draft without such an id found all earlier rows of its statement gone to that statement. */
  ghost predicate KeepsStatements(rows: set<Row>, out: seq<Assigned>) {
    forall a, r ::
      && a in out && a.draft.latexLabel in {None, Some("")} && !KeepsRow(rows, a)
      && r in rows && r.latexLabel == None
      && r.file == a.draft.file && r.kind == a.draft.kind && r.hash == a.draft.hash
      ==> GoesToItsStatement(out, r)
  }

  ghost predicate StatementsKept(rows: set<Row>, m: Matching) {
    && (forall a :: a in m.named && a.draft.latexLabel in {None, Some("")} ==> KeepsRow(rows, a))
    && (forall r :: r in rows && r.latexLabel == None && r !in m.available ==> GoesToItsStatement(m.named, r))
    && (forall r :: r in m.available ==> r in rows && r.latexLabel == None)
    && (forall d, r :: d in m.pending && r in m.available ==> r.file != d.file || r.kind != d.kind || r.hash != d.hash)
  }

  lemma {:induction false} LabelledOnesHaveLabels(drafts: seq<Draft>, a: Assigned)
    requires a in LabelledOnes(drafts)
    ensures a.draft.latexLabel !in {None, Some("")}
  {
    if a in LabelledOnes(drafts[..|drafts| - 1]) {
      LabelledOnesHaveLabels(drafts[..|drafts| - 1], a);
    }
  }

  lemma {:induction false} UnlabelledHaveNone(drafts: seq<Draft>, d: Draft)
    requires d in Unlabelled(drafts)
    ensures d.latexLabel in {None, Some("")}
  {
    if d in Unlabelled(drafts[..|drafts| - 1]) {
      UnlabelledHaveNone(drafts[..|drafts| - 1], d);
    }
  }

  lemma NamingKeepsGoing(out: seq<Assigned>, more: seq<Assigned>, r: Row)
    requires GoesToItsStatement(out, r) && forall b :: b in out ==> b in more
    ensures GoesToItsStatement(more, r)
  {
  }

  lemma ExactKeepsStatements(rows: set<Row>, m: Matching, d: Draft)
    requires StatementsKept(rows, m) && d.latexLabel in {None, Some("")}
    ensures StatementsKept(rows, Exact(m, d))
  {
    NearestPicks(m.available, d, true);
    match Nearest(m.available, d, true)
    case Some(r) =>
      var after := Taken(m, d, r);
      assert after.named[|m.named|] == Assigned(d, r.id);
      assert KeepsRow(rows, Assigned(d, r.id)) && GoesToItsStatement(after.named, r);
      forall x | x in rows && x.latexLabel == None && x !in m.available ensures GoesToItsStatement(after.named, x) {
        NamingKeepsGoing(m.named, after.named, x);
      }
    case None =>
  }

  lemma {:induction false} ExactAllKeepsStatements(rows: set<Row>, m: Matching, drafts: seq<Draft>)
    requires StatementsKept(rows, m) && forall d :: d in drafts ==> d.latexLabel in {None, Some("")}
    ensures StatementsKept(rows, ExactAll(m, drafts))
  {
    if drafts == [] {
    } else {
      ExactAllKeepsStatements(rows, m, drafts[..|drafts| - 1]);
      ExactKeepsStatements(rows, ExactAll(m, drafts[..|drafts| - 1]), drafts[|drafts| - 1]);
    }
  }

  /** The second pass only adds names, and only for its drafts. */
  lemma {:induction false} LooseAddsNames(m: Matching, drafts: seq<Draft>)
    ensures forall a :: a in m.named ==> a in LooseAll(m, drafts).named
    ensures forall a :: a in LooseAll(m, drafts).named ==> a in m.named || a.draft in drafts
  {
    if drafts == [] {
    } else {
      LooseAddsNames(m, drafts[..|drafts| - 1]);
      assert drafts == drafts[..|drafts| - 1] + [drafts[|drafts| - 1]];
    }
  }

  lemma InitialKeepsStatements(drafts: seq<Draft>, rows: set<Row>, counter: nat)
    ensures StatementsKept(rows, AfterExact(drafts, rows, counter))
  {
    var m := Initial(drafts, rows, counter);
    forall a | a in m.named ensures a.draft.latexLabel !in {None, Some("")} {
      LabelledOnesHaveLabels(drafts, a);
    }
    forall d | d in Unlabelled(drafts) ensures d.latexLabel in {None, Some("")} {
      UnlabelledHaveNone(drafts, d);
    }
    ExactAllKeepsStatements(rows, m, Unlabelled(drafts));
  }

  lemma FinalKeepsStatements(drafts: seq<Draft>, rows: set<Row>, counter: nat, out: seq<Assigned>)
    requires forall a :: a in out <==> a in Final(drafts, rows, counter).named
    ensures KeepsStatements(rows, out)
  {
    var first := AfterExact(drafts, rows, counter);
    InitialKeepsStatements(drafts, rows, counter);
    LooseAddsNames(first, first.pending);
    forall a, r |
      && a in out && a.draft.latexLabel in {None, Some("")} && !KeepsRow(rows, a)
      && r in rows && r.latexLabel == None
      && r.file == a.draft.file && r.kind == a.draft.kind && r.hash == a.draft.hash
      ensures GoesToItsStatement(out, r)
    {
      assert a.draft in first.pending && r !in first.available;
      NamingKeepsGoing(first.named, out, r);
    }
  }

  lemma SameMembers<T>(q: seq<T>, r: seq<T>)
    requires multiset(q) == multiset(r)
    ensures forall x :: x in q <==> x in r
  {
    forall x ensures x in q <==> x in r {
      assert x in multiset(q) <==> x in multiset(r);
    }
  }

  ghost predicate RepeatedLabel(drafts: seq<Draft>) {
    exists i, j :: 0 <= i < j < |drafts| && SameLabel(drafts[i], drafts[j])
  }

  predicate SameLabel(a: Draft, b: Draft) {
    Labelled(a) && Labelled(b) && LabelOf(a) == LabelOf(b)
  }

  /** The final sort key `(source_file, ordinal, claim_id)`. */
  predicate InOrder(a: Assigned, b: Assigned) {
    || Less(a.draft.file, b.draft.file)
    || (a.draft.file == b.draft.file &&
        (a.draft.ordinal < b.draft.ordinal || (a.draft.ordinal == b.draft.ordinal && AtMost(a.id, b.id))))
  }

  /** By file, then ordinal, then id. */
  ghost predicate SortedByPlace(out: seq<Assigned>) {
    forall i, j :: 0 <= i < j < |out| ==>
      || Less(out[i].draft.file, out[j].draft.file)
      || (&& out[i].draft.file == out[j].draft.file
          && (|| out[i].draft.ordinal < out[j].draft.ordinal
              || (out[i].draft.ordinal == out[j].draft.ordinal
                  && (out[i].id == out[j].id || Less(out[i].id, out[j].id)))))
  }

  lemma InOrderOrders()
    ensures TotalPreorder(InOrder)
  {
    forall a, b ensures InOrder(a, b) || InOrder(b, a) {
      LessTotal(a.draft.file, b.draft.file);
      LessTotal(a.id, b.id);
    }
    forall a, b, c | InOrder(a, b) && InOrder(b, c) ensures InOrder(a, c) {
      if Less(a.draft.file, b.draft.file) && Less(b.draft.file, c.draft.file) {
        LessTransitive(a.draft.file, b.draft.file, c.draft.file);
      }
      if Less(a.id, b.id) && Less(b.id, c.id) {
        LessTransitive(a.id, b.id, c.id);
      }
    }
  }

  // ---- The algorithm ----

  class StateStore {
    var rows: set<Row>
    var counter: nat

    constructor (rows: set<Row>, counter: nat)
      ensures this.rows == rows && this.counter == counter
    {
      this.rows, this.counter := rows, counter;
    }

    method AllocateClaimId(kind: string) returns (id: string)
      modifies this`counter
      ensures id == AutoId(kind, old(counter)) && counter == old(counter) + 1
      ensures exists digits :: id == kind + ":auto-" + digits && SixDigits(digits, old(counter))
    {
      AutoIdReads(kind, counter);
      id := AutoId(kind, counter);
      counter := counter + 1;
    }
  }

  /** The dictionary of unused rows, by claim id. */
  predicate Keyed(available: map<string, Row>) {
    forall k :: k in available ==> available[k].id == k
  }

  lemma KeyedIsDistinct(available: map<string, Row>)
    requires Keyed(available)
    ensures DistinctIds(available.Values)
  {
  }

  lemma PopTakes(available: map<string, Row>, r: Row)
    requires Keyed(available) && r in available.Values
    ensures Keyed(available - {r.id}) && (available - {r.id}).Values == available.Values - {r}
  {
    forall x | x in available.Values && x != r ensures x in (available - {r.id}).Values {
      assert (available - {r.id})[x.id] == x;
    }
  }

  ghost predicate Gathers(candidates: seq<Row>, available: map<string, Row>, left: set<string>, d: Draft, exact: bool) {
    forall x :: x in candidates <==> x in available.Values && x.id !in left && Eligible(x, d, exact)
  }

  lemma GatherOne(candidates: seq<Row>, available: map<string, Row>, left: set<string>, d: Draft, exact: bool, k: string)
    requires Keyed(available) && k in left && left <= available.Keys
    requires Gathers(candidates, available, left, d, exact)
    ensures Gathers(if Eligible(available[k], d, exact) then candidates + [available[k]] else candidates,
                    available, left - {k}, d, exact)
  {
  }

  lemma FirstIsNearest(candidates: seq<Row>, available: map<string, Row>, d: Draft, exact: bool, ranked: seq<Row>)
    requires Keyed(available) && Gathers(candidates, available, {}, d, exact)
    requires multiset(ranked) == multiset(candidates) && SortedBy((a, b) => NoFarther(d, a, b), ranked)
    ensures Nearest(available.Values, d, exact) == if ranked == [] then None else Some(ranked[0])
  {
    assert forall x :: x in ranked <==> x in multiset(ranked);
    assert forall x :: x in candidates <==> x in multiset(candidates);
    if ranked != [] {
      KeyedIsDistinct(available);
      LessTotal(ranked[0].id, ranked[0].id);
      assert IsNearest(available.Values, d, exact, ranked[0]);
      NearestIs(available.Values, d, exact, ranked[0]);
    }
  }

  method NearestRow(available: map<string, Row>, d: Draft, exact: bool) returns (r: Option<Row>)
    requires Keyed(available)
    ensures r == Nearest(available.Values, d, exact)
    ensures PicksNearest(available.Values, d, exact, r)
  {
    var candidates: seq<Row> := [];
    var keys := available.Keys;
    while keys != {}
      invariant keys <= available.Keys && Gathers(candidates, available, keys, d, exact)
      decreases keys
    {
      var k :| k in keys;
      GatherOne(candidates, available, keys, d, exact, k);
      keys := keys - {k};
      if Eligible(available[k], d, exact) {
        candidates := candidates + [available[k]];
      }
    }
    NoFartherOrders(d);
    var ranked := Sort((a, b) => NoFarther(d, a, b), candidates);
    FirstIsNearest(candidates, available, d, exact, ranked);
    r := if ranked == [] then None else Some(ranked[0]);
    NearestPicks(available.Values, d, exact);
  }

  ghost predicate UsesLabel(drafts: seq<Draft>, l: string) {
    exists j :: 0 <= j < |drafts| && Labelled(drafts[j]) && LabelOf(drafts[j]) == l
  }

  ghost predicate SeenLabels(drafts: seq<Draft>, seen: map<string, string>) {
    forall l :: l in seen <==> UsesLabel(drafts, l)
  }

  lemma UseOne(drafts: seq<Draft>, d: Draft, l: string)
    ensures UsesLabel(drafts + [d], l) <==> UsesLabel(drafts, l) || (Labelled(d) && LabelOf(d) == l)
  {
    var more := drafts + [d];
    assert more[|drafts|] == d;
    assert forall j :: 0 <= j < |drafts| ==> more[j] == drafts[j];
  }

  lemma RepeatOne(drafts: seq<Draft>, d: Draft)
    ensures RepeatedLabel(drafts + [d]) <==>
            RepeatedLabel(drafts) || (Labelled(d) && UsesLabel(drafts, LabelOf(d)))
  {
    var more := drafts + [d];
    assert more[|drafts|] == d;
    assert forall j :: 0 <= j < |drafts| ==> more[j] == drafts[j];
    if RepeatedLabel(drafts) {
      var i, j :| 0 <= i < j < |drafts| && SameLabel(drafts[i], drafts[j]);
      assert SameLabel(more[i], more[j]);
    }
    if Labelled(d) && UsesLabel(drafts, LabelOf(d)) {
      var i :| 0 <= i < |drafts| && Labelled(drafts[i]) && LabelOf(drafts[i]) == LabelOf(d);
      assert SameLabel(more[i], more[|drafts|]);
    }
  }

  lemma SeeOne(drafts: seq<Draft>, seen: map<string, string>, d: Draft)
    requires SeenLabels(drafts, seen) && !RepeatedLabel(drafts)
    ensures RepeatedLabel(drafts + [d]) <==> Labelled(d) && LabelOf(d) in seen
    ensures SeenLabels(drafts + [d], if Labelled(d) then seen[LabelOf(d) := d.file] else seen)
  {
    RepeatOne(drafts, d);
    forall l ensures UsesLabel(drafts + [d], l) <==> UsesLabel(drafts, l) || (Labelled(d) && LabelOf(d) == l) {
      UseOne(drafts, d, l);
    }
  }

  lemma RepetitionStays(drafts: seq<Draft>, k: nat)
    requires k <= |drafts| && RepeatedLabel(drafts[..k])
    ensures RepeatedLabel(drafts)
  {
    var i, j :| 0 <= i < j < k && SameLabel(drafts[..k][i], drafts[..k][j]);
    assert SameLabel(drafts[i], drafts[j]);
  }

  method SplitByLabel(drafts: seq<Draft>) returns (ok: bool, named: seq<Assigned>, unlabelled: seq<Draft>)
    ensures ok <==> !RepeatedLabel(drafts)
    ensures ok ==> named == LabelledOnes(drafts) && unlabelled == Unlabelled(drafts)
  {
    var seen: map<string, string> := map[];
    named, unlabelled := [], [];
    for i := 0 to |drafts|
      invariant SeenLabels(drafts[..i], seen) && !RepeatedLabel(drafts[..i])
      invariant named == LabelledOnes(drafts[..i]) && unlabelled == Unlabelled(drafts[..i])
    {
      var d := drafts[i];
      SeeOne(drafts[..i], seen, d);
      assert drafts[..i + 1] == drafts[..i] + [d];
      if Labelled(d) {
        if d.latexLabel.value in seen {
          RepetitionStays(drafts, i + 1);
          return false, named, unlabelled;
        }
        seen := seen[d.latexLabel.value := d.file];
        named := named + [Assigned(d, d.latexLabel.value)];
      } else {
        unlabelled := unlabelled + [d];
      }
    }
    assert drafts[..|drafts|] == drafts;
    ok := true;
  }

  ghost function PickedRows(picks: seq<Option<Row>>): set<Row> {
    set i | 0 <= i < |picks| && picks[i].Some? :: picks[i].value
  }

  /** Draft by draft, the nearest row that no earlier draft has picked. */
  ghost predicate Greedy(rows: set<Row>, drafts: seq<Draft>, exact: bool, picks: seq<Option<Row>>) {
    && |picks| == |drafts|
    && forall i :: 0 <= i < |drafts| ==> PicksNearest(rows - PickedRows(picks[..i]), drafts[i], exact, picks[i])
  }

  /** A draft that picked a row has its id. */
  ghost predicate Names(drafts: seq<Draft>, picks: seq<Option<Row>>, named: seq<Assigned>)
    requires |picks| == |drafts|
  {
    forall i :: 0 <= i < |drafts| && picks[i].Some? ==> Assigned(drafts[i], picks[i].value.id) in named
  }

  lemma PickedAppend(picks: seq<Option<Row>>, pick: Option<Row>)
    ensures PickedRows(picks + [pick]) == PickedRows(picks) + if pick.Some? then {pick.value} else {}
  {
    var more := picks + [pick];
    assert more[|picks|] == pick && forall i :: 0 <= i < |picks| ==> more[i] == picks[i];
  }

  lemma GreedyAppend(rows: set<Row>, drafts: seq<Draft>, exact: bool, picks: seq<Option<Row>>, d: Draft, pick: Option<Row>)
    requires Greedy(rows, drafts, exact, picks) && PicksNearest(rows - PickedRows(picks), d, exact, pick)
    ensures Greedy(rows, drafts + [d], exact, picks + [pick])
  {
    var more, after := drafts + [d], picks + [pick];
    forall i | 0 <= i < |more| ensures PicksNearest(rows - PickedRows(after[..i]), more[i], exact, after[i]) {
      if i < |drafts| {
        assert after[..i] == picks[..i];
      } else {
        assert after[..i] == picks;
      }
    }
  }

  /** What a pass has picked so far, and what is left. */
  ghost predicate Picking(rows: set<Row>, drafts: seq<Draft>, exact: bool, picks: seq<Option<Row>>, named: seq<Assigned>,
                          left: set<Row>) {
    Greedy(rows, drafts, exact, picks) && Names(drafts, picks, named) && left == rows - PickedRows(picks)
  }

  lemma PickingGoesOn(rows: set<Row>, drafts: seq<Draft>, exact: bool, picks: seq<Option<Row>>, named: seq<Assigned>,
                      left: set<Row>, d: Draft, pick: Option<Row>, more: seq<Assigned>)
    requires Picking(rows, drafts, exact, picks, named, left) && PicksNearest(left, d, exact, pick)
    requires (forall a :: a in named ==> a in more) && (pick.Some? ==> Assigned(d, pick.value.id) in more)
    ensures Picking(rows, drafts + [d], exact, picks + [pick], more, left - if pick.Some? then {pick.value} else {})
  {
    GreedyAppend(rows, drafts, exact, picks, d, pick);
    PickedAppend(picks, pick);
  }

  method MatchExact(named0: seq<Assigned>, available0: map<string, Row>, drafts: seq<Draft>, ghost m: Matching)
    returns (named: seq<Assigned>, pending: seq<Draft>, available: map<string, Row>, ghost picks: seq<Option<Row>>)
    requires Keyed(available0) && m.named == named0 && m.pending == [] && m.available == available0.Values
    ensures Greedy(available0.Values, drafts, true, picks) && Names(drafts, picks, named)
    ensures available.Values == available0.Values - PickedRows(picks)
    ensures forall i :: 0 <= i < |drafts| && picks[i].None? ==> drafts[i] in pending
    ensures Keyed(available)
    ensures
      ExactAll(m, drafts) == m.(named := named, pending := pending, available := available.Values)
  {
    named, pending, available, picks := named0, [], available0, [];
    for i := 0 to |drafts|
      invariant Keyed(available)
      invariant Picking(available0.Values, drafts[..i], true, picks, named, available.Values)
      invariant forall j :: 0 <= j < i && picks[j].None? ==> drafts[j] in pending
      invariant ExactAll(m, drafts[..i]) == m.(named := named, pending := pending, available := available.Values)
    {
      var d := drafts[i];
      assert drafts[..i + 1][..i] == drafts[..i] && drafts[..i + 1] == drafts[..i] + [d];
      var row := NearestRow(available, d, true);
      ghost var before, left := named, available.Values;
      match row {
        case Some(r) =>
          PopTakes(available, r);
          available := available - {r.id};
          named := named + [Assigned(d, r.id)];
        case None =>
          pending := pending + [d];
      }
      PickingGoesOn(available0.Values, drafts[..i], true, picks, before, left, d, row, named);
      picks := picks + [row];
    }
    assert drafts[..|drafts|] == drafts;
  }

  /** The second pass has come as far as its specification has. */
  ghost predicate LooseReached(m: Matching, drafts: seq<Draft>, named: seq<Assigned>, left: set<Row>, counter: nat) {
    var now := LooseAll(m, drafts);
    named == now.named && left == now.available && counter == now.counter
  }

  lemma LooseGoesOn(m: Matching, drafts: seq<Draft>, d: Draft, named: seq<Assigned>, left: set<Row>, counter: nat)
    requires LooseReached(m, drafts, named, left, counter)
    ensures match Nearest(left, d, false)
            case Some(r) => LooseReached(m, drafts + [d], named + [Assigned(d, r.id)], left - {r}, counter)
            case None => LooseReached(m, drafts + [d], named + [Assigned(d, AutoId(d.kind, counter))], left, counter + 1)
  {
    assert (drafts + [d])[..|drafts|] == drafts;
  }

  method MatchLoose(store: StateStore, named0: seq<Assigned>, available0: map<string, Row>, drafts: seq<Draft>,
                    ghost m: Matching)
    returns (named: seq<Assigned>, ghost picks: seq<Option<Row>>)
    requires Keyed(available0) && m.named == named0 && m.available == available0.Values && m.counter == store.counter
    modifies store`counter
    ensures Greedy(available0.Values, drafts, false, picks) && Names(drafts, picks, named)
    ensures named == LooseAll(m, drafts).named && store.counter == LooseAll(m, drafts).counter
  {
    named, picks := named0, [];
    var available := available0;
    for i := 0 to |drafts|
      invariant Keyed(available)
      invariant Picking(available0.Values, drafts[..i], false, picks, named, available.Values)
      invariant LooseReached(m, drafts[..i], named, available.Values, store.counter)
    {
      var d := drafts[i];
      assert drafts[..i + 1] == drafts[..i] + [d];
      var row := NearestRow(available, d, false);
      ghost var before, left := named, available.Values;
      LooseGoesOn(m, drafts[..i], d, named, left, store.counter);
      var id: string;
      match row {
        case Some(r) =>
          PopTakes(available, r);
          available := available - {r.id};
          id := r.id;
        case None =>
          id := store.AllocateClaimId(d.kind);
      }
      named := named + [Assigned(d, id)];
      PickingGoesOn(available0.Values, drafts[..i], false, picks, before, left, d, row, named);
      picks := picks + [row];
    }
    assert drafts[..|drafts|] == drafts;
  }

  function ById(rows: set<Row>): (available: map<string, Row>)
    requires DistinctIds(rows)
    ensures Keyed(available) && available.Values == rows
  {
    var available := map r | r in rows :: r.id := r;
    assert forall r :: r in rows ==> available[r.id] == r;
    available
  }

  method AssignStableIds(drafts: seq<Draft>, store: StateStore) returns (r: Option<seq<Assigned>>)
    requires DistinctIds(store.rows)
    modifies store`counter
    ensures r.None? <==> RepeatedLabel(drafts)
    ensures r.None? ==> store.counter == old(store.counter)
    ensures r.Some? ==>
      var final := Final(drafts, store.rows, old(store.counter));
      SortedBy(InOrder, r.value) && multiset(r.value) == multiset(final.named) && store.counter == final.counter
    ensures r.Some? ==> KeepsStatements(store.rows, r.value) && SortedByPlace(r.value)
  {
    var ok, named, unlabelled := SplitByLabel(drafts);
    if !ok {
      return None;
    }
    var available := ById(Prior(store.rows));
    ghost var m := Initial(drafts, store.rows, store.counter);
    var pending;
    ghost var exact, loose;
    named, pending, available, exact := MatchExact(named, available, unlabelled, m);
    named, loose := MatchLoose(store, named, available, pending, ExactAll(m, unlabelled));
    InOrderOrders();
    var sorted := Sort(InOrder, named);
    SameMembers(sorted, named);
    FinalKeepsStatements(drafts, store.rows, m.counter, sorted);
    r := Some(sorted);
  }
}
