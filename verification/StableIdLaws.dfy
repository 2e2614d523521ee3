/** What re-indexing promises: no claim is lost, ids are distinct, and unchanged claims keep theirs. */
module StableIdLaws {
  import opened Options
  import opened Ordering
  import opened Sorting
  import opened StableIds
  import opened Sums

  // ---- The drafts come back, each with an id of the right origin ----

  function Times(drafts: seq<Draft>, d: Draft): nat {
    if drafts == [] then 0 else Times(drafts[..|drafts| - 1], d) + if drafts[|drafts| - 1] == d then 1 else 0
  }

  function TimesNamed(q: seq<Assigned>, d: Draft): nat {
    if q == [] then 0 else TimesNamed(q[..|q| - 1], d) + if q[|q| - 1].draft == d then 1 else 0
  }

  lemma TimesAppend(drafts: seq<Draft>, x: Draft, d: Draft)
    ensures Times(drafts + [x], d) == Times(drafts, d) + if x == d then 1 else 0
  {
    assert (drafts + [x])[..|drafts|] == drafts;
  }

  lemma NamedAppend(q: seq<Assigned>, a: Assigned, d: Draft)
    ensures TimesNamed(q + [a], d) == TimesNamed(q, d) + if a.draft == d then 1 else 0
  {
    assert (q + [a])[..|q|] == q;
  }

  lemma {:induction false} NamedConcat(q: seq<Assigned>, r: seq<Assigned>, d: Draft)
    ensures TimesNamed(q + r, d) == TimesNamed(q, d) + TimesNamed(r, d)
    decreases |r|
  {
    if r == [] {
      assert q + r == q;
    } else {
      var front, last := r[..|r| - 1], r[|r| - 1];
      NamedConcat(q, front, d);
      NamedAppend(q + front, last, d);
      assert q + r == q + front + [last];
    }
  }

  lemma NamedAround(q: seq<Assigned>, a: Assigned, r: seq<Assigned>, d: Draft)
    ensures TimesNamed(q + [a] + r, d) == TimesNamed(q + r, d) + if a.draft == d then 1 else 0
  {
    NamedConcat(q, r, d);
    NamedAppend(q, a, d);
    NamedConcat(q + [a], r, d);
  }

  lemma Cancel<T>(a: multiset<T>, b: multiset<T>, x: T)
    requires a + multiset{x} == b + multiset{x}
    ensures a == b
  {
    assert a == a + multiset{x} - multiset{x};
    assert b == b + multiset{x} - multiset{x};
  }

  lemma {:induction false} PermutedNamed(q: seq<Assigned>, r: seq<Assigned>, d: Draft)
    requires multiset(q) == multiset(r)
    ensures TimesNamed(q, d) == TimesNamed(r, d)
    decreases |q|
  {
    if q == [] {
      assert |multiset(r)| == |r| == 0;
    } else {
      var front, a := q[..|q| - 1], q[|q| - 1];
      assert q == front + [a];
      assert a in multiset(r);
      var k :| 0 <= k < |r| && r[k] == a;
      var left, right := r[..k], r[k + 1..];
      assert r == left + [a] + right;
      SplitPermutation(front, a, left, right);
      PermutedNamed(front, left + right, d);
      NamedAround(left, a, right, d);
    }
  }

  lemma SplitPermutation<T>(front: seq<T>, a: T, left: seq<T>, right: seq<T>)
    requires multiset(front + [a]) == multiset(left + [a] + right)
    ensures multiset(front) == multiset(left + right)
  {
    Cancel(multiset(front), multiset(left + right), a);
  }

  lemma {:induction false} SplitKeepsDrafts(drafts: seq<Draft>, d: Draft)
    ensures TimesNamed(LabelledOnes(drafts), d) + Times(Unlabelled(drafts), d) == Times(drafts, d)
  {
    if drafts == [] {
    } else {
      var front, x := drafts[..|drafts| - 1], drafts[|drafts| - 1];
      SplitKeepsDrafts(front, d);
      if Labelled(x) {
        NamedAppend(LabelledOnes(front), Assigned(x, LabelOf(x)), d);
        assert Unlabelled(drafts) == Unlabelled(front);
      } else {
        TimesAppend(Unlabelled(front), x, d);
        assert LabelledOnes(drafts) == LabelledOnes(front);
      }
    }
  }

  lemma {:induction false} ExactKeepsDrafts(m: Matching, drafts: seq<Draft>, d: Draft)
    ensures TimesNamed(ExactAll(m, drafts).named, d) + Times(ExactAll(m, drafts).pending, d)
         == TimesNamed(m.named, d) + Times(m.pending, d) + Times(drafts, d)
  {
    if drafts == [] {
    } else {
      var front, x := drafts[..|drafts| - 1], drafts[|drafts| - 1];
      ExactKeepsDrafts(m, front, d);
      var before := ExactAll(m, front);
      match Nearest(before.available, x, true)
      case Some(r) => NamedAppend(before.named, Assigned(x, r.id), d);
      case None => TimesAppend(before.pending, x, d);
    }
  }

  lemma {:induction false} LooseKeepsDrafts(m: Matching, drafts: seq<Draft>, d: Draft)
    ensures TimesNamed(LooseAll(m, drafts).named, d) == TimesNamed(m.named, d) + Times(drafts, d)
  {
    if drafts == [] {
    } else {
      var front, x := drafts[..|drafts| - 1], drafts[|drafts| - 1];
      LooseKeepsDrafts(m, front, d);
      var before := LooseAll(m, front);
      match Nearest(before.available, x, false)
      case Some(r) => NamedAppend(before.named, Assigned(x, r.id), d);
      case None => NamedAppend(before.named, Assigned(x, AutoId(x.kind, before.counter)), d);
    }
  }

  lemma FinalKeepsDrafts(drafts: seq<Draft>, rows: set<Row>, counter: nat, d: Draft)
    ensures TimesNamed(Final(drafts, rows, counter).named, d) == Times(drafts, d)
  {
    var first := AfterExact(drafts, rows, counter);
    SplitKeepsDrafts(drafts, d);
    ExactKeepsDrafts(Initial(drafts, rows, counter), Unlabelled(drafts), d);
    LooseKeepsDrafts(first, first.pending, d);
  }

  /** A label is its own id; any other id is an unlabelled row's of that file and kind, or new. */
  ghost predicate Founded(a: Assigned, rows: set<Row>, from: nat, to: nat) {
    if Labelled(a.draft) then a.id == LabelOf(a.draft)
    else
      || (exists r :: r in Prior(rows) && r.id == a.id && r.file == a.draft.file && r.kind == a.draft.kind)
      || (exists n :: from <= n < to && a.id == AutoId(a.draft.kind, n))
  }

  ghost predicate AllFounded(m: Matching, rows: set<Row>, from: nat) {
    && from <= m.counter && m.available <= Prior(rows)
    && (forall d :: d in m.pending ==> !Labelled(d))
    && forall a :: a in m.named ==> Founded(a, rows, from, m.counter)
  }

  lemma TakingIsFounded(m: Matching, rows: set<Row>, from: nat, d: Draft, exact: bool, r: Row)
    requires AllFounded(m, rows, from) && !Labelled(d) && IsNearest(m.available, d, exact, r)
    ensures AllFounded(Taken(m, d, r), rows, from)
  {
    assert r in Prior(rows) && r.file == d.file && r.kind == d.kind;
    assert Founded(Assigned(d, r.id), rows, from, m.counter);
  }

  lemma AllocatingIsFounded(m: Matching, rows: set<Row>, from: nat, d: Draft)
    requires AllFounded(m, rows, from) && !Labelled(d)
    ensures AllFounded(Allocated(m, d), rows, from)
  {
    forall a | a in Allocated(m, d).named ensures Founded(a, rows, from, m.counter + 1) {
      if a !in m.named {
        assert a.id == AutoId(d.kind, m.counter);
      }
    }
  }

  lemma {:induction false} ExactIsFounded(m: Matching, rows: set<Row>, from: nat, drafts: seq<Draft>)
    requires AllFounded(m, rows, from) && forall d :: d in drafts ==> !Labelled(d)
    ensures AllFounded(ExactAll(m, drafts), rows, from)
  {
    if drafts == [] {
    } else {
      var front, d := drafts[..|drafts| - 1], drafts[|drafts| - 1];
      ExactIsFounded(m, rows, from, front);
      var before := ExactAll(m, front);
      match Nearest(before.available, d, true)
      case Some(r) => TakingIsFounded(before, rows, from, d, true, r);
      case None =>
    }
  }

  lemma {:induction false} LooseIsFounded(m: Matching, rows: set<Row>, from: nat, drafts: seq<Draft>)
    requires AllFounded(m, rows, from) && forall d :: d in drafts ==> !Labelled(d)
    ensures AllFounded(LooseAll(m, drafts), rows, from)
  {
    if drafts == [] {
    } else {
      var front, d := drafts[..|drafts| - 1], drafts[|drafts| - 1];
      LooseIsFounded(m, rows, from, front);
      var before := LooseAll(m, front);
      match Nearest(before.available, d, false)
      case Some(r) => TakingIsFounded(before, rows, from, d, false, r);
      case None => AllocatingIsFounded(before, rows, from, d);
    }
  }

  lemma {:induction false} SplitIsFounded(drafts: seq<Draft>)
    ensures forall a :: a in LabelledOnes(drafts) ==> Labelled(a.draft) && a.id == LabelOf(a.draft)
    ensures forall d :: d in Unlabelled(drafts) ==> !Labelled(d)
  {
    if drafts == [] {
    } else {
      SplitIsFounded(drafts[..|drafts| - 1]);
    }
  }

  lemma FinalIsFounded(drafts: seq<Draft>, rows: set<Row>, counter: nat)
    ensures AllFounded(Final(drafts, rows, counter), rows, counter)
  {
    var m := Initial(drafts, rows, counter);
    SplitIsFounded(drafts);
    ExactIsFounded(m, rows, counter, Unlabelled(drafts));
    LooseIsFounded(AfterExact(drafts, rows, counter), rows, counter, AfterExact(drafts, rows, counter).pending);
  }

  /** The result is the input drafts, each with an id of the right origin. */
  lemma ResultIsDraftsWithIds(drafts: seq<Draft>, rows: set<Row>, counter: nat, out: seq<Assigned>)
    requires multiset(out) == multiset(Final(drafts, rows, counter).named)
    ensures forall d :: TimesNamed(out, d) == Times(drafts, d)
    ensures forall a :: a in out ==> Founded(a, rows, counter, Final(drafts, rows, counter).counter)
  {
    var named := Final(drafts, rows, counter).named;
    forall d ensures TimesNamed(out, d) == Times(drafts, d) {
      PermutedNamed(out, named, d);
      FinalKeepsDrafts(drafts, rows, counter, d);
    }
    FinalIsFounded(drafts, rows, counter);
    assert forall a :: a in out <==> a in multiset(out);
    assert forall a :: a in named <==> a in multiset(named);
  }

  // ---- Distinct ids ----

  ghost predicate DistinctNames(q: seq<Assigned>) {
    forall i, j :: 0 <= i < j < |q| ==> q[i].id != q[j].id
  }

  lemma {:induction false} LabelledOnesAre(drafts: seq<Draft>, a: Assigned)
    requires a in LabelledOnes(drafts)
    ensures a.draft in drafts && Labelled(a.draft) && a.id == LabelOf(a.draft)
  {
    var front := drafts[..|drafts| - 1];
    if a in LabelledOnes(front) {
      LabelledOnesAre(front, a);
    }
  }

  lemma FrontRepeatsNothing(drafts: seq<Draft>, k: nat)
    requires k <= |drafts| && !RepeatedLabel(drafts)
    ensures !RepeatedLabel(drafts[..k])
  {
    forall i, j | 0 <= i < j < k ensures !SameLabel(drafts[..k][i], drafts[..k][j]) {
      assert !SameLabel(drafts[i], drafts[j]);
    }
  }

  lemma {:induction false} LabelsAreDistinct(drafts: seq<Draft>)
    requires !RepeatedLabel(drafts)
    ensures DistinctNames(LabelledOnes(drafts))
  {
    if drafts == [] {
    } else {
      var front, d := drafts[..|drafts| - 1], drafts[|drafts| - 1];
      FrontRepeatsNothing(drafts, |front|);
      LabelsAreDistinct(front);
      forall a | a in LabelledOnes(front) ensures !(Labelled(d) && a.id == LabelOf(d)) {
        LabelledOnesAre(front, a);
        var i :| 0 <= i < |front| && front[i] == a.draft;
        assert !SameLabel(drafts[i], drafts[|front|]);
      }
    }
  }

  function IdsOf(q: seq<Assigned>): set<string> {
    set a | a in q :: a.id
  }

  function RowIds(rows: set<Row>): set<string> {
    set r | r in rows :: r.id
  }

  /** The ids handed out for `newcomers` from number `counter` on. */
  function Generated(newcomers: seq<Draft>, counter: nat): set<string> {
    if newcomers == [] then {}
    else
      var k := |newcomers| - 1;
      Generated(newcomers[..k], counter) + {AutoId(newcomers[k].kind, counter + k)}
  }

  lemma {:induction false} IdsCount(q: seq<Assigned>)
    ensures |IdsOf(q)| <= |q| && (DistinctNames(q) <==> |IdsOf(q)| == |q|)
  {
    if q == [] {
      assert IdsOf(q) == {};
    } else {
      var front, a := q[..|q| - 1], q[|q| - 1];
      IdsCount(front);
      IdsAppend(front, a);
      NamesAppend(front, a);
      assert q == front + [a];
    }
  }

  lemma IdsAppend(q: seq<Assigned>, a: Assigned)
    ensures IdsOf(q + [a]) == IdsOf(q) + {a.id}
  {
  }

  lemma NamesAppend(q: seq<Assigned>, a: Assigned)
    ensures DistinctNames(q + [a]) <==> DistinctNames(q) && a.id !in IdsOf(q)
  {
    var more := q + [a];
    assert more[|q|] == a && forall i :: 0 <= i < |q| ==> more[i] == q[i];
    if a.id in IdsOf(q) {
      var i :| 0 <= i < |q| && q[i].id == a.id;
      assert more[i].id == more[|q|].id;
    }
    if DistinctNames(more) {
      assert forall i, j :: 0 <= i < j < |q| ==> more[i].id != more[j].id;
    }
    if DistinctNames(q) && a.id !in IdsOf(q) {
      assert forall i :: 0 <= i < |q| ==> q[i].id in IdsOf(q);
    }
  }

  lemma {:induction false} RowIdsCount(rows: set<Row>)
    requires DistinctIds(rows)
    ensures |RowIds(rows)| == |rows|
    decreases |rows|
  {
    if rows == {} {
      assert RowIds(rows) == {};
    } else {
      var r :| r in rows;
      RowIdsCount(rows - {r});
      RowIdsJoin(rows - {r}, r);
      assert rows == rows - {r} + {r};
    }
  }

  lemma RowIdsJoin(rows: set<Row>, r: Row)
    ensures RowIds(rows + {r}) == RowIds(rows) + {r.id}
  {
  }

  lemma GeneratedAppend(newcomers: seq<Draft>, d: Draft, counter: nat)
    ensures Generated(newcomers + [d], counter) == Generated(newcomers, counter) + {AutoId(d.kind, counter + |newcomers|)}
  {
    assert (newcomers + [d])[..|newcomers|] == newcomers;
  }

  lemma NumbersDiffer(k: string, m: nat, l: string, n: nat)
    requires m != n
    ensures AutoId(k, m) != AutoId(l, n)
  {
    if AutoId(k, m) == AutoId(l, n) {
      AutoIdsDiffer(k, m, l, n);
    }
  }

  lemma {:induction false} NextIsNew(newcomers: seq<Draft>, kind: string, counter: nat, next: nat)
    requires next >= counter + |newcomers|
    ensures AutoId(kind, next) !in Generated(newcomers, counter)
  {
    if newcomers == [] {
    } else {
      var k := |newcomers| - 1;
      NextIsNew(newcomers[..k], kind, counter, next);
      NumbersDiffer(newcomers[k].kind, counter + k, kind, next);
    }
  }

  lemma OneMoreId(ids: set<string>, id: string)
    requires id !in ids
    ensures |ids + {id}| == |ids| + 1
  {
  }

  lemma {:induction false} GeneratedCount(newcomers: seq<Draft>, counter: nat)
    ensures |Generated(newcomers, counter)| == |newcomers|
  {
    if newcomers == [] {
    } else {
      var k := |newcomers| - 1;
      GeneratedCount(newcomers[..k], counter);
      NextIsNew(newcomers[..k], newcomers[k].kind, counter, counter + k);
      OneMoreId(Generated(newcomers[..k], counter), AutoId(newcomers[k].kind, counter + k));
    }
  }

  lemma {:induction false} GeneratedIs(newcomers: seq<Draft>, counter: nat, id: string)
    requires id in Generated(newcomers, counter)
    ensures exists k, n :: counter <= n < counter + |newcomers| && id == AutoId(k, n)
  {
    var k := |newcomers| - 1;
    if id in Generated(newcomers[..k], counter) {
      GeneratedIs(newcomers[..k], counter, id);
    }
  }

  /** Names so far: the labels, the ids of the rows used, and the ids generated. */
  ghost predicate Accounted(m: Matching, base: seq<Assigned>, prior: set<Row>, counter: nat) {
    && m.available <= prior && m.counter == counter + |m.newcomers|
    && |m.named| == |base| + |prior - m.available| + |m.newcomers|
    && IdsOf(m.named) == IdsOf(base) + RowIds(prior - m.available) + Generated(m.newcomers, counter)
  }

  lemma TakingIsAccounted(m: Matching, base: seq<Assigned>, prior: set<Row>, counter: nat, d: Draft, r: Row)
    requires Accounted(m, base, prior, counter) && r in m.available
    ensures Accounted(Taken(m, d, r), base, prior, counter)
  {
    assert prior - (m.available - {r}) == prior - m.available + {r};
    RowIdsJoin(prior - m.available, r);
    IdsAppend(m.named, Assigned(d, r.id));
  }

  lemma AllocatingIsAccounted(m: Matching, base: seq<Assigned>, prior: set<Row>, counter: nat, d: Draft)
    requires Accounted(m, base, prior, counter)
    ensures Accounted(Allocated(m, d), base, prior, counter)
  {
    GeneratedAppend(m.newcomers, d, counter);
    IdsAppend(m.named, Assigned(d, AutoId(d.kind, m.counter)));
  }

  lemma {:induction false} ExactIsAccounted(m: Matching, base: seq<Assigned>, prior: set<Row>, counter: nat, drafts: seq<Draft>)
    requires Accounted(m, base, prior, counter)
    ensures Accounted(ExactAll(m, drafts), base, prior, counter)
  {
    if drafts == [] {
    } else {
      var front, d := drafts[..|drafts| - 1], drafts[|drafts| - 1];
      ExactIsAccounted(m, base, prior, counter, front);
      match Nearest(ExactAll(m, front).available, d, true)
      case Some(r) => TakingIsAccounted(ExactAll(m, front), base, prior, counter, d, r);
      case None =>
    }
  }

  lemma {:induction false} LooseIsAccounted(m: Matching, base: seq<Assigned>, prior: set<Row>, counter: nat, drafts: seq<Draft>)
    requires Accounted(m, base, prior, counter)
    ensures Accounted(LooseAll(m, drafts), base, prior, counter)
  {
    if drafts == [] {
    } else {
      var front, d := drafts[..|drafts| - 1], drafts[|drafts| - 1];
      LooseIsAccounted(m, base, prior, counter, front);
      match Nearest(LooseAll(m, front).available, d, false)
      case Some(r) => TakingIsAccounted(LooseAll(m, front), base, prior, counter, d, r);
      case None => AllocatingIsAccounted(LooseAll(m, front), base, prior, counter, d);
    }
  }

  lemma FinalIsAccounted(drafts: seq<Draft>, rows: set<Row>, counter: nat)
    ensures Accounted(Final(drafts, rows, counter), LabelledOnes(drafts), Prior(rows), counter)
  {
    var m := Initial(drafts, rows, counter);
    assert Prior(rows) - m.available == {} && RowIds({}) == {} && Generated([], counter) == {};
    ExactIsAccounted(m, LabelledOnes(drafts), Prior(rows), counter, Unlabelled(drafts));
    var first := AfterExact(drafts, rows, counter);
    LooseIsAccounted(first, LabelledOnes(drafts), Prior(rows), counter, first.pending);
  }

  /** The ids of the earlier rows that unlabelled claims take over. */
  ghost function UsedIds(drafts: seq<Draft>, rows: set<Row>, counter: nat): set<string> {
    RowIds(Prior(rows) - Final(drafts, rows, counter).available)
  }

  ghost function NewIds(drafts: seq<Draft>, rows: set<Row>, counter: nat): set<string> {
    Generated(Final(drafts, rows, counter).newcomers, counter)
  }

  lemma EmptyMeet(a: set<string>, b: set<string>)
    ensures |a * b| == 0 <==> a !! b
  {
    forall x | x in a ensures x in b <==> x in a * b {
    }
  }

  lemma ThreeSizes(a: set<string>, b: set<string>, c: set<string>)
    ensures |a + b + c| == |a| + |b| + |c| <==> a !! b && a !! c && b !! c
  {
    var ab := a + b;
    assert |ab| == |a| + |b| - |a * b|;
    assert |ab + c| == |ab| + |c| - |ab * c|;
    assert ab * c == a * c + b * c;
    EmptyMeet(a, b);
    EmptyMeet(ab, c);
    assert ab !! c <==> a !! c && b !! c;
  }

  lemma PermutedNames(q: seq<Assigned>, r: seq<Assigned>)
    requires multiset(q) == multiset(r)
    ensures DistinctNames(q) <==> DistinctNames(r)
  {
    IdsCount(q);
    IdsCount(r);
    assert |q| == |multiset(q)| && |r| == |multiset(r)|;
    forall a ensures a in q <==> a in r {
      assert a in multiset(q) <==> a in multiset(r);
    }
    assert IdsOf(q) == IdsOf(r);
  }

  /**
   The ids are distinct if and only if no label is the id of a row that is used or an id that is
   generated, and no such row has an id that is generated.
   */
  lemma IdsAreDistinctExactly(drafts: seq<Draft>, rows: set<Row>, counter: nat, out: seq<Assigned>)
    requires !RepeatedLabel(drafts) && DistinctIds(rows)
    requires multiset(out) == multiset(Final(drafts, rows, counter).named)
    ensures
      var labels := IdsOf(LabelledOnes(drafts));
      var used, generated := UsedIds(drafts, rows, counter), NewIds(drafts, rows, counter);
      DistinctNames(out) <==> labels !! used && labels !! generated && used !! generated
  {
    var final := Final(drafts, rows, counter);
    FinalIsAccounted(drafts, rows, counter);
    LabelsAreDistinct(drafts);
    IdsCount(LabelledOnes(drafts));
    RowIdsCount(Prior(rows) - final.available);
    GeneratedCount(final.newcomers, counter);
    IdsCount(final.named);
    ThreeSizes(IdsOf(LabelledOnes(drafts)), UsedIds(drafts, rows, counter), NewIds(drafts, rows, counter));
    PermutedNames(final.named, out);
  }

  lemma FinalOfPair(first: Draft, second: Draft, counter: nat)
    requires Labelled(first) && !Labelled(second)
    ensures Final([first, second], {}, counter).named
         == [Assigned(first, LabelOf(first)), Assigned(second, AutoId(second.kind, counter))]
  {
    assert [first, second][..1] == [first] && [first][..0] == [] && [second][..0] == [];
    assert LabelledOnes([first]) == [Assigned(first, LabelOf(first))] && Unlabelled([first]) == [];
    assert LabelledOnes([first, second]) == LabelledOnes([first]) && Unlabelled([first, second]) == [second];
    var m := Initial([first, second], {}, counter);
    assert m.available == {};
    var waiting := m.(pending := [second]);
    assert ExactAll(m, []) == m && ExactAll(m, [second]) == Exact(m, second);
    assert Exact(m, second) == waiting;
    assert LooseAll(waiting, []) == waiting && LooseAll(waiting, [second]) == Loose(waiting, second);
  }

  /** A label spelled like the next generated id collides with it. */
  lemma LabelMayCollide(file: string, kind: string, counter: nat)
    ensures
      var first := Draft(file, kind, Some(AutoId(kind, counter)), 0, "", "");
      var second := Draft(file, kind, None, 1, "", "");
      !RepeatedLabel([first, second]) && !DistinctNames(Final([first, second], {}, counter).named)
  {
    var first := Draft(file, kind, Some(AutoId(kind, counter)), 0, "", "");
    var second := Draft(file, kind, None, 1, "", "");
    assert |AutoId(kind, counter)| >= 5;
    FinalOfPair(first, second, counter);
    var named := Final([first, second], {}, counter).named;
    assert named[0].id == named[1].id;
  }

  // ---- New ids only for the shortfall ----

  function OfClass(drafts: seq<Draft>, file: string, kind: string): nat {
    if drafts == [] then 0
    else
      var d := drafts[|drafts| - 1];
      OfClass(drafts[..|drafts| - 1], file, kind) + if d.file == file && d.kind == kind then 1 else 0
  }

  function ClassRows(rows: set<Row>, file: string, kind: string): set<Row> {
    set r | r in rows && r.file == file && r.kind == kind
  }

  lemma ClassAppend(drafts: seq<Draft>, d: Draft, file: string, kind: string)
    ensures OfClass(drafts + [d], file, kind)
         == OfClass(drafts, file, kind) + if d.file == file && d.kind == kind then 1 else 0
  {
    assert (drafts + [d])[..|drafts|] == drafts;
  }

  lemma ClassLoses(rows: set<Row>, r: Row, file: string, kind: string)
    requires r in rows
    ensures |ClassRows(rows, file, kind)|
         == |ClassRows(rows - {r}, file, kind)| + if r.file == file && r.kind == kind then 1 else 0
  {
    if r.file == file && r.kind == kind {
      assert ClassRows(rows - {r}, file, kind) == ClassRows(rows, file, kind) - {r};
    } else {
      assert ClassRows(rows - {r}, file, kind) == ClassRows(rows, file, kind);
    }
  }

  lemma {:induction false} ExactCounts(m: Matching, drafts: seq<Draft>, file: string, kind: string)
    ensures
      var after := ExactAll(m, drafts);
      && OfClass(drafts, file, kind) + OfClass(m.pending, file, kind) + |ClassRows(after.available, file, kind)|
         == |ClassRows(m.available, file, kind)| + OfClass(after.pending, file, kind)
      && after.newcomers == m.newcomers && after.counter == m.counter
  {
    if drafts == [] {
    } else {
      var front, d := drafts[..|drafts| - 1], drafts[|drafts| - 1];
      ExactCounts(m, front, file, kind);
      var before := ExactAll(m, front);
      match Nearest(before.available, d, true)
      case Some(r) => ClassLoses(before.available, r, file, kind);
      case None => ClassAppend(before.pending, d, file, kind);
    }
  }

  /** Once a class has been given a new id, none of its rows is left. */
  ghost predicate Exhausted(m: Matching, file: string, kind: string) {
    OfClass(m.newcomers, file, kind) > 0 ==> ClassRows(m.available, file, kind) == {}
  }

  lemma NoneLeft(m: Matching, d: Draft)
    requires Nearest(m.available, d, false).None?
    ensures ClassRows(m.available, d.file, d.kind) == {}
  {
    forall r | r in m.available ensures !(r.file == d.file && r.kind == d.kind) {
      if Eligible(r, d, false) {
        NearestExists(m.available, d, false, r);
      }
    }
  }

  lemma LooseStaysExhausted(m: Matching, d: Draft, file: string, kind: string)
    requires Exhausted(m, file, kind)
    ensures Exhausted(Loose(m, d), file, kind)
  {
    match Nearest(m.available, d, false)
    case Some(r) => assert ClassRows(m.available - {r}, file, kind) <= ClassRows(m.available, file, kind);
    case None =>
      ClassAppend(m.newcomers, d, file, kind);
      NoneLeft(m, d);
  }

  lemma {:induction false} LooseCounts(m: Matching, drafts: seq<Draft>, file: string, kind: string)
    requires Exhausted(m, file, kind)
    ensures
      var after := LooseAll(m, drafts);
      && OfClass(drafts, file, kind) + OfClass(m.newcomers, file, kind) + |ClassRows(after.available, file, kind)|
         == |ClassRows(m.available, file, kind)| + OfClass(after.newcomers, file, kind)
      && after.counter - |after.newcomers| == m.counter - |m.newcomers|
      && Exhausted(after, file, kind)
  {
    if drafts == [] {
    } else {
      var front, d := drafts[..|drafts| - 1], drafts[|drafts| - 1];
      LooseCounts(m, front, file, kind);
      var before := LooseAll(m, front);
      LooseStaysExhausted(before, d, file, kind);
      match Nearest(before.available, d, false)
      case Some(r) => ClassLoses(before.available, r, file, kind);
      case None => ClassAppend(before.newcomers, d, file, kind);
    }
  }

  datatype Class = Class(file: string, kind: string)

  /** Unlabelled claims of one file and kind beyond the earlier unlabelled rows. */
  function Shortfall(drafts: seq<Draft>, rows: set<Row>, c: Class): nat {
    var claims, earlier := OfClass(Unlabelled(drafts), c.file, c.kind), |ClassRows(Prior(rows), c.file, c.kind)|;
    if claims > earlier then claims - earlier else 0
  }

  /**
   In each file and kind, exactly the unlabelled claims beyond the number of earlier unlabelled
   rows get new ids, and the counter moves by the number of new ids.
   */
  lemma NewIdsAreTheShortfall(drafts: seq<Draft>, rows: set<Row>, counter: nat, file: string, kind: string)
    ensures
      var final := Final(drafts, rows, counter);
      && OfClass(final.newcomers, file, kind) == Shortfall(drafts, rows, Class(file, kind))
      && final.counter == counter + |final.newcomers|
  {
    var first := AfterExact(drafts, rows, counter);
    ExactCounts(Initial(drafts, rows, counter), Unlabelled(drafts), file, kind);
    LooseCounts(first, first.pending, file, kind);
  }

  // ---- The numbers that will be handed out ----

  function Classes(drafts: seq<Draft>): set<Class> {
    set d | d in drafts :: Class(d.file, d.kind)
  }

  ghost function TotalShortfall(drafts: seq<Draft>, rows: set<Row>): nat {
    Sum(map c | c in Classes(Unlabelled(drafts)) :: Shortfall(drafts, rows, c))
  }

  function ClassCounts(drafts: seq<Draft>, classes: set<Class>): map<Class, nat> {
    map c | c in classes :: OfClass(drafts, c.file, c.kind)
  }

  lemma {:induction false} NoDraftsCountNothing(classes: set<Class>)
    ensures Sum(ClassCounts([], classes)) == 0
    decreases |classes|
  {
    if classes == {} {
      assert ClassCounts([], classes).Keys == {};
    } else {
      var c :| c in classes;
      NoDraftsCountNothing(classes - {c});
      assert ClassCounts([], classes) - {c} == ClassCounts([], classes - {c});
      SumPicks(ClassCounts([], classes), c);
    }
  }

  lemma ClassCountsGrow(drafts: seq<Draft>, d: Draft, classes: set<Class>)
    requires Class(d.file, d.kind) in classes
    ensures ClassCounts(drafts + [d], classes)
         == ClassCounts(drafts, classes)[Class(d.file, d.kind) := OfClass(drafts, d.file, d.kind) + 1]
  {
    forall c: Class ensures OfClass(drafts + [d], c.file, c.kind)
                         == OfClass(drafts, c.file, c.kind) + if d.file == c.file && d.kind == c.kind then 1 else 0
    {
      ClassAppend(drafts, d, c.file, c.kind);
    }
  }

  lemma {:induction false} ClassesAddUp(drafts: seq<Draft>, classes: set<Class>)
    requires forall d :: d in drafts ==> Class(d.file, d.kind) in classes
    ensures Sum(ClassCounts(drafts, classes)) == |drafts|
  {
    if drafts == [] {
      NoDraftsCountNothing(classes);
    } else {
      var front, d := drafts[..|drafts| - 1], drafts[|drafts| - 1];
      var c := Class(d.file, d.kind);
      ClassesAddUp(front, classes);
      assert drafts == front + [d];
      assert d in drafts;
      ClassCountsGrow(front, d, classes);
      SumUpdate(ClassCounts(front, classes), c, OfClass(front, d.file, d.kind) + 1);
    }
  }

  lemma {:induction false} ClassHasMember(drafts: seq<Draft>, file: string, kind: string)
    ensures OfClass(drafts, file, kind) > 0 <==> Class(file, kind) in Classes(drafts)
  {
    if drafts == [] {
    } else {
      var front, d := drafts[..|drafts| - 1], drafts[|drafts| - 1];
      ClassHasMember(front, file, kind);
      assert drafts == front + [d];
      assert Classes(drafts) == Classes(front) + {Class(d.file, d.kind)};
    }
  }

  /** The input alone tells how far the counter moves. */
  lemma CounterMovesByTheShortfall(drafts: seq<Draft>, rows: set<Row>, counter: nat)
    ensures Final(drafts, rows, counter).counter == counter + TotalShortfall(drafts, rows)
  {
    var final := Final(drafts, rows, counter);
    var classes := Classes(Unlabelled(drafts));
    forall c: Class ensures OfClass(final.newcomers, c.file, c.kind) == Shortfall(drafts, rows, c) {
      NewIdsAreTheShortfall(drafts, rows, counter, c.file, c.kind);
    }
    forall d | d in final.newcomers ensures Class(d.file, d.kind) in classes {
      ClassHasMember(final.newcomers, d.file, d.kind);
      ClassHasMember(Unlabelled(drafts), d.file, d.kind);
    }
    ClassesAddUp(final.newcomers, classes);
    assert ClassCounts(final.newcomers, classes)
        == map c | c in classes :: Shortfall(drafts, rows, c);
    NewIdsAreTheShortfall(drafts, rows, counter, "", "");
  }

  /** Not one of the ids numbered from `counter` up to `limit`. */
  ghost predicate Apart(id: string, counter: nat, limit: nat) {
    forall k, n :: counter <= n < limit ==> id != AutoId(k, n)
  }

  /** No label is the id of an unlabelled row, and none of these ids has a number that will be handed out. */
  ghost predicate LabelsKeepApart(drafts: seq<Draft>, rows: set<Row>, counter: nat) {
    var limit := counter + TotalShortfall(drafts, rows);
    && (forall d, r :: d in drafts && Labelled(d) && r in Prior(rows) ==> LabelOf(d) != r.id)
    && (forall d :: d in drafts && Labelled(d) ==> Apart(LabelOf(d), counter, limit))
    && (forall r :: r in Prior(rows) ==> Apart(r.id, counter, limit))
  }

  lemma ResultIdsAreDistinct(drafts: seq<Draft>, rows: set<Row>, counter: nat, out: seq<Assigned>)
    requires !RepeatedLabel(drafts) && DistinctIds(rows) && LabelsKeepApart(drafts, rows, counter)
    requires multiset(out) == multiset(Final(drafts, rows, counter).named)
    ensures DistinctNames(out)
  {
    FinalIsAccounted(drafts, rows, counter);
    CounterMovesByTheShortfall(drafts, rows, counter);
    forall id | id in IdsOf(LabelledOnes(drafts)) ensures exists d :: d in drafts && Labelled(d) && LabelOf(d) == id {
      var a :| a in LabelledOnes(drafts) && a.id == id;
      LabelledOnesAre(drafts, a);
    }
    forall id | id in NewIds(drafts, rows, counter)
      ensures exists k, n :: counter <= n < Final(drafts, rows, counter).counter && id == AutoId(k, n)
    {
      GeneratedIs(Final(drafts, rows, counter).newcomers, counter, id);
    }
    IdsAreDistinctExactly(drafts, rows, counter, out);
  }

  // ---- Re-indexing an unchanged manuscript ----

  function RowOf(a: Assigned): Row {
    Row(a.id, a.draft.file, a.draft.kind, a.draft.latexLabel, a.draft.ordinal, a.draft.hash)
  }

  predicate SamePlace(a: Assigned, b: Assigned) {
    a.draft.file == b.draft.file && a.draft.ordinal == b.draft.ordinal
  }

  /** What an earlier index stored: sorted, one claim to a place and to an id, labels as ids. */
  ghost predicate Indexed(prev: seq<Assigned>) {
    && SortedBy(InOrder, prev)
    && (forall i, j :: 0 <= i < j < |prev| ==> prev[i].id != prev[j].id && !SamePlace(prev[i], prev[j]))
    && forall a :: a in prev ==> a.draft.latexLabel == if Labelled(a.draft) then Some(a.id) else None
  }

  /** The same drafts, in whatever order the files are read. */
  ghost predicate SameDrafts(drafts: seq<Draft>, prev: seq<Assigned>) {
    && NoDuplicates(drafts)
    && forall d :: d in drafts <==> Known(prev, d)
  }

  ghost predicate Known(prev: seq<Assigned>, d: Draft) {
    exists a :: a in prev && a.draft == d
  }

  ghost function Own(prev: seq<Assigned>, d: Draft): Assigned
    requires Known(prev, d)
  {
    var a :| a in prev && a.draft == d;
    a
  }

  ghost function Owns(prev: seq<Assigned>, drafts: seq<Draft>): seq<Assigned>
    requires forall d :: d in drafts ==> Known(prev, d)
  {
    if drafts == [] then [] else Owns(prev, drafts[..|drafts| - 1]) + [Own(prev, drafts[|drafts| - 1])]
  }

  /** Rows of unlabelled claims whose drafts are not among `done`. */
  function RowsLeft(prev: seq<Assigned>, done: seq<Draft>): set<Row> {
    set a | a in prev && !Labelled(a.draft) && a.draft !in done :: RowOf(a)
  }

  lemma PlaceDecides(prev: seq<Assigned>, a: Assigned, b: Assigned)
    requires Indexed(prev) && a in prev && b in prev && (SamePlace(a, b) || a.id == b.id)
    ensures a == b
  {
    var i, j :| 0 <= i < |prev| && 0 <= j < |prev| && prev[i] == a && prev[j] == b;
    assert i == j || i < j || j < i;
  }

  lemma LeftAreDistinct(prev: seq<Assigned>, done: seq<Draft>)
    requires Indexed(prev)
    ensures DistinctIds(RowsLeft(prev, done))
  {
    var rows := RowsLeft(prev, done);
    forall r, s | r in rows && s in rows && r.id == s.id ensures r == s {
      var a :| a in prev && RowOf(a) == r;
      var b :| b in prev && RowOf(b) == s;
      assert RowOf(a).id == a.id && RowOf(b).id == b.id;
      PlaceDecides(prev, a, b);
    }
  }

  /** Even among repeated statements, the row in the same place is nearest. */
  lemma OwnRowIsNearest(prev: seq<Assigned>, done: seq<Draft>, d: Draft)
    requires Indexed(prev) && Known(prev, d) && !Labelled(d) && d !in done
    ensures Nearest(RowsLeft(prev, done), d, true) == Some(RowOf(Own(prev, d)))
  {
    var own := Own(prev, d);
    var rows := RowsLeft(prev, done);
    assert RowOf(own) in rows;
    forall x | x in rows && Eligible(x, d, true) ensures NoFarther(d, RowOf(own), x) {
      var b :| b in prev && RowOf(b) == x;
      if Distance(x, d) == 0 {
        assert RowOf(b).ordinal == b.draft.ordinal && RowOf(b).file == b.draft.file;
        assert SamePlace(b, own);
        PlaceDecides(prev, b, own);
      }
    }
    LeftAreDistinct(prev, done);
    NearestIs(rows, d, true, RowOf(own));
  }

  lemma TakingLeaves(prev: seq<Assigned>, done: seq<Draft>, d: Draft)
    requires Indexed(prev) && Known(prev, d)
    ensures RowsLeft(prev, done) - {RowOf(Own(prev, d))} == RowsLeft(prev, done + [d])
  {
    var own := Own(prev, d);
    forall x | x in RowsLeft(prev, done + [d]) ensures x in RowsLeft(prev, done) && x != RowOf(own) {
      var a :| a in prev && !Labelled(a.draft) && a.draft !in done + [d] && RowOf(a) == x;
      assert a.draft != d;
      if x == RowOf(own) {
        PlaceDecides(prev, a, own);
      }
    }
    forall x | x in RowsLeft(prev, done) && x != RowOf(own) ensures x in RowsLeft(prev, done + [d]) {
      var a :| a in prev && !Labelled(a.draft) && a.draft !in done && RowOf(a) == x;
      if a.draft == d {
        PlaceDecides(prev, a, own);
      }
    }
  }

  /** All of `drafts` have found their own rows. */
  ghost function Settled(prev: seq<Assigned>, m: Matching, drafts: seq<Draft>): Matching
    requires forall d :: d in drafts ==> Known(prev, d)
  {
    m.(named := m.named + Owns(prev, drafts), available := RowsLeft(prev, drafts))
  }

  lemma OwnsAppend(prev: seq<Assigned>, drafts: seq<Draft>, d: Draft)
    requires Known(prev, d) && forall x :: x in drafts ==> Known(prev, x)
    ensures Owns(prev, drafts + [d]) == Owns(prev, drafts) + [Own(prev, d)]
  {
    assert (drafts + [d])[..|drafts|] == drafts;
  }

  lemma OwnIsTaken(prev: seq<Assigned>, m: Matching, done: seq<Draft>, d: Draft)
    requires Indexed(prev) && Known(prev, d) && !Labelled(d) && d !in done
    requires forall x :: x in done ==> Known(prev, x)
    ensures Exact(Settled(prev, m, done), d) == Settled(prev, m, done + [d])
  {
    OwnRowIsNearest(prev, done, d);
    TakingLeaves(prev, done, d);
    OwnsAppend(prev, done, d);
    assert Own(prev, d) == Assigned(d, RowOf(Own(prev, d)).id);
    assert m.named + Owns(prev, done) + [Own(prev, d)] == m.named + (Owns(prev, done) + [Own(prev, d)]);
  }

  lemma {:induction false} ExactFindsOwn(prev: seq<Assigned>, m: Matching, drafts: seq<Draft>)
    requires Indexed(prev) && NoDuplicates(drafts)
    requires forall d :: d in drafts ==> Known(prev, d) && !Labelled(d)
    requires m.available == RowsLeft(prev, [])
    ensures ExactAll(m, drafts) == Settled(prev, m, drafts)
    decreases |drafts|
  {
    if drafts == [] {
      assert m.named + [] == m.named;
    } else {
      var front, d := drafts[..|drafts| - 1], drafts[|drafts| - 1];
      ExactFindsOwn(prev, m, front);
      assert drafts == front + [d];
      OwnIsTaken(prev, m, front, d);
    }
  }

  lemma {:induction false} UnlabelledAre(drafts: seq<Draft>)
    requires NoDuplicates(drafts)
    ensures forall d :: d in Unlabelled(drafts) <==> d in drafts && !Labelled(d)
    ensures NoDuplicates(Unlabelled(drafts))
  {
    if drafts == [] {
    } else {
      var front, d := drafts[..|drafts| - 1], drafts[|drafts| - 1];
      UnlabelledAre(front);
      assert drafts == front + [d] && d !in front;
    }
  }

  lemma {:induction false} LabelledAre(drafts: seq<Draft>)
    ensures forall d :: d in drafts && Labelled(d) ==> Assigned(d, LabelOf(d)) in LabelledOnes(drafts)
  {
    if drafts == [] {
    } else {
      LabelledAre(drafts[..|drafts| - 1]);
    }
  }

  lemma {:induction false} OwnsAre(prev: seq<Assigned>, drafts: seq<Draft>)
    requires Indexed(prev) && forall d :: d in drafts ==> Known(prev, d)
    ensures forall a :: a in Owns(prev, drafts) <==> a in prev && a.draft in drafts
  {
    if drafts == [] {
    } else {
      var front, d := drafts[..|drafts| - 1], drafts[|drafts| - 1];
      OwnsAre(prev, front);
      assert drafts == front + [d];
      forall a | a in prev && a.draft == d ensures a == Own(prev, d) {
        PlaceDecides(prev, a, Own(prev, d));
      }
    }
  }

  /** Every claim takes its own row again; nothing is pending and no id is new. */
  lemma UnchangedFindsOwn(prev: seq<Assigned>, drafts: seq<Draft>, counter: nat)
    requires Indexed(prev) && SameDrafts(drafts, prev)
    ensures
      var final := Final(drafts, set a | a in prev :: RowOf(a), counter);
      final.counter == counter && forall a :: a in final.named <==> a in prev
  {
    var rows := set a | a in prev :: RowOf(a);
    var m := Initial(drafts, rows, counter);
    UnlabelledAre(drafts);
    assert Prior(rows) == RowsLeft(prev, []);
    ExactFindsOwn(prev, m, Unlabelled(drafts));
    var first := AfterExact(drafts, rows, counter);
    assert first.pending == [] && Final(drafts, rows, counter) == first;
    OwnsAre(prev, Unlabelled(drafts));
    LabelledAre(drafts);
    forall a | a in LabelledOnes(drafts) ensures a in prev {
      LabelledOnesAre(drafts, a);
      assert Own(prev, a.draft) == a;
    }
    forall a | a in prev && Labelled(a.draft) ensures a in LabelledOnes(drafts) {
      assert a.draft in drafts && a == Assigned(a.draft, LabelOf(a.draft));
    }
  }

  lemma {:induction false} NoDraftTwice(drafts: seq<Draft>, d: Draft)
    requires NoDuplicates(drafts)
    ensures Times(drafts, d) == if d in drafts then 1 else 0
  {
    if drafts == [] {
    } else {
      var front, last := drafts[..|drafts| - 1], drafts[|drafts| - 1];
      NoDraftTwice(front, d);
      assert drafts == front + [last] && last !in front;
    }
  }

  lemma {:induction false} NamedOnce(q: seq<Assigned>, i: nat)
    requires i < |q|
    ensures TimesNamed(q, q[i].draft) >= 1
  {
    if i < |q| - 1 {
      NamedOnce(q[..|q| - 1], i);
    }
  }

  lemma {:induction false} NamedTwice(q: seq<Assigned>, i: nat, j: nat)
    requires i < j < |q| && q[i].draft == q[j].draft
    ensures TimesNamed(q, q[i].draft) >= 2
  {
    if j < |q| - 1 {
      NamedTwice(q[..|q| - 1], i, j);
    } else {
      NamedOnce(q[..j], i);
    }
  }

  lemma {:induction false} TimesMeansMember(drafts: seq<Draft>, d: Draft)
    requires Times(drafts, d) > 0
    ensures d in drafts
  {
    if drafts[|drafts| - 1] != d {
      TimesMeansMember(drafts[..|drafts| - 1], d);
    }
  }

  lemma OneNameEach(drafts: seq<Draft>, out: seq<Assigned>, a: Assigned, b: Assigned)
    requires NoDuplicates(drafts) && forall d :: TimesNamed(out, d) == Times(drafts, d)
    requires a in out && b in out && a.draft == b.draft
    ensures a == b && a.draft in drafts
  {
    var i, j :| 0 <= i < |out| && 0 <= j < |out| && out[i] == a && out[j] == b;
    NamedOnce(out, i);
    TimesMeansMember(drafts, a.draft);
    NoDraftTwice(drafts, a.draft);
    if i < j {
      NamedTwice(out, i, j);
    } else if j < i {
      NamedTwice(out, j, i);
    }
  }

  /** Within a file and kind, no statement occurs twice, neither before nor now. */
  ghost predicate DistinctStatements(drafts: seq<Draft>, rows: set<Row>) {
    && NoDuplicates(drafts)
    && (forall d, e | d in drafts && e in drafts && d.latexLabel in {None, Some("")} && e.latexLabel in {None, Some("")} ::
          d.file == e.file && d.kind == e.kind && d.hash == e.hash ==> d == e)
    && (forall r, s | r in rows && s in rows && r.latexLabel == None && s.latexLabel == None ::
          r.file == s.file && r.kind == s.kind && r.hash == s.hash ==> r == s)
  }

  /** However the claims of a file were moved about: a statement that is still there keeps its id. */
  lemma MovedStatementsKeepTheirIds(drafts: seq<Draft>, rows: set<Row>, counter: nat, out: seq<Assigned>)
    requires DistinctStatements(drafts, rows)
    requires multiset(out) == multiset(Final(drafts, rows, counter).named)
    ensures forall a, r ::
      && a in out && a.draft.latexLabel in {None, Some("")} && r in rows && r.latexLabel == None
      && r.file == a.draft.file && r.kind == a.draft.kind && r.hash == a.draft.hash
      ==> a.id == r.id
  {
    ResultIsDraftsWithIds(drafts, rows, counter, out);
    SameMembers(out, Final(drafts, rows, counter).named);
    FinalKeepsStatements(drafts, rows, counter, out);
    forall a, r |
      && a in out && a.draft.latexLabel in {None, Some("")} && r in rows && r.latexLabel == None
      && r.file == a.draft.file && r.kind == a.draft.kind && r.hash == a.draft.hash
      ensures a.id == r.id
    {
      StatementKeepsItsId(drafts, rows, out, a, r);
    }
  }

  lemma StatementKeepsItsId(drafts: seq<Draft>, rows: set<Row>, out: seq<Assigned>, a: Assigned, r: Row)
    requires DistinctStatements(drafts, rows) && KeepsStatements(rows, out)
    requires forall d :: TimesNamed(out, d) == Times(drafts, d)
    requires a in out && a.draft.latexLabel in {None, Some("")} && r in rows && r.latexLabel == None
    requires r.file == a.draft.file && r.kind == a.draft.kind && r.hash == a.draft.hash
    ensures a.id == r.id
  {
    OneNameEach(drafts, out, a, a);
    if !KeepsRow(rows, a) {
      assert GoesToItsStatement(out, r);
      var b :| && b in out && b.draft.latexLabel in {None, Some("")} && b.id == r.id
               && r.file == b.draft.file && r.kind == b.draft.kind && r.hash == b.draft.hash;
      OneNameEach(drafts, out, b, b);
      OneNameEach(drafts, out, a, b);
    } else {
      var s :| && s in rows && s.latexLabel == None && s.id == a.id
               && s.file == a.draft.file && s.kind == a.draft.kind && s.hash == a.draft.hash;
    }
  }

  lemma HasMembers(q: seq<Assigned>)
    ensures q == [] || exists a :: a in q
  {
    if q != [] {
      assert q[0] in q;
    }
  }

  lemma {:induction false} SortedAgree(prev: seq<Assigned>, q: seq<Assigned>, r: seq<Assigned>)
    requires Indexed(prev) && forall a :: a in q ==> a in prev
    requires SortedBy(InOrder, q) && SortedBy(InOrder, r) && NoDuplicates(q) && NoDuplicates(r)
    requires forall a :: a in q <==> a in r
    ensures q == r
    decreases |q|
  {
    HasMembers(q);
    HasMembers(r);
    if q == [] {
    } else {
      LastsAgree(prev, q, r);
      WithoutLast(q);
      WithoutLast(r);
      SortedAgree(prev, q[..|q| - 1], r[..|r| - 1]);
    }
  }

  lemma WithoutLast(q: seq<Assigned>)
    requires q != [] && SortedBy(InOrder, q) && NoDuplicates(q)
    ensures
      var front := q[..|q| - 1];
      && q == front + [q[|q| - 1]] && SortedBy(InOrder, front) && NoDuplicates(front)
      && forall x :: x in front <==> x in q && x != q[|q| - 1]
  {
    assert q == q[..|q| - 1] + [q[|q| - 1]];
  }

  lemma LastsAgree(prev: seq<Assigned>, q: seq<Assigned>, r: seq<Assigned>)
    requires Indexed(prev) && (forall a :: a in q ==> a in prev) && q != [] && r != []
    requires SortedBy(InOrder, q) && SortedBy(InOrder, r)
    requires forall a :: a in q <==> a in r
    ensures q[|q| - 1] == r[|r| - 1]
  {
    var a, b := q[|q| - 1], r[|r| - 1];
    assert a in r && b in q;
    if a != b {
      assert InOrder(a, b) && InOrder(b, a);
      if Less(a.draft.file, b.draft.file) {
        LessAsymmetric(a.draft.file, b.draft.file);
      }
      if Less(b.draft.file, a.draft.file) {
        LessAsymmetric(b.draft.file, a.draft.file);
      }
      PlaceDecides(prev, a, b);
    }
  }

  /**
   Indexing an unchanged manuscript again gives back the earlier claims with their ids, also when
   several claims of a file have the same statement.
   */
  lemma ReindexIsIdentity(prev: seq<Assigned>, drafts: seq<Draft>, counter: nat, out: seq<Assigned>)
    requires Indexed(prev) && SameDrafts(drafts, prev)
    requires SortedBy(InOrder, out)
    requires multiset(out) == multiset(Final(drafts, set a | a in prev :: RowOf(a), counter).named)
    ensures out == prev
    ensures Final(drafts, set a | a in prev :: RowOf(a), counter).counter == counter
  {
    var rows := set a | a in prev :: RowOf(a);
    var named := Final(drafts, rows, counter).named;
    UnchangedFindsOwn(prev, drafts, counter);
    assert forall a :: a in out <==> a in multiset(out);
    assert forall a :: a in named <==> a in multiset(named);
    forall i, j | 0 <= i < j < |out| ensures out[i] != out[j] {
      if out[i] == out[j] {
        NamedTwice(out, i, j);
        PermutedNamed(out, named, out[i].draft);
        FinalKeepsDrafts(drafts, rows, counter, out[i].draft);
        NoDraftTwice(drafts, out[i].draft);
      }
    }
    SortedAgree(prev, out, prev);
  }
}
