/**
 The include closure of a LaTeX manuscript (`resolve_latex_closure` in `incremental/latex.py`).
 A folder gives, for each file, the targets of its literal includes in the order in which they
 stand; a target is `None` where `_resolve_include_path` raises.
 */
module Includes {
  import opened Options
  import opened Reachability

  /** `Broken`: not UTF-8, or its include macros cannot be read. */
  datatype File = Broken | Text(includes: seq<Option<string>>)

  type Folder = map<string, File>

  /** A resolved include names an existing file. */
  ghost predicate Resolved(folder: Folder) {
    forall n, i :: n in folder && folder[n].Text? && 0 <= i < |folder[n].includes| && folder[n].includes[i].Some?
      ==> folder[n].includes[i].value in folder
  }

  function Targets(folder: Folder, n: string): seq<Option<string>> {
    if n in folder && folder[n].Text? then folder[n].includes else []
  }

  ghost function IncludeGraph(folder: Folder): Graph {
    Graph(folder.Keys, map n | n in folder :: set t | t in Targets(folder, n) && t.Some? :: t.value)
  }

  /** Reading `n` raises, or resolving one of its includes does. */
  predicate Fails(folder: Folder, n: string) {
    n !in folder || folder[n].Broken? || None in folder[n].includes
  }

  // ---- Depth-first preorder ----

  predicate Done(folder: Folder, seen: seq<string>, n: string) {
    forall i :: 0 <= i < |Targets(folder, n)| && Targets(folder, n)[i].Some? ==> Targets(folder, n)[i].value in seen
  }

  /** `x` is the first include of `n` that is not in `seen`. */
  predicate FirstUnseen(folder: Folder, seen: seq<string>, n: string, x: string) {
    x !in seen && exists i :: 0 <= i < |Targets(folder, n)| && UnseenAt(folder, seen, n, x, i)
  }

  predicate UnseenAt(folder: Folder, seen: seq<string>, n: string, x: string, i: nat)
    requires i < |Targets(folder, n)|
  {
    && Targets(folder, n)[i] == Some(x)
    && forall h :: 0 <= h < i && Targets(folder, n)[h].Some? ==> Targets(folder, n)[h].value in seen
  }

  /** The latest file in `seen` that has unseen includes, and `x` is the first of these. */
  predicate Follows(folder: Folder, seen: seq<string>, x: string) {
    exists j :: 0 <= j < |seen| && FollowsFrom(folder, seen, x, j)
  }

  predicate FollowsFrom(folder: Folder, seen: seq<string>, x: string, j: nat)
    requires j < |seen|
  {
    FirstUnseen(folder, seen, seen[j], x) && forall m :: j < m < |seen| ==> Done(folder, seen, seen[m])
  }

  ghost predicate Preorder(folder: Folder, order: seq<string>) {
    forall k :: 0 < k < |order| ==> Follows(folder, order[..k], order[k])
  }

  ghost predicate Complete(folder: Folder, order: seq<string>) {
    forall m :: 0 <= m < |order| ==> Done(folder, order, order[m])
  }

  predicate Distinct(order: seq<string>) {
    forall i, j :: 0 <= i < j < |order| ==> order[i] != order[j]
  }

  lemma FirstUnseenIsUnique(folder: Folder, seen: seq<string>, n: string, x: string, y: string)
    requires FirstUnseen(folder, seen, n, x) && FirstUnseen(folder, seen, n, y)
    ensures x == y && !Done(folder, seen, n)
  {
    var i :| 0 <= i < |Targets(folder, n)| && UnseenAt(folder, seen, n, x, i);
    var j :| 0 <= j < |Targets(folder, n)| && UnseenAt(folder, seen, n, y, j);
    assert i == j;
  }

  lemma FollowsIsUnique(folder: Folder, seen: seq<string>, x: string, y: string)
    requires Follows(folder, seen, x) && Follows(folder, seen, y)
    ensures x == y
  {
    var i :| 0 <= i < |seen| && FollowsFrom(folder, seen, x, i);
    var j :| 0 <= j < |seen| && FollowsFrom(folder, seen, y, j);
    FirstUnseenIsUnique(folder, seen, seen[i], x, x);
    FirstUnseenIsUnique(folder, seen, seen[j], y, y);
    assert i == j;
    FirstUnseenIsUnique(folder, seen, seen[i], x, y);
  }

  lemma PreorderStep(folder: Folder, order: seq<string>, k: nat)
    requires Preorder(folder, order) && 0 < k < |order|
    ensures Follows(folder, order[..k], order[k])
  {
  }

  lemma TakeOneMore(a: seq<string>, b: seq<string>, k: nat)
    requires 0 < k <= |a| && k <= |b| && a[..k - 1] == b[..k - 1] && a[k - 1] == b[k - 1]
    ensures a[..k] == b[..k]
  {
    assert a[..k] == a[..k - 1] + [a[k - 1]] && b[..k] == b[..k - 1] + [b[k - 1]];
  }

  lemma {:induction false} PreordersAgree(folder: Folder, a: seq<string>, b: seq<string>, k: nat)
    requires Preorder(folder, a) && Preorder(folder, b)
    requires a != [] && b != [] && a[0] == b[0]
    requires k <= |a| && k <= |b|
    ensures a[..k] == b[..k]
    decreases k
  {
    if k == 1 {
      TakeOneMore(a, b, 1);
    } else if k > 1 {
      PreordersAgree(folder, a, b, k - 1);
      PreorderStep(folder, a, k - 1);
      PreorderStep(folder, b, k - 1);
      FollowsIsUnique(folder, a[..k - 1], a[k - 1], b[k - 1]);
      TakeOneMore(a, b, k);
    }
  }

  lemma PrefixIsOpen(folder: Folder, order: seq<string>, k: nat)
    requires Preorder(folder, order) && 0 < k < |order|
    ensures !Complete(folder, order[..k])
  {
    var seen := order[..k];
    PreorderStep(folder, order, k);
    var j :| 0 <= j < |seen| && FollowsFrom(folder, seen, order[k], j);
    FirstUnseenIsUnique(folder, seen, seen[j], order[k], order[k]);
  }

  lemma CompleteIsNotExtended(folder: Folder, a: seq<string>, b: seq<string>)
    requires Preorder(folder, b) && Complete(folder, a) && a != []
    requires |a| <= |b| && b[..|a|] == a
    ensures |a| == |b|
  {
    forall k | 0 < k < |b| ensures !Complete(folder, b[..k]) {
      PrefixIsOpen(folder, b, k);
    }
  }

  /** A main file has one depth-first preorder: the description below leaves no choice. */
  lemma PreorderIsUnique(folder: Folder, a: seq<string>, b: seq<string>)
    requires Preorder(folder, a) && Complete(folder, a) && Preorder(folder, b) && Complete(folder, b)
    requires a != [] && b != [] && a[0] == b[0]
    ensures a == b
  {
    var k := if |a| <= |b| then |a| else |b|;
    PreordersAgree(folder, a, b, k);
    assert a[..|a|] == a && b[..|b|] == b;
    if |a| <= |b| {
      CompleteIsNotExtended(folder, a, b);
    } else {
      CompleteIsNotExtended(folder, b, a);
    }
  }

  // ---- The walk ----

  lemma DoneGrows(folder: Folder, seen: seq<string>, more: seq<string>, n: string)
    requires Done(folder, seen, n) && seen <= more
    ensures Done(folder, more, n)
  {
  }

  lemma PreorderExtends(folder: Folder, order: seq<string>, x: string)
    requires Preorder(folder, order) && (order == [] || Follows(folder, order, x))
    ensures Preorder(folder, order + [x])
  {
    forall k | 0 < k < |order + [x]| ensures Follows(folder, (order + [x])[..k], (order + [x])[k]) {
      if k < |order| {
        assert (order + [x])[..k] == order[..k];
      } else {
        assert (order + [x])[..k] == order;
      }
    }
  }

  lemma Reached(folder: Folder, main: string, n: string, i: nat)
    requires n in folder && Reaches(IncludeGraph(folder), main, n)
    requires i < |Targets(folder, n)| && Targets(folder, n)[i].Some?
    ensures Reaches(IncludeGraph(folder), main, Targets(folder, n)[i].value)
  {
    var x := Targets(folder, n)[i].value;
    assert Targets(folder, n)[i] in Targets(folder, n) && Targets(folder, n)[i] == Some(x);
    assert x in Succ(IncludeGraph(folder), n);
    ReachesStep(IncludeGraph(folder), main, n, x);
  }

  ghost predicate AllReached(folder: Folder, main: string, order: seq<string>) {
    forall m :: 0 <= m < |order| ==> order[m] in folder && Reaches(IncludeGraph(folder), main, order[m])
  }

  /** Files from position `from` on were read without an error and all their includes were visited. */
  ghost predicate Finished(folder: Folder, order: seq<string>, from: nat) {
    forall m :: from <= m < |order| ==> !Fails(folder, order[m]) && Done(folder, order, order[m])
  }

  ghost predicate SomeFailure(folder: Folder, main: string) {
    exists n :: Reaches(IncludeGraph(folder), main, n) && Fails(folder, n)
  }

  /** The first `i` includes of `n` resolve and were visited. */
  ghost predicate Explored(folder: Folder, order: seq<string>, n: string, i: nat) {
    i <= |Targets(folder, n)| &&
    forall h :: 0 <= h < i ==> Targets(folder, n)[h].Some? && Targets(folder, n)[h].value in order
  }

  lemma ExploredGrows(folder: Folder, before: seq<string>, after: seq<string>, n: string, i: nat)
    requires Explored(folder, before, n, i) && before <= after
    requires i < |Targets(folder, n)| && Targets(folder, n)[i].Some? && Targets(folder, n)[i].value in after
    ensures Explored(folder, after, n, i + 1)
  {
  }

  lemma ExploredIsDone(folder: Folder, order: seq<string>, place: nat)
    requires place < |order| && order[place] in folder && folder[order[place]].Text?
    requires Explored(folder, order, order[place], |folder[order[place]].includes|)
    requires Finished(folder, order, place + 1)
    ensures Finished(folder, order, place)
  {
  }

  /** Inside a visit, an unseen include is what depth-first preorder asks for next. */
  lemma NextInclude(folder: Folder, order: seq<string>, place: nat, i: nat)
    requires place < |order| && Explored(folder, order, order[place], i)
    requires i < |Targets(folder, order[place])| && Targets(folder, order[place])[i].Some?
    requires Finished(folder, order, place + 1)
    ensures
      var x := Targets(folder, order[place])[i].value;
      x in order || Follows(folder, order, x)
  {
    var x := Targets(folder, order[place])[i].value;
    if x !in order {
      assert UnseenAt(folder, order, order[place], x, i);
      assert FollowsFrom(folder, order, x, place);
    }
  }

  lemma FailureAt(folder: Folder, main: string, n: string)
    requires Reaches(IncludeGraph(folder), main, n) && Fails(folder, n)
    ensures SomeFailure(folder, main)
  {
  }

  class IncludeWalk {
    const folder: Folder
    ghost const main: string
    var ordered: seq<string>
    var visited: set<string>

    ghost predicate Valid()
      reads this
    {
      && Resolved(folder)
      && visited == (set x | x in ordered)
      && Distinct(ordered)
      && Preorder(folder, ordered)
      && AllReached(folder, main, ordered)
    }

    constructor (folder: Folder, main: string)
      requires Resolved(folder)
      ensures this.folder == folder && this.main == main && ordered == [] && Valid()
    {
      this.folder, this.main, ordered, visited := folder, main, [], {};
    }

    method Enter(n: string)
      requires Valid() && n in folder && n !in ordered
      requires Reaches(IncludeGraph(folder), main, n)
      requires ordered == [] || Follows(folder, ordered, n)
      modifies this
      ensures Valid() && ordered == old(ordered) + [n] && visited == old(visited) + {n}
    {
      PreorderExtends(folder, ordered, n);
      visited, ordered := visited + {n}, ordered + [n];
    }

    /** `ok` is false where the source raises. */
    method Visit(n: string) returns (ok: bool)
      requires Valid() && n in folder
      requires Reaches(IncludeGraph(folder), main, n)
      requires n in ordered || ordered == [] || Follows(folder, ordered, n)
      modifies this
      ensures Valid() && old(ordered) <= ordered && old(visited) <= visited
      ensures ok && n !in old(ordered) ==> old(ordered) + [n] <= ordered
      ensures ok ==> n in ordered && Finished(folder, ordered, |old(ordered)|)
      ensures !ok ==> SomeFailure(folder, main)
      decreases folder.Keys - visited, 1
    {
      if n in visited {
        ok := true;
      } else {
        ok := VisitNew(n);
      }
    }

    method VisitNew(n: string) returns (ok: bool)
      requires Valid() && n in folder && n !in ordered
      requires Reaches(IncludeGraph(folder), main, n)
      requires ordered == [] || Follows(folder, ordered, n)
      modifies this
      ensures Valid() && old(visited) <= visited && old(ordered) + [n] <= ordered && n in ordered
      ensures ok ==> Finished(folder, ordered, |old(ordered)|)
      ensures !ok ==> SomeFailure(folder, main)
      decreases folder.Keys - visited, 0
    {
      Enter(n);
      if folder[n].Broken? {
        FailureAt(folder, main, n);
        ok := false;
      } else {
        ok := VisitIncludes(n, |ordered| - 1);
      }
      assert ordered[|old(ordered)|] == n;
    }

    method VisitIncludes(n: string, ghost place: nat) returns (ok: bool)
      requires Valid() && place < |ordered| && ordered[place] == n
      requires n in folder && folder[n].Text? && Finished(folder, ordered, place + 1)
      modifies this
      ensures Valid() && old(ordered) <= ordered && old(visited) <= visited
      ensures ok ==> Finished(folder, ordered, place)
      ensures !ok ==> SomeFailure(folder, main)
      decreases folder.Keys - visited, 3
    {
      for i := 0 to |folder[n].includes|
        invariant Valid() && old(ordered) <= ordered && old(visited) <= visited
        invariant Explored(folder, ordered, n, i)
        invariant Finished(folder, ordered, place + 1)
      {
        ok := VisitInclude(n, place, i);
        if !ok {
          return;
        }
      }
      ExploredIsDone(folder, ordered, place);
      ok := true;
    }

    method VisitInclude(n: string, ghost place: nat, i: nat) returns (ok: bool)
      requires Valid() && place < |ordered| && ordered[place] == n
      requires n in folder && folder[n].Text? && i < |folder[n].includes|
      requires Explored(folder, ordered, n, i) && Finished(folder, ordered, place + 1)
      modifies this
      ensures Valid() && old(ordered) <= ordered && old(visited) <= visited
      ensures ok ==> Explored(folder, ordered, n, i + 1) && Finished(folder, ordered, place + 1)
      ensures !ok ==> SomeFailure(folder, main)
      decreases folder.Keys - visited, 2
    {
      if folder[n].includes[i].None? {
        assert None in folder[n].includes;
        FailureAt(folder, main, n);
        return false;
      }
      Reached(folder, main, n, i);
      NextInclude(folder, ordered, place, i);
      ok := Visit(folder[n].includes[i].value);
      if ok {
        FinishedGrows(folder, old(ordered), ordered, place + 1);
        ExploredGrows(folder, old(ordered), ordered, n, i);
      }
    }
  }

  lemma FinishedGrows(folder: Folder, before: seq<string>, after: seq<string>, from: nat)
    requires Finished(folder, before, from) && Finished(folder, after, |before|) && before <= after
    ensures Finished(folder, after, from)
  {
    forall m | from <= m < |after| ensures !Fails(folder, after[m]) && Done(folder, after, after[m]) {
      if m < |before| {
        DoneGrows(folder, before, after, before[m]);
      }
    }
  }

  lemma ClosureIsReachable(folder: Folder, main: string, order: seq<string>)
    requires order != [] && order[0] == main && Finished(folder, order, 0)
    ensures IsClosed(IncludeGraph(folder), set x | x in order)
    ensures forall n :: Reaches(IncludeGraph(folder), main, n) ==> n in order && !Fails(folder, n)
  {
    var g := IncludeGraph(folder);
    var all := set x | x in order;
    forall n | n in all ensures Succ(g, n) <= all {
      var m :| 0 <= m < |order| && order[m] == n;
      assert Done(folder, order, order[m]);
      forall x | x in Succ(g, n) ensures x in all {
        assert Some(x) in Targets(folder, n);
        var i :| 0 <= i < |Targets(folder, n)| && Targets(folder, n)[i] == Some(x);
        assert Targets(folder, n)[i].value in order;
      }
    }
    forall n | Reaches(g, main, n) ensures n in order && !Fails(folder, n) {
      ClosedHoldsReachable(g, all, main, n);
      var m :| 0 <= m < |order| && order[m] == n;
    }
  }

  /**
   The closure fails exactly when the main file is missing or some reachable file cannot be read
   or includes something unresolvable.  Otherwise it holds each reachable file once, in the
   depth-first preorder from the main file.
   */
  method ResolveLatexClosure(folder: Folder, main: string) returns (r: Option<seq<string>>)
    requires Resolved(folder)
    ensures r.None? <==> main !in folder || SomeFailure(folder, main)
    ensures r.Some? ==>
      var order := r.value;
      && order != [] && order[0] == main
      && Distinct(order)
      && (forall n :: n in order <==> Reaches(IncludeGraph(folder), main, n))
      && Preorder(folder, order) && Complete(folder, order)
  {
    if main !in folder {
      return None;
    }
    var walk := new IncludeWalk(folder, main);
    ReachesSelf(IncludeGraph(folder), main);
    var ok := walk.Visit(main);
    if !ok {
      return None;
    }
    ghost var order := walk.ordered;
    ClosureIsReachable(folder, main, order);
    r := Some(walk.ordered);
  }
}
