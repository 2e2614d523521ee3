/**
 `_paths` of `incremental/failures.py`: breadth-first search from every target with a
 predecessor table, and a path read back from each blocker that was reached.
 */
module FailurePaths {
  import opened Options
  import opened Ordering
  import opened Reachability
  import opened Sorting

  datatype FailurePath = FailurePath(target: string, blocker: string, claims: seq<string>)

  /** Shortest, and lexicographically least among the shortest. */
  ghost predicate IsLeastPath(g: Graph, a: string, b: string, p: seq<string>) {
    && PathBetween(g, p, a, b)
    && forall q :: PathBetween(g, q, a, b) ==> ShortAtMost(p, q)
  }

  /** Discovery order of a search, with the position of each claim's predecessor. */
  datatype Search = Search(order: seq<string>, parent: seq<nat>)

  ghost predicate Discovered(g: Graph, s: Search, i: nat)
    requires |s.parent| == |s.order| && 0 < i < |s.order|
  {
    s.parent[i] < i && s.order[i] in Succ(g, s.order[s.parent[i]])
  }

  ghost predicate InOrder(s: Search, i: nat, j: nat)
    requires |s.parent| == |s.order| && i < |s.order| && j < |s.order|
  {
    s.parent[i] < s.parent[j] || (s.parent[i] == s.parent[j] && Less(s.order[i], s.order[j]))
  }

  /**
   What makes a discovery order breadth-first: predecessors come earlier and in the same order
   as the claims they discovered, and siblings are sorted.
   */
  ghost predicate IsSearch(g: Graph, s: Search) {
    && |s.parent| == |s.order| > 0
    && (forall i :: 0 < i < |s.order| ==> Discovered(g, s, i))
    && (forall i, j :: 0 < i < j < |s.order| ==> InOrder(s, i, j))
  }

  /** `x` has been discovered, at the latest from position `k`. */
  ghost predicate Found(s: Search, x: string, k: nat)
    requires |s.parent| == |s.order|
  {
    exists i :: 0 <= i < |s.order| && s.order[i] == x && (i == 0 || s.parent[i] <= k)
  }

  /** Positions before `head` have been expanded. */
  ghost predicate Expanded(g: Graph, s: Search, head: nat)
    requires IsSearch(g, s) && head <= |s.order|
  {
    forall k, x :: 0 <= k < head && x in Succ(g, s.order[k]) ==> Found(s, x, k)
  }

  ghost function TreePath(g: Graph, s: Search, i: nat): seq<string>
    requires IsSearch(g, s) && i < |s.order|
  {
    if i == 0 then [s.order[0]]
    else
      assert Discovered(g, s, i);
      TreePath(g, s, s.parent[i]) + [s.order[i]]
  }

  lemma {:induction false} TreePathIsPath(g: Graph, s: Search, i: nat)
    requires IsSearch(g, s) && i < |s.order|
    ensures PathBetween(g, TreePath(g, s, i), s.order[0], s.order[i])
  {
    if i == 0 {
    } else {
      assert Discovered(g, s, i);
      TreePathIsPath(g, s, s.parent[i]);
    }
  }

  /** Later discoveries have greater tree paths. */
  lemma {:induction false} TreePathsAscend(g: Graph, s: Search, i: nat, j: nat)
    requires IsSearch(g, s) && i < j < |s.order|
    ensures ShortLess(TreePath(g, s, i), TreePath(g, s, j))
    decreases j
  {
    if i == 0 {
      TreePathLonger(g, s, j);
    } else {
      assert Discovered(g, s, i) && Discovered(g, s, j) && InOrder(s, i, j);
      var a, b := s.parent[i], s.parent[j];
      if a < b {
        TreePathsAscend(g, s, a, b);
      }
      ShortExtend(TreePath(g, s, a), TreePath(g, s, b), s.order[i], s.order[j]);
    }
  }

  lemma TreePathLonger(g: Graph, s: Search, j: nat)
    requires IsSearch(g, s) && 0 < j < |s.order|
    ensures |TreePath(g, s, j)| > 1
  {
    assert Discovered(g, s, j);
    TreePathIsPath(g, s, s.parent[j]);
  }

  lemma TreePathsOrdered(g: Graph, s: Search, i: nat, j: nat)
    requires IsSearch(g, s) && i <= j < |s.order|
    ensures ShortAtMost(TreePath(g, s, i), TreePath(g, s, j))
  {
    if i < j {
      TreePathsAscend(g, s, i, j);
    }
  }

  /** Once everything is expanded, the tree path is the least among all paths. */
  lemma {:induction false} TreePathIsLeast(g: Graph, s: Search, q: seq<string>) returns (i: nat)
    requires IsSearch(g, s) && Expanded(g, s, |s.order|)
    requires IsPath(g, q) && q[0] == s.order[0]
    ensures i < |s.order| && s.order[i] == q[|q| - 1]
    ensures ShortAtMost(TreePath(g, s, i), q)
    decreases |q|
  {
    var n := |q| - 1;
    if n == 0 {
      i := 0;
      assert q == [s.order[0]];
    } else {
      var front := q[..n];
      var k := TreePathIsLeast(g, s, front);
      assert q[n] in Succ(g, s.order[k]);
      assert Found(s, q[n], k);
      i :| 0 <= i < |s.order| && s.order[i] == q[n] && (i == 0 || s.parent[i] <= k);
      if i == 0 {
        assert |TreePath(g, s, 0)| < |q|;
      } else {
        assert Discovered(g, s, i);
        var a, b := TreePath(g, s, s.parent[i]), TreePath(g, s, k);
        TreePathsOrdered(g, s, s.parent[i], k);
        ShortTransitive(a, b, front);
        ShortExtend(a, front, q[n], q[n]);
        assert q == front + [q[n]];
      }
    }
  }

  /** The search reaches exactly the reachable claims, each by its least path. */
  lemma SearchFindsLeastPaths(g: Graph, s: Search, i: nat)
    requires IsSearch(g, s) && Expanded(g, s, |s.order|) && NoDuplicates(s.order) && i < |s.order|
    ensures IsLeastPath(g, s.order[0], s.order[i], TreePath(g, s, i))
  {
    TreePathIsPath(g, s, i);
    forall q | PathBetween(g, q, s.order[0], s.order[i]) ensures ShortAtMost(TreePath(g, s, i), q) {
      var j := TreePathIsLeast(g, s, q);
    }
  }

  lemma LeastPathIsUnique(g: Graph, a: string, b: string, p: seq<string>, q: seq<string>)
    requires IsLeastPath(g, a, b, p) && IsLeastPath(g, a, b, q)
    ensures p == q
  {
    if p != q {
      ShortIrreflexive(p, q);
    }
  }

  ghost predicate Row(predecessor: map<string, Option<string>>, s: Search, i: nat)
    requires |s.parent| == |s.order| && i < |s.order|
  {
    && s.order[i] in predecessor
    && (if i == 0 then predecessor[s.order[i]] == None
        else s.parent[i] < |s.order| && predecessor[s.order[i]] == Some(s.order[s.parent[i]]))
  }

  ghost predicate Tabulates(predecessor: map<string, Option<string>>, s: Search)
    requires |s.parent| == |s.order|
  {
    && (forall x :: x in predecessor ==> x in s.order)
    && (forall i :: 0 <= i < |s.order| ==> Row(predecessor, s, i))
  }

  /** The tables between two steps: the queue holds the discovered claims from `next` on. */
  ghost predicate InStep(g: Graph, s: Search, target: string, predecessor: map<string, Option<string>>,
                         queue: seq<string>, next: nat) {
    && IsSearch(g, s) && s.order[0] == target && NoDuplicates(s.order)
    && (forall x :: x in s.order ==> x in g.nodes)
    && next <= |s.order| && queue == s.order[next..]
    && Tabulates(predecessor, s)
  }

  /** While `head` is being expanded, the claims it discovered are among the children seen. */
  ghost predicate Seen(s: Search, head: nat, children: seq<string>)
    requires |s.parent| == |s.order|
  {
    && (forall i :: 0 < i < |s.order| ==> s.parent[i] <= head)
    && (forall i :: 0 < i < |s.order| && s.parent[i] == head ==> s.order[i] in children)
    && (forall c :: c in children ==> Found(s, c, head))
  }

  /** One child: already in the table, or new to the table, the queue and the search. */
  method TryChild(g: Graph, target: string, node: string, children: seq<string>, k: nat,
                  predecessor0: map<string, Option<string>>, queue0: seq<string>, ghost s0: Search, ghost head: nat)
    returns (predecessor: map<string, Option<string>>, queue: seq<string>, ghost s: Search)
    requires Valid(g) && InStep(g, s0, target, predecessor0, queue0, head + 1) && s0.order[head] == node
    requires k < |children| && StrictlySorted(children) && children[k] in Succ(g, node)
    requires Expanded(g, s0, head) && Seen(s0, head, children[..k])
    ensures InStep(g, s, target, predecessor, queue, head + 1) && s.order[head] == node
    ensures Expanded(g, s, head) && Seen(s, head, children[..k + 1])
  {
    var child := children[k];
    assert children[..k + 1] == children[..k] + [child];
    InTable(predecessor0, s0, child);
    predecessor, queue, s := predecessor0, queue0, s0;
    if child !in predecessor {
      NewChild(g, s, target, predecessor, queue, head, children, k);
      predecessor := predecessor[child := Some(node)];
      queue := queue + [child];
      s := Search(s.order + [child], s.parent + [head]);
    } else {
      AlreadyFound(s, child, head);
    }
  }

  /** The inner loop: expand one claim. */
  method Expand(g: Graph, target: string, node: string,
                predecessor0: map<string, Option<string>>, queue0: seq<string>, ghost s0: Search, ghost head: nat)
    returns (predecessor: map<string, Option<string>>, queue: seq<string>, ghost s: Search)
    requires Valid(g) && InStep(g, s0, target, predecessor0, queue0, head + 1) && s0.order[head] == node
    requires Expanded(g, s0, head) && forall i :: 0 < i < |s0.order| ==> s0.parent[i] < head
    ensures InStep(g, s, target, predecessor, queue, head + 1)
    ensures Expanded(g, s, head + 1) && forall i :: 0 < i < |s.order| ==> s.parent[i] <= head
  {
    predecessor, queue, s := predecessor0, queue0, s0;
    var children := Sorted(Succ(g, node));
    for k := 0 to |children|
      invariant InStep(g, s, target, predecessor, queue, head + 1) && s.order[head] == node
      invariant Expanded(g, s, head) && Seen(s, head, children[..k])
    {
      assert children[k] in children;
      predecessor, queue, s := TryChild(g, target, node, children, k, predecessor, queue, s, head);
    }
    assert children[..|children|] == children;
  }

  lemma InTable(predecessor: map<string, Option<string>>, s: Search, x: string)
    requires |s.parent| == |s.order| && Tabulates(predecessor, s)
    ensures x in predecessor <==> x in s.order
  {
    if i :| 0 <= i < |s.order| && s.order[i] == x {
      assert Row(predecessor, s, i);
    }
  }

  /** A child that is not in the table yet joins it, the queue and the search. */
  lemma NewChild(g: Graph, s: Search, target: string, predecessor: map<string, Option<string>>,
                 queue: seq<string>, head: nat, children: seq<string>, k: nat)
    requires Valid(g) && InStep(g, s, target, predecessor, queue, head + 1)
    requires k < |children| && StrictlySorted(children) && children[k] !in predecessor
    requires children[k] in Succ(g, s.order[head])
    requires Expanded(g, s, head) && Seen(s, head, children[..k])
    ensures var child := children[k];
            var t := Search(s.order + [child], s.parent + [head]);
            && InStep(g, t, target, predecessor[child := Some(s.order[head])], queue + [child], head + 1)
            && Expanded(g, t, head) && Seen(t, head, children[..k] + [child])
  {
    var child := children[k];
    forall i | 0 < i < |s.order| && s.parent[i] == head ensures Less(s.order[i], child) {
      var j :| 0 <= j < k && children[j] == s.order[i];
    }
    InTable(predecessor, s, child);
    DiscoverOne(g, s, head, child);
    StillFound(s, head, child);
    StillTabulated(predecessor, s, head, child);
    var t := Search(s.order + [child], s.parent + [head]);
    assert t.order[head + 1..] == queue + [child];
    forall i | 0 < i < |t.order| && t.parent[i] == head ensures t.order[i] in children[..k] + [child] {
      if i < |s.order| {
        assert s.order[i] in children[..k];
      }
    }
    forall k', x | 0 <= k' < head && x in Succ(g, t.order[k']) ensures Found(t, x, k') {
      assert Found(s, x, k');
    }
  }

  /** One target's search: the predecessor table and, for the proof, the discovery order. */
  method SearchFrom(g: Graph, target: string) returns (predecessor: map<string, Option<string>>, ghost s: Search)
    requires Valid(g) && target in g.nodes
    ensures IsSearch(g, s) && s.order[0] == target && NoDuplicates(s.order)
    ensures Expanded(g, s, |s.order|)
    ensures Tabulates(predecessor, s)
  {
    predecessor := map[target := None];
    var queue := [target];
    s := Search([target], [0]);
    ghost var head := 0;
    while queue != []
      invariant InStep(g, s, target, predecessor, queue, head)
      invariant Expanded(g, s, head)
      invariant forall i :: 0 < i < |s.order| ==> s.parent[i] < head
      decreases |g.nodes| - head
    {
      DistinctFits(s.order, g.nodes);
      assert queue[1..] == s.order[head + 1..];
      predecessor, queue, s := Expand(g, target, queue[0], predecessor, queue[1..], s, head);
      head := head + 1;
    }
  }

  /** Appending a child of the expanded position keeps the search breadth-first. */
  lemma DiscoverOne(g: Graph, s: Search, head: nat, child: string)
    requires IsSearch(g, s) && head < |s.order| && child in Succ(g, s.order[head])
    requires forall i :: 0 < i < |s.order| ==> s.parent[i] <= head
    requires forall i :: 0 < i < |s.order| && s.parent[i] == head ==> Less(s.order[i], child)
    ensures IsSearch(g, Search(s.order + [child], s.parent + [head]))
  {
    var t := Search(s.order + [child], s.parent + [head]);
    forall i | 0 < i < |t.order| ensures Discovered(g, t, i) {
      if i < |s.order| {
        assert Discovered(g, s, i);
      }
    }
    forall i, j | 0 < i < j < |t.order| ensures InOrder(t, i, j) {
      if j < |s.order| {
        assert InOrder(s, i, j);
      }
    }
  }

  lemma AlreadyFound(s: Search, x: string, k: nat)
    requires |s.parent| == |s.order| && x in s.order && forall i :: 0 < i < |s.order| ==> s.parent[i] <= k
    ensures Found(s, x, k)
  {
    var i :| 0 <= i < |s.order| && s.order[i] == x;
  }

  lemma StillFound(s: Search, head: nat, child: string)
    requires |s.parent| == |s.order|
    ensures var t := Search(s.order + [child], s.parent + [head]);
            && (forall x, k :: Found(s, x, k) ==> Found(t, x, k))
            && Found(t, child, head)
  {
    var t := Search(s.order + [child], s.parent + [head]);
    forall x, k | Found(s, x, k) ensures Found(t, x, k) {
      var i :| 0 <= i < |s.order| && s.order[i] == x && (i == 0 || s.parent[i] <= k);
      assert t.order[i] == x;
    }
    assert t.order[|s.order|] == child && t.parent[|s.order|] == head;
  }

  lemma StillTabulated(predecessor: map<string, Option<string>>, s: Search, head: nat, child: string)
    requires |s.parent| == |s.order| && head < |s.order| && child !in s.order
    requires Tabulates(predecessor, s)
    ensures Tabulates(predecessor[child := Some(s.order[head])], Search(s.order + [child], s.parent + [head]))
  {
    var t := Search(s.order + [child], s.parent + [head]);
    var table := predecessor[child := Some(s.order[head])];
    forall i | 0 <= i < |t.order| ensures Row(table, t, i) {
      if i < |s.order| {
        assert Row(predecessor, s, i);
        assert s.order[i] in s.order;
      }
    }
  }

  // ---- Reading paths back ----

  function Reversed(p: seq<string>): seq<string> {
    if p == [] then [] else Reversed(p[1..]) + [p[0]]
  }

  lemma {:induction false} ReversedAppend(p: seq<string>, x: string)
    ensures Reversed(p + [x]) == [x] + Reversed(p)
  {
    if p == [] {
    } else {
      ReversedAppend(p[1..], x);
      assert (p + [x])[1..] == p[1..] + [x];
    }
  }

  /** The cursor loop: follow predecessors from `blocker` to the target and reverse. */
  method ReadBack(g: Graph, blocker: string, predecessor: map<string, Option<string>>, ghost s: Search)
    returns (claims: seq<string>)
    requires IsSearch(g, s) && NoDuplicates(s.order) && Expanded(g, s, |s.order|)
    requires Tabulates(predecessor, s) && blocker in predecessor
    ensures IsLeastPath(g, s.order[0], blocker, claims)
  {
    InTable(predecessor, s, blocker);
    ghost var b: nat :| b < |s.order| && s.order[b] == blocker;
    ghost var i: nat := b;
    var backwards: seq<string> := [];
    var cursor := Some(blocker);
    while cursor.Some?
      invariant cursor.Some? ==> i < |s.order| && cursor.value == s.order[i]
      invariant cursor.Some? ==> TreePath(g, s, b) == TreePath(g, s, i) + Reversed(backwards)
      invariant cursor.None? ==> TreePath(g, s, b) == Reversed(backwards)
      decreases cursor.Some?, i
    {
      assert Row(predecessor, s, i);
      ReversedAppend(backwards, cursor.value);
      if i > 0 {
        assert Discovered(g, s, i);
      }
      backwards := backwards + [cursor.value];
      cursor := predecessor[cursor.value];
      i := if i > 0 then s.parent[i] else 0;
    }
    claims := Reversed(backwards);
    SearchFindsLeastPaths(g, s, b);
  }

  // ---- The result, sorted ----

  /** `targets.index(target)`, or the length when there is none. */
  function Position(targets: seq<string>, target: string): nat {
    if targets == [] || targets[0] == target then 0 else 1 + Position(targets[1..], target)
  }

  /** The sort key: position of the target, then path length, path, blocker. */
  predicate KeyAtMost(targets: seq<string>, a: FailurePath, b: FailurePath) {
    var i, j := Position(targets, a.target), Position(targets, b.target);
    i < j || (i == j && (ShortLess(a.claims, b.claims)
                         || (a.claims == b.claims && AtMost(a.blocker, b.blocker))))
  }

  lemma KeyTotal(targets: seq<string>, a: FailurePath, b: FailurePath)
    ensures KeyAtMost(targets, a, b) || KeyAtMost(targets, b, a)
  {
    LexTotal(a.claims, b.claims);
    LessTotal(a.blocker, b.blocker);
  }

  lemma KeyTransitive(targets: seq<string>, a: FailurePath, b: FailurePath, c: FailurePath)
    requires KeyAtMost(targets, a, b) && KeyAtMost(targets, b, c)
    ensures KeyAtMost(targets, a, c)
  {
    if Position(targets, a.target) == Position(targets, b.target) == Position(targets, c.target) {
      ShortTransitive(a.claims, b.claims, c.claims);
      if Less(a.blocker, b.blocker) && Less(b.blocker, c.blocker) {
        LessTransitive(a.blocker, b.blocker, c.blocker);
      }
    }
  }

  lemma KeyIsPreorder(targets: seq<string>)
    ensures TotalPreorder((a, b) => KeyAtMost(targets, a, b))
  {
    forall a, b ensures KeyAtMost(targets, a, b) || KeyAtMost(targets, b, a) {
      KeyTotal(targets, a, b);
    }
    forall a, b, c | KeyAtMost(targets, a, b) && KeyAtMost(targets, b, c) ensures KeyAtMost(targets, a, c) {
      KeyTransitive(targets, a, b, c);
    }
  }

  /** `targets[k]` is the first occurrence of the target. */
  ghost predicate IsIndex(targets: seq<string>, target: string, k: nat) {
    k < |targets| && targets[k] == target && target !in targets[..k]
  }

  /** Earlier targets first; for one target shorter paths first, and equally long ones by their names. */
  ghost predicate ReportedBefore(targets: seq<string>, a: FailurePath, b: FailurePath) {
    forall i, j :: IsIndex(targets, a.target, i) && IsIndex(targets, b.target, j) ==>
      && i <= j
      && (i == j ==> |a.claims| <= |b.claims|)
      && (i == j && |a.claims| == |b.claims| ==> a.claims == b.claims || LexLess(a.claims, b.claims))
  }

  lemma {:induction false} PositionIsIndex(targets: seq<string>, target: string)
    requires target in targets
    ensures IsIndex(targets, target, Position(targets, target))
  {
    if targets[0] == target {
      assert IsIndex(targets, target, 0);
    } else {
      PositionIsIndex(targets[1..], target);
      var k := Position(targets[1..], target);
      assert targets[..k + 1] == [targets[0]] + targets[1..][..k];
    }
  }

  lemma IndexIsPosition(targets: seq<string>, target: string, k: nat)
    requires IsIndex(targets, target, k)
    ensures k == Position(targets, target)
  {
    PositionIsIndex(targets, target);
    var p := Position(targets, target);
    forall h | 0 <= h < k ensures targets[h] != target {
      assert targets[..k][h] == targets[h];
    }
    forall h | 0 <= h < p ensures targets[h] != target {
      assert targets[..p][h] == targets[h];
    }
  }

  lemma KeyMeans(targets: seq<string>, a: FailurePath, b: FailurePath)
    requires KeyAtMost(targets, a, b)
    ensures ReportedBefore(targets, a, b)
  {
    forall i, j | IsIndex(targets, a.target, i) && IsIndex(targets, b.target, j)
      ensures i == Position(targets, a.target) && j == Position(targets, b.target)
    {
      IndexIsPosition(targets, a.target, i);
      IndexIsPosition(targets, b.target, j);
    }
  }

  /** An item that belongs in the report. */
  ghost predicate Belongs(g: Graph, targets: seq<string>, blockers: set<string>, item: FailurePath) {
    && item.target in targets && item.target in g.nodes && item.blocker in blockers
    && IsLeastPath(g, item.target, item.blocker, item.claims)
  }

  ghost predicate Reports(items: seq<FailurePath>, target: string, blocker: string) {
    exists i :: 0 <= i < |items| && items[i].target == target && items[i].blocker == blocker
  }

  /** The items of one target for the blockers done so far. */
  ghost predicate ItemsFor(g: Graph, target: string, done: seq<string>, items: seq<FailurePath>) {
    && (forall i :: 0 <= i < |items| ==>
          items[i].target == target && items[i].blocker in done
          && IsLeastPath(g, target, items[i].blocker, items[i].claims))
    && (forall i, j :: 0 <= i < j < |items| ==> items[i].blocker != items[j].blocker)
    && (forall b :: b in done && Reaches(g, target, b) ==> Reports(items, target, b))
  }

  method PathsFrom(g: Graph, target: string, blockers: set<string>) returns (items: seq<FailurePath>)
    requires Valid(g) && target in g.nodes
    ensures ItemsFor(g, target, Sorted(blockers), items)
  {
    var predecessor, s := SearchFrom(g, target);
    var ordered := Sorted(blockers);
    SortedHasNoDuplicates(ordered);
    items := [];
    for k := 0 to |ordered|
      invariant ItemsFor(g, target, ordered[..k], items)
    {
      var blocker := ordered[k];
      assert ordered[..k + 1] == ordered[..k] + [blocker];
      assert blocker !in ordered[..k];
      if blocker in predecessor {
        var claims := ReadBack(g, blocker, predecessor, s);
        OneMoreItem(g, target, ordered[..k], items, FailurePath(target, blocker, claims));
        items := items + [FailurePath(target, blocker, claims)];
      } else {
        Unreached(g, s, predecessor, blocker);
      }
    }
    assert ordered[..|ordered|] == ordered;
  }

  lemma Unreached(g: Graph, s: Search, predecessor: map<string, Option<string>>, blocker: string)
    requires IsSearch(g, s) && Expanded(g, s, |s.order|) && Tabulates(predecessor, s) && blocker !in predecessor
    ensures !Reaches(g, s.order[0], blocker)
  {
    if Reaches(g, s.order[0], blocker) {
      var q :| PathBetween(g, q, s.order[0], blocker);
      var i := TreePathIsLeast(g, s, q);
      InTable(predecessor, s, blocker);
    }
  }

  lemma OneMoreItem(g: Graph, target: string, done: seq<string>, items: seq<FailurePath>, item: FailurePath)
    requires ItemsFor(g, target, done, items) && item.blocker !in done && item.target == target
    requires IsLeastPath(g, target, item.blocker, item.claims)
    ensures ItemsFor(g, target, done + [item.blocker], items + [item])
  {
    KeptReports(items, items + [item]);
    assert (items + [item])[|items|] == item;
  }

  lemma KeptReports(before: seq<FailurePath>, after: seq<FailurePath>)
    requires before <= after
    ensures forall t, b :: Reports(before, t, b) ==> Reports(after, t, b)
  {
    forall t, b | Reports(before, t, b) ensures Reports(after, t, b) {
      var i :| 0 <= i < |before| && before[i].target == t && before[i].blocker == b;
      assert after[i].target == t;
    }
  }

  /** The unsorted items of the targets done so far. */
  ghost predicate Collected(g: Graph, blockers: set<string>, done: seq<string>, items: seq<FailurePath>) {
    && (forall x :: x in items ==> Belongs(g, done, blockers, x))
    && (forall t, b :: t in done && t in g.nodes && b in blockers && Reaches(g, t, b) ==> Reports(items, t, b))
    && (NoDuplicates(done) ==> NoDuplicates(items))
  }

  lemma CollectTarget(g: Graph, blockers: set<string>, done: seq<string>, items: seq<FailurePath>,
                      target: string, more: seq<FailurePath>)
    requires Collected(g, blockers, done, items)
    requires if target in g.nodes then ItemsFor(g, target, Sorted(blockers), more) else more == []
    ensures Collected(g, blockers, done + [target], items + more)
  {
    KeptReports(items, items + more);
    forall t, b | Reports(more, t, b) ensures Reports(items + more, t, b) {
      var i :| 0 <= i < |more| && more[i].target == t && more[i].blocker == b;
      assert (items + more)[|items| + i] == more[i];
    }
    if NoDuplicates(done + [target]) {
      assert (done + [target])[|done|] == target;
      forall i, j | 0 <= i < j < |done| ensures done[i] != done[j] {
        assert (done + [target])[i] != (done + [target])[j];
      }
      forall i | 0 <= i < |done| ensures done[i] != target {
        assert (done + [target])[i] != (done + [target])[|done|];
      }
      forall i | 0 <= i < |items| ensures items[i].target != target {
        assert items[i] in items;
      }
    }
  }

  /** Every reachable (target, blocker) pair, by its least path, in key order. */
  method Paths(g: Graph, targets: seq<string>, blockers: set<string>) returns (result: seq<FailurePath>)
    requires Valid(g)
    ensures forall x :: x in result ==> Belongs(g, targets, blockers, x)
    ensures forall t, b :: t in targets && t in g.nodes && b in blockers && Reaches(g, t, b) ==> Reports(result, t, b)
    ensures forall i, j :: 0 <= i < j < |result| ==> KeyAtMost(targets, result[i], result[j])
    ensures forall i, j :: 0 <= i < j < |result| ==> ReportedBefore(targets, result[i], result[j])
    ensures NoDuplicates(targets) ==> forall x :: multiset(result)[x] <= 1
  {
    var items: seq<FailurePath> := [];
    for k := 0 to |targets|
      invariant Collected(g, blockers, targets[..k], items)
    {
      var more: seq<FailurePath> := [];
      if targets[k] in g.nodes {
        more := PathsFrom(g, targets[k], blockers);
      }
      CollectTarget(g, blockers, targets[..k], items, targets[k], more);
      assert targets[..k + 1] == targets[..k] + [targets[k]];
      items := items + more;
    }
    assert targets[..|targets|] == targets;
    KeyIsPreorder(targets);
    result := Sort((a, b) => KeyAtMost(targets, a, b), items);
    SameItems(items, result);
    forall i, j | 0 <= i < j < |result| ensures ReportedBefore(targets, result[i], result[j]) {
      KeyMeans(targets, result[i], result[j]);
    }
    if NoDuplicates(targets) {
      DistinctCountsOnce(items);
    }
  }

  lemma SameItems(items: seq<FailurePath>, result: seq<FailurePath>)
    requires multiset(items) == multiset(result)
    ensures forall x :: x in result <==> x in items
    ensures forall t, b :: Reports(items, t, b) ==> Reports(result, t, b)
  {
    forall x ensures x in result <==> x in items {
      assert x in multiset(result) <==> x in multiset(items);
    }
    forall t, b | Reports(items, t, b) ensures Reports(result, t, b) {
      var i :| 0 <= i < |items| && items[i].target == t && items[i].blocker == b;
      assert items[i] in result;
    }
  }
}
