/**
 Directed graphs over claim ids or file names, and reachability along their edges.

 The repository delegates this to networkx (`nx.descendants`); here reachability is the
 existence of an edge path, and `Descendants` computes it with a work list.  The laws are those
 of paths: they join, extend, and lose their repetitions.
 */
module Reachability {

  /** `nodes` may hold isolated nodes; an edge source is a key of `succ`. */
  datatype Graph = Graph(nodes: set<string>, succ: map<string, set<string>>)

  function Succ(g: Graph, n: string): set<string> {
    if n in g.succ then g.succ[n] else {}
  }

  /** Every edge joins two nodes, as in any networkx graph. */
  ghost predicate Valid(g: Graph) {
    forall n :: n in g.succ ==> n in g.nodes && g.succ[n] <= g.nodes
  }

  ghost predicate IsPath(g: Graph, p: seq<string>) {
    p != [] && forall i :: 0 < i < |p| ==> p[i] in Succ(g, p[i - 1])
  }

  ghost predicate PathBetween(g: Graph, p: seq<string>, a: string, b: string) {
    IsPath(g, p) && p[0] == a && p[|p| - 1] == b
  }

  /** Some path leads from `a` to `b`; the path may be empty. */
  ghost predicate Reaches(g: Graph, a: string, b: string) {
    exists p :: PathBetween(g, p, a, b)
  }

  /** Some path with at least one edge leads from `a` to `b`. */
  ghost predicate ReachesPlus(g: Graph, a: string, b: string) {
    exists m :: m in Succ(g, a) && Reaches(g, m, b)
  }

  ghost predicate Acyclic(g: Graph) {
    forall n :: !ReachesPlus(g, n, n)
  }

  ghost predicate IsClosed(g: Graph, s: set<string>) {
    forall n :: n in s ==> Succ(g, n) <= s
  }

  lemma ReachesSelf(g: Graph, a: string)
    ensures Reaches(g, a, a)
  {
    assert PathBetween(g, [a], a, a);
  }

  lemma ReachesStep(g: Graph, a: string, b: string, c: string)
    requires Reaches(g, a, b) && c in Succ(g, b)
    ensures Reaches(g, a, c)
  {
    var p :| PathBetween(g, p, a, b);
    assert PathBetween(g, p + [c], a, c);
  }

  lemma ReachesJoin(g: Graph, a: string, b: string, c: string)
    requires Reaches(g, a, b) && Reaches(g, b, c)
    ensures Reaches(g, a, c)
  {
    var p :| PathBetween(g, p, a, b);
    var q :| PathBetween(g, q, b, c);
    var r := p + q[1..];
    forall i | 0 < i < |r| ensures r[i] in Succ(g, r[i - 1]) {
      if i >= |p| {
        assert r[i] == q[i - |p| + 1] && r[i - 1] == q[i - |p|];
      }
    }
    assert PathBetween(g, r, a, c);
  }

  // ---- Edges turned around ----

  function Reversed(g: Graph): (r: Graph)
    ensures r.nodes == g.nodes && (Valid(g) ==> Valid(r))
    ensures Valid(g) ==> forall a, b :: b in Succ(g, a) <==> a in Succ(r, b)
  {
    Graph(g.nodes, map n | n in g.nodes :: set m | m in g.nodes && n in Succ(g, m))
  }

  lemma ReversedPath(g: Graph, r: Graph, p: seq<string>)
    requires IsPath(g, p)
    requires forall x, y :: y in Succ(g, x) ==> x in Succ(r, y)
    ensures Reaches(r, p[|p| - 1], p[0])
  {
    var q := seq(|p|, i requires 0 <= i < |p| => p[|p| - 1 - i]);
    forall i | 0 < i < |q| ensures q[i] in Succ(r, q[i - 1]) {
      var j := |p| - i;
      assert p[j] in Succ(g, p[j - 1]);
    }
    assert PathBetween(r, q, p[|p| - 1], p[0]);
  }

  lemma ReversedReaches(g: Graph, a: string, b: string)
    requires Valid(g)
    ensures Reaches(g, a, b) <==> Reaches(Reversed(g), b, a)
  {
    var r := Reversed(g);
    if Reaches(g, a, b) {
      var p :| PathBetween(g, p, a, b);
      ReversedPath(g, r, p);
    }
    if Reaches(r, b, a) {
      var p :| PathBetween(r, p, b, a);
      ReversedPath(r, g, p);
    }
  }

  /** A closed set holds everything its members reach. */
  lemma ClosedHoldsReachable(g: Graph, s: set<string>, a: string, b: string)
    requires IsClosed(g, s) && a in s && Reaches(g, a, b)
    ensures b in s
  {
    var p :| PathBetween(g, p, a, b);
    PathStaysInside(g, s, p, |p| - 1);
  }

  lemma {:induction false} PathStaysInside(g: Graph, s: set<string>, p: seq<string>, k: nat)
    requires IsClosed(g, s) && IsPath(g, p) && p[0] in s && k < |p|
    ensures p[k] in s
  {
    if k == 0 {
    } else {
      PathStaysInside(g, s, p, k - 1);
    }
  }

  /** networkx's `descendants`: everything reachable from `start` except `start` itself. */
  method Descendants(g: Graph, start: string) returns (found: set<string>)
    requires Valid(g)
    ensures forall x :: x in found <==> x != start && Reaches(g, start, x)
  {
    var seen := {start};
    var work := {start};
    ReachesSelf(g, start);
    while work != {}
      invariant start in seen && work <= seen <= g.nodes + {start}
      invariant forall x :: x in seen ==> Reaches(g, start, x)
      invariant forall x :: x in seen && x !in work ==> Succ(g, x) <= seen
      decreases g.nodes + {start} - seen, work
    {
      var x :| x in work;
      var unseen := Succ(g, x) - seen;
      forall y | y in unseen ensures Reaches(g, start, y) {
        ReachesStep(g, start, x, y);
      }
      ghost var before := g.nodes + {start} - seen;
      seen, work := seen + unseen, work - {x} + unseen;
      if unseen != {} {
        assert forall y :: y in unseen ==> y in before;
      }
    }
    found := seen - {start};
    forall x | Reaches(g, start, x) ensures x in seen {
      ClosedHoldsReachable(g, seen, start, x);
    }
  }

  /** A nonempty finite set whose members all have a successor inside it contains a cycle. */
  lemma NoSinkMeansCycle(g: Graph, s: set<string>)
    requires s != {} && forall n :: n in s ==> Succ(g, n) * s != {}
    ensures exists n :: n in s && ReachesPlus(g, n, n)
  {
    var n :| n in s;
    WalkUntilRepeat(g, s, [n]);
  }

  lemma {:induction false} WalkUntilRepeat(g: Graph, s: set<string>, p: seq<string>)
    requires forall n :: n in s ==> Succ(g, n) * s != {}
    requires IsPath(g, p) && forall i :: 0 <= i < |p| ==> p[i] in s
    requires forall i, j :: 0 <= i < j < |p| ==> p[i] != p[j]
    ensures exists n :: n in s && ReachesPlus(g, n, n)
    decreases |s| - |p|
  {
    var last := p[|p| - 1];
    var next :| next in Succ(g, last) * s;
    if i :| 0 <= i < |p| && p[i] == next {
      assert PathBetween(g, p[i..], next, last);
      CycleThrough(g, next, last);
    } else {
      DistinctFits(p + [next], s);
      WalkUntilRepeat(g, s, p + [next]);
    }
  }

  lemma CycleThrough(g: Graph, a: string, b: string)
    requires Reaches(g, a, b) && a in Succ(g, b)
    ensures ReachesPlus(g, b, b)
  {
  }

  lemma SubsetSize<T>(a: set<T>, b: set<T>)
    requires a <= b
    ensures |a| <= |b|
  {
    assert b == a + (b - a);
  }

  /** A duplicate-free sequence drawn from a set is no longer than the set. */
  lemma {:induction false} DistinctFits<T>(q: seq<T>, s: set<T>)
    requires forall i :: 0 <= i < |q| ==> q[i] in s
    requires forall i, j :: 0 <= i < j < |q| ==> q[i] != q[j]
    ensures |q| <= |s|
  {
    if q == [] {
    } else {
      var k := |q| - 1;
      DistinctFits(q[..k], s - {q[k]});
    }
  }
}
