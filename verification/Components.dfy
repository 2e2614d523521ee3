/**
 Strongly connected components: the dependency cycles reported by `canonical_cycles` of
 `incremental/graph.py` and the condensed graph of `_components` in `incremental/failures.py`.
 Two claims belong together when each reaches the other.
 */
module Components {
  import opened Ordering
  import opened Reachability
  import opened Sorting

  ghost predicate Mutual(g: Graph, a: string, b: string) {
    Reaches(g, a, b) && Reaches(g, b, a)
  }

  ghost function Component(g: Graph, n: string): set<string> {
    set m | m in g.nodes && Mutual(g, n, m)
  }

  lemma MutualJoins(g: Graph, a: string, b: string, c: string)
    requires Mutual(g, a, b) && Mutual(g, b, c)
    ensures Mutual(g, a, c)
  {
    ReachesJoin(g, a, b, c);
    ReachesJoin(g, c, b, a);
  }

  lemma ComponentHolds(g: Graph, n: string)
    requires n in g.nodes
    ensures n in Component(g, n)
  {
    ReachesSelf(g, n);
  }

  lemma MembersShare(g: Graph, a: string, b: string)
    requires a in g.nodes && b in g.nodes
    ensures b in Component(g, a) <==> Component(g, a) == Component(g, b)
  {
    ComponentHolds(g, b);
    if b in Component(g, a) {
      forall m ensures m in Component(g, a) <==> m in Component(g, b) {
        if m in Component(g, a) {
          MutualJoins(g, b, a, m);
        }
        if m in Component(g, b) {
          MutualJoins(g, a, b, m);
        }
      }
    }
  }

  lemma ReachedIsNode(g: Graph, a: string, b: string)
    requires Valid(g) && a in g.nodes && Reaches(g, a, b)
    ensures b in g.nodes
  {
    assert IsClosed(g, g.nodes);
    ClosedHoldsReachable(g, g.nodes, a, b);
  }

  lemma FirstStep(g: Graph, a: string, b: string)
    requires Reaches(g, a, b) && a != b
    ensures ReachesPlus(g, a, b)
  {
    var p :| PathBetween(g, p, a, b);
    assert PathBetween(g, p[1..], p[1], b);
    assert p[1] in Succ(g, a);
  }

  /** A claim lies on a cycle exactly when its component has a second member or it is its own successor. */
  lemma OnCycle(g: Graph, n: string)
    requires Valid(g) && n in g.nodes
    ensures ReachesPlus(g, n, n) <==> |Component(g, n)| > 1 || n in Succ(g, n)
  {
    ComponentHolds(g, n);
    if ReachesPlus(g, n, n) {
      var m :| m in Succ(g, n) && Reaches(g, m, n);
      if m != n {
        ReachesSelf(g, n);
        ReachesStep(g, n, n, m);
        assert {n, m} <= Component(g, n);
        SubsetSize({n, m}, Component(g, n));
      }
    }
    if |Component(g, n)| > 1 {
      var m := Another(Component(g, n), n);
      FirstStep(g, n, m);
      var s :| s in Succ(g, n) && Reaches(g, s, m);
      ReachesJoin(g, s, m, n);
    }
    if n in Succ(g, n) {
      ReachesSelf(g, n);
    }
  }

  lemma Another(s: set<string>, n: string) returns (m: string)
    requires |s| > 1
    ensures m in s && m != n
  {
    SubsetSize(s - (s - {n}), {n});
    assert s == (s - {n}) + (s - (s - {n}));
    m :| m in s - {n};
  }

  // ---- Listing the components ----

  method ComponentOf(g: Graph, n: string) returns (members: set<string>)
    requires Valid(g) && n in g.nodes
    ensures members == Component(g, n)
  {
    var below := Descendants(g, n);
    var above := Descendants(Reversed(g), n);
    members := below * above + {n};
    ReachesSelf(g, n);
    forall m ensures m in members <==> m in Component(g, n) {
      ReversedReaches(g, m, n);
      if Reaches(g, n, m) {
        ReachedIsNode(g, n, m);
      }
    }
  }

  ghost predicate IsComponent(g: Graph, c: set<string>) {
    exists n :: n in g.nodes && c == Component(g, n)
  }

  lemma ComponentIs(g: Graph, c: set<string>, n: string)
    requires IsComponent(g, c) && n in c
    ensures n in g.nodes && c == Component(g, n)
  {
    var m :| m in g.nodes && c == Component(g, m);
    MembersShare(g, m, n);
  }

  /** Components whose members are no longer in `left`, each once, and all of these. */
  ghost predicate Lists(g: Graph, raw: seq<set<string>>, left: set<string>) {
    && (forall c :: c in raw ==> IsComponent(g, c) && c !! left)
    && (forall n :: n in g.nodes - left ==> Component(g, n) in raw)
    && NoDuplicates(raw)
  }

  ghost predicate Whole(g: Graph, left: set<string>) {
    left <= g.nodes && forall n :: n in left ==> Component(g, n) <= left
  }

  lemma RestIsWhole(g: Graph, left: set<string>, n: string)
    requires Whole(g, left) && n in left
    ensures Whole(g, left - Component(g, n))
  {
    var c := Component(g, n);
    forall m | m in left - c ensures Component(g, m) <= left - c {
      forall x | x in Component(g, m) ensures x !in c {
        if x in c {
          ComponentIs(g, c, x);
          MembersShare(g, m, x);
          ComponentHolds(g, m);
        }
      }
    }
  }

  lemma ListOne(g: Graph, raw: seq<set<string>>, left: set<string>, n: string)
    requires Lists(g, raw, left) && Whole(g, left) && n in left
    ensures Lists(g, raw + [Component(g, n)], left - Component(g, n)) && n in Component(g, n)
  {
    var c := Component(g, n);
    ComponentHolds(g, n);
    assert c !in raw;
    forall m | m in c ensures Component(g, m) == c {
      ComponentIs(g, c, m);
    }
  }

  /** The components in no particular order. */
  method ListComponents(g: Graph) returns (raw: seq<set<string>>)
    requires Valid(g)
    ensures Lists(g, raw, {})
  {
    raw := [];
    var left := g.nodes;
    while left != {}
      invariant Lists(g, raw, left) && Whole(g, left)
      decreases left
    {
      var n :| n in left;
      var members := ComponentOf(g, n);
      ListOne(g, raw, left, n);
      RestIsWhole(g, left, n);
      raw := raw + [members];
      left := left - members;
    }
  }

  /** Python compares the components as tuples of their sorted members. */
  predicate NoLater(a: set<string>, b: set<string>) {
    a == b || LexLess(Sorted(a), Sorted(b))
  }

  lemma SortedIsInjective(a: set<string>, b: set<string>)
    requires Sorted(a) == Sorted(b)
    ensures a == b
  {
    assert forall x :: x in a <==> x in Sorted(a);
    assert forall x :: x in b <==> x in Sorted(b);
  }

  lemma NoLaterTotal(a: set<string>, b: set<string>)
    ensures NoLater(a, b) || NoLater(b, a)
  {
    LexTotal(Sorted(a), Sorted(b));
    if Sorted(a) == Sorted(b) {
      SortedIsInjective(a, b);
    }
  }

  lemma NoLaterOrders()
    ensures TotalPreorder(NoLater)
  {
    forall a: set<string>, b: set<string> ensures NoLater(a, b) || NoLater(b, a) {
      NoLaterTotal(a, b);
    }
    forall a: set<string>, b: set<string>, c: set<string> | NoLater(a, b) && NoLater(b, c) ensures NoLater(a, c) {
      if a != b && b != c {
        LexTransitive(Sorted(a), Sorted(b), Sorted(c));
      }
    }
  }

  lemma SortKeeps<T(!new)>(before: seq<T>, after: seq<T>)
    requires multiset(before) == multiset(after) && NoDuplicates(before)
    ensures NoDuplicates(after) && forall c :: c in after <==> c in before
  {
    forall c ensures c in after <==> c in before {
      assert c in multiset(after) <==> c in multiset(before);
    }
    DistinctCountsOnce(before);
    forall i, j | 0 <= i < j < |after| ensures after[i] != after[j] {
      if after[i] == after[j] {
        RepeatedCountsTwice(after, i, j);
      }
    }
  }

  // ---- canonical_cycles ----

  /** The component of a claim on a cycle. */
  ghost predicate IsCyclic(g: Graph, c: set<string>) {
    IsComponent(g, c) && forall n :: n in c ==> ReachesPlus(g, n, n)
  }

  /** The test for a cycle: a second member, or the only member among its own successors. */
  predicate LooksCyclic(g: Graph, c: set<string>) {
    |c| > 1 || exists n | n in c :: n in Succ(g, n)
  }

  lemma CyclicTest(g: Graph, c: set<string>)
    requires Valid(g) && IsComponent(g, c)
    ensures LooksCyclic(g, c) <==> IsCyclic(g, c)
    ensures c != {}
  {
    var some :| some in g.nodes && c == Component(g, some);
    ComponentHolds(g, some);
    forall n | n in c ensures ReachesPlus(g, n, n) <==> |c| > 1 || n in Succ(g, n) {
      ComponentIs(g, c, n);
      OnCycle(g, n);
    }
    if |c| <= 1 {
      SubsetSize({some}, c);
      OnlyMember(c, some);
    }
  }

  lemma OnlyMember(c: set<string>, n: string)
    requires |c| <= 1 && n in c
    ensures c == {n}
  {
    assert |c - {n}| == 0;
    assert c == (c - {n}) + {n};
  }

  ghost predicate Listed(g: Graph, found: seq<set<string>>, raw: seq<set<string>>) {
    NoDuplicates(found) && forall c :: c in found <==> c in raw && IsCyclic(g, c)
  }

  lemma FindOne(g: Graph, found: seq<set<string>>, raw: seq<set<string>>, c: set<string>)
    requires Listed(g, found, raw) && c !in raw
    ensures Listed(g, if IsCyclic(g, c) then found + [c] else found, raw + [c])
  {
  }

  /** Every dependency cycle's component once, in order of their sorted members; none exactly on acyclic graphs. */
  method CyclicComponents(g: Graph) returns (cycles: seq<set<string>>)
    requires Valid(g)
    ensures forall c :: c in cycles <==> IsCyclic(g, c)
    ensures SortedBy(NoLater, cycles) && NoDuplicates(cycles)
    ensures forall n :: ReachesPlus(g, n, n) <==> exists c :: c in cycles && n in c
    ensures cycles == [] <==> Acyclic(g)
  {
    var raw := ListComponents(g);
    var found: seq<set<string>> := [];
    for i := 0 to |raw|
      invariant Listed(g, found, raw[..i])
    {
      CyclicTest(g, raw[i]);
      assert raw[..i + 1] == raw[..i] + [raw[i]];
      FindOne(g, found, raw[..i], raw[i]);
      if LooksCyclic(g, raw[i]) {
        found := found + [raw[i]];
      }
    }
    assert raw[..|raw|] == raw;
    NoLaterOrders();
    cycles := Sort(NoLater, found);
    SortKeeps(found, cycles);
    forall c | IsCyclic(g, c) ensures c in cycles {
      var n :| n in g.nodes && c == Component(g, n);
    }
    CyclesAreComplete(g, cycles);
  }

  /** The same as tuples of sorted names. */
  method CanonicalCycles(g: Graph) returns (tuples: seq<seq<string>>)
    requires Valid(g)
    ensures forall q :: q in tuples <==> exists c :: IsCyclic(g, c) && q == Sorted(c)
    ensures forall i, j :: 0 <= i < j < |tuples| ==> LexLess(tuples[i], tuples[j])
    ensures tuples == [] <==> Acyclic(g)
  {
    var cycles := CyclicComponents(g);
    tuples := seq(|cycles|, i requires 0 <= i < |cycles| => Sorted(cycles[i]));
    forall i, j | 0 <= i < j < |tuples| ensures LexLess(tuples[i], tuples[j]) {
      assert NoLater(cycles[i], cycles[j]) && cycles[i] != cycles[j];
    }
    TuplesMatch(g, cycles, tuples);
  }

  lemma TuplesMatch(g: Graph, cycles: seq<set<string>>, tuples: seq<seq<string>>)
    requires forall c :: c in cycles <==> IsCyclic(g, c)
    requires |tuples| == |cycles| && forall i :: 0 <= i < |tuples| ==> tuples[i] == Sorted(cycles[i])
    ensures forall q :: q in tuples <==> exists c :: IsCyclic(g, c) && q == Sorted(c)
  {
    forall q | q in tuples ensures exists c :: IsCyclic(g, c) && q == Sorted(c) {
      var i :| 0 <= i < |tuples| && tuples[i] == q;
      assert cycles[i] in cycles;
    }
    forall c | IsCyclic(g, c) ensures Sorted(c) in tuples {
      var i :| 0 <= i < |cycles| && cycles[i] == c;
      assert tuples[i] == Sorted(c);
    }
  }

  lemma CyclesAreComplete(g: Graph, cycles: seq<set<string>>)
    requires Valid(g) && forall c :: c in cycles <==> IsCyclic(g, c)
    ensures forall n :: ReachesPlus(g, n, n) <==> exists c :: c in cycles && n in c
    ensures cycles == [] <==> Acyclic(g)
  {
    forall n | ReachesPlus(g, n, n) ensures exists c :: c in cycles && n in c {
      var c := Component(g, n);
      ComponentHolds(g, n);
      CyclicTest(g, c);
      OnCycle(g, n);
      assert LooksCyclic(g, c);
    }
    forall c | c in cycles ensures exists n :: n in c && ReachesPlus(g, n, n) {
      CyclicTest(g, c);
    }
    if cycles != [] {
      assert cycles[0] in cycles;
    }
  }

  // ---- _components ----

  datatype FailureComponent =
    FailureComponent(members: seq<string>, cyclic: bool, blocker: bool, incidents: seq<int>)

  type Link = (nat, nat)

  /** The condensed graph; a component's id is its position. */
  datatype Condensed =
    Condensed(components: seq<FailureComponent>, componentFor: map<string, nat>, edges: seq<Link>)

  predicate NumberAtMost(a: int, b: int) {
    a <= b
  }

  predicate LinkAtMost(a: Link, b: Link) {
    a.0 < b.0 || (a.0 == b.0 && a.1 <= b.1)
  }

  /** `q` is Python's `sorted(s)`. */
  ghost predicate IsSorted<T(!new)>(atMost: (T, T) -> bool, s: set<T>, q: seq<T>) {
    SortedBy(atMost, q) && NoDuplicates(q) && forall x :: x in q <==> x in s
  }

  method SortSet<T(!new, ==)>(atMost: (T, T) -> bool, s: set<T>) returns (q: seq<T>)
    requires TotalPreorder(atMost)
    ensures IsSorted(atMost, s, q)
  {
    var items, rest := [], s;
    while rest != {}
      invariant NoDuplicates(items) && rest <= s
      invariant forall x :: x in items <==> x in s - rest
    {
      var x :| x in rest;
      assert x !in items;
      items, rest := items + [x], rest - {x};
    }
    q := Sort(atMost, items);
    SortKeeps(items, q);
  }

  ghost predicate Ascends(q: seq<int>) {
    forall i, j :: 0 <= i < j < |q| ==> q[i] < q[j]
  }

  ghost predicate LinksAscend(q: seq<Link>) {
    forall i, j :: 0 <= i < j < |q| ==> q[i].0 < q[j].0 || (q[i].0 == q[j].0 && q[i].1 < q[j].1)
  }

  ghost predicate MembersAscend(components: seq<FailureComponent>) {
    forall i, j :: 0 <= i < j < |components| ==> LexLess(components[i].members, components[j].members)
  }

  ghost function IncidentsOf(incidents: map<string, seq<int>>, c: set<string>): set<int> {
    set m, id | m in c && m in incidents && id in incidents[m] :: id
  }

  ghost predicate Positions(g: Graph, raw: seq<set<string>>, table: map<string, nat>) {
    table.Keys == g.nodes && forall n :: n in table ==> table[n] < |raw| && raw[table[n]] == Component(g, n)
  }

  ghost predicate Describes(g: Graph, incidents: map<string, seq<int>>, blockers: set<string>,
                            c: set<string>, d: FailureComponent) {
    && d.members == Sorted(c)
    && (d.cyclic <==> IsCyclic(g, c))
    && (d.blocker <==> c * blockers != {})
    && IsSorted(NumberAtMost, IncidentsOf(incidents, c), d.incidents) && Ascends(d.incidents)
  }

  ghost predicate Description(g: Graph, incidents: map<string, seq<int>>, blockers: set<string>,
                              raw: seq<set<string>>, components: seq<FailureComponent>) {
    |components| == |raw| && forall i :: 0 <= i < |raw| ==> Describes(g, incidents, blockers, raw[i], components[i])
  }

  /** Some edge leads from one component to another. */
  ghost predicate Crosses(g: Graph, table: map<string, nat>, link: Link) {
    link.0 != link.1 &&
    exists a, b :: a in table && b in table && b in Succ(g, a) && table[a] == link.0 && table[b] == link.1
  }

  ghost predicate LinksExact(g: Graph, table: map<string, nat>, edges: set<Link>) {
    forall link :: link in edges <==> Crosses(g, table, link)
  }

  ghost predicate IsCondensed(g: Graph, raw: seq<set<string>>, table: map<string, nat>, edges: set<Link>) {
    Lists(g, raw, {}) && Positions(g, raw, table) && LinksExact(g, table, edges)
  }

  method Describe(g: Graph, incidents: map<string, seq<int>>, blockers: set<string>, c: set<string>)
    returns (d: FailureComponent)
    requires Valid(g) && IsComponent(g, c)
    ensures Describes(g, incidents, blockers, c, d)
  {
    CyclicTest(g, c);
    var found := set m, id | m in c && m in incidents && id in incidents[m] :: id;
    var listed := SortSet(NumberAtMost, found);
    forall i, j | 0 <= i < j < |listed| ensures listed[i] < listed[j] {
      assert NumberAtMost(listed[i], listed[j]);
    }
    d := FailureComponent(Sorted(c), LooksCyclic(g, c), c * blockers != {}, listed);
  }

  ghost predicate Tabulated(raw: seq<set<string>>, table: map<string, nat>) {
    && (forall n :: n in table ==> table[n] < |raw| && n in raw[table[n]])
    && (forall c, n :: c in raw && n in c ==> n in table)
  }

  function Placed(table: map<string, nat>, c: set<string>, i: nat): map<string, nat> {
    table + map m | m in c :: i
  }

  lemma TabulateOne(raw: seq<set<string>>, table: map<string, nat>, c: set<string>)
    requires Tabulated(raw, table)
    ensures Tabulated(raw + [c], Placed(table, c, |raw|))
  {
  }

  lemma DescribeOne(g: Graph, incidents: map<string, seq<int>>, blockers: set<string>,
                    raw: seq<set<string>>, components: seq<FailureComponent>, c: set<string>, d: FailureComponent)
    requires Description(g, incidents, blockers, raw, components) && Describes(g, incidents, blockers, c, d)
    ensures Description(g, incidents, blockers, raw + [c], components + [d])
  {
  }

  /** The loop over the components. */
  method Tabulate(g: Graph, incidents: map<string, seq<int>>, blockers: set<string>, ordered: seq<set<string>>)
    returns (components: seq<FailureComponent>, table: map<string, nat>)
    requires Valid(g) && forall c :: c in ordered ==> IsComponent(g, c)
    ensures Tabulated(ordered, table) && Description(g, incidents, blockers, ordered, components)
  {
    table, components := map[], [];
    for i := 0 to |ordered|
      invariant Tabulated(ordered[..i], table) && Description(g, incidents, blockers, ordered[..i], components)
    {
      assert ordered[..i + 1] == ordered[..i] + [ordered[i]];
      var d := Describe(g, incidents, blockers, ordered[i]);
      TabulateOne(ordered[..i], table, ordered[i]);
      DescribeOne(g, incidents, blockers, ordered[..i], components, ordered[i], d);
      components, table := components + [d], Placed(table, ordered[i], i);
    }
    assert ordered[..|ordered|] == ordered;
  }

  method SortedComponents(g: Graph) returns (ordered: seq<set<string>>)
    requires Valid(g)
    ensures Lists(g, ordered, {}) && SortedBy(NoLater, ordered)
  {
    var listed := ListComponents(g);
    NoLaterOrders();
    ordered := Sort(NoLater, listed);
    SortKeeps(listed, ordered);
  }

  function Links(g: Graph, table: map<string, nat>): (edges: set<Link>)
    ensures LinksExact(g, table, edges)
  {
    set a, b | a in table && b in Succ(g, a) && b in table && table[a] != table[b] :: (table[a], table[b])
  }

  /** `raw` tells the proof which set of claims stands behind each component. */
  method BuildComponents(g: Graph, incidents: map<string, seq<int>>, blockers: set<string>)
    returns (r: Condensed, ghost raw: seq<set<string>>)
    requires Valid(g)
    ensures exists edges :: IsCondensed(g, raw, r.componentFor, edges) && IsSorted(LinkAtMost, edges, r.edges)
    ensures Description(g, incidents, blockers, raw, r.components)
    ensures MembersAscend(r.components) && LinksAscend(r.edges)
  {
    var ordered := SortedComponents(g);
    var components, table := Tabulate(g, incidents, blockers, ordered);
    TableIsExact(g, ordered, table);
    raw := ordered;
    var links := SortSet(LinkAtMost, Links(g, table));
    r := Condensed(components, table, links);
    SortedLinksAscend(Links(g, table), links);
    SortedMembersAscend(g, incidents, blockers, raw, components);
  }

  lemma SortedLinksAscend(edges: set<Link>, q: seq<Link>)
    requires IsSorted(LinkAtMost, edges, q)
    ensures LinksAscend(q)
  {
    forall i, j | 0 <= i < j < |q| ensures q[i].0 < q[j].0 || (q[i].0 == q[j].0 && q[i].1 < q[j].1) {
      assert LinkAtMost(q[i], q[j]) && q[i] != q[j];
    }
  }

  lemma SortedMembersAscend(g: Graph, incidents: map<string, seq<int>>, blockers: set<string>,
                            raw: seq<set<string>>, components: seq<FailureComponent>)
    requires SortedBy(NoLater, raw) && NoDuplicates(raw) && Description(g, incidents, blockers, raw, components)
    ensures MembersAscend(components)
  {
    forall i, j | 0 <= i < j < |components| ensures LexLess(components[i].members, components[j].members) {
      assert NoLater(raw[i], raw[j]) && raw[i] != raw[j];
      assert Describes(g, incidents, blockers, raw[i], components[i]);
    }
  }

  lemma TableIsExact(g: Graph, raw: seq<set<string>>, table: map<string, nat>)
    requires Lists(g, raw, {}) && Tabulated(raw, table)
    ensures Positions(g, raw, table)
  {
    forall n | n in table ensures n in g.nodes && raw[table[n]] == Component(g, n) {
      ComponentIs(g, raw[table[n]], n);
    }
    forall n | n in g.nodes ensures n in table {
      ComponentHolds(g, n);
      assert Component(g, n) in raw;
    }
  }

  // ---- What the condensed graph keeps ----

  lemma SamePosition(g: Graph, raw: seq<set<string>>, table: map<string, nat>, a: string, b: string)
    requires Lists(g, raw, {}) && Positions(g, raw, table) && a in g.nodes && b in g.nodes
    ensures table[a] == table[b] <==> Mutual(g, a, b)
  {
    MembersShare(g, a, b);
    assert Component(g, a) == Component(g, b) ==> table[a] == table[b];
  }

  ghost predicate IsChain(edges: set<Link>, p: seq<nat>) {
    p != [] && forall k :: 0 < k < |p| ==> (p[k - 1], p[k]) in edges
  }

  ghost predicate Joins(edges: set<Link>, p: seq<nat>, i: nat, j: nat) {
    IsChain(edges, p) && p[0] == i && p[|p| - 1] == j
  }

  ghost predicate Linked(edges: set<Link>, i: nat, j: nat) {
    exists p :: Joins(edges, p, i, j)
  }

  /** A chain of component edges is realised by a path between any members of its ends. */
  lemma {:induction false} ChainIsPath(g: Graph, raw: seq<set<string>>, table: map<string, nat>, edges: set<Link>,
                                       p: seq<nat>, a: string, b: string)
    requires IsCondensed(g, raw, table, edges) && a in table && b in table
    requires Joins(edges, p, table[a], table[b])
    ensures Reaches(g, a, b)
    decreases |p|
  {
    if |p| == 1 {
      SamePosition(g, raw, table, a, b);
    } else {
      var k := |p| - 1;
      assert (p[k - 1], p[k]) in edges && Crosses(g, table, (p[k - 1], p[k]));
      var c, d :| c in table && d in table && d in Succ(g, c) && table[c] == p[k - 1] && table[d] == p[k];
      ChainIsPath(g, raw, table, edges, p[..k], a, c);
      SamePosition(g, raw, table, d, b);
      ReachesStep(g, a, c, d);
      ReachesJoin(g, a, d, b);
    }
  }

  lemma ChainExtends(edges: set<Link>, p: seq<nat>, i: nat, j: nat, k: nat)
    requires Joins(edges, p, i, j) && (j, k) in edges
    ensures Joins(edges, p + [k], i, k)
  {
  }

  lemma {:induction false} PathIsChain(g: Graph, raw: seq<set<string>>, table: map<string, nat>, edges: set<Link>,
                                       q: seq<string>)
    requires Valid(g) && IsCondensed(g, raw, table, edges) && IsPath(g, q) && q[0] in table
    ensures q[|q| - 1] in table && Linked(edges, table[q[0]], table[q[|q| - 1]])
    decreases |q|
  {
    if |q| == 1 {
      assert Joins(edges, [table[q[0]]], table[q[0]], table[q[0]]);
    } else {
      var k := |q| - 1;
      PathIsChain(g, raw, table, edges, q[..k]);
      var front :| Joins(edges, front, table[q[0]], table[q[k - 1]]);
      assert q[k] in Succ(g, q[k - 1]);
      if table[q[k - 1]] != table[q[k]] {
        assert Crosses(g, table, (table[q[k - 1]], table[q[k]]));
        ChainExtends(edges, front, table[q[0]], table[q[k - 1]], table[q[k]]);
      }
    }
  }

  /** The condensed graph reaches exactly what the claim graph reaches. */
  lemma CondensedReaches(g: Graph, raw: seq<set<string>>, table: map<string, nat>, edges: set<Link>, a: string, b: string)
    requires Valid(g) && IsCondensed(g, raw, table, edges) && a in g.nodes && b in g.nodes
    ensures Reaches(g, a, b) <==> Linked(edges, table[a], table[b])
  {
    if Reaches(g, a, b) {
      var q :| PathBetween(g, q, a, b);
      PathIsChain(g, raw, table, edges, q);
    }
    if Linked(edges, table[a], table[b]) {
      var p :| Joins(edges, p, table[a], table[b]);
      ChainIsPath(g, raw, table, edges, p, a, b);
    }
  }

  /** The condensed graph has no cycles. */
  lemma CondensedIsAcyclic(g: Graph, raw: seq<set<string>>, table: map<string, nat>, edges: set<Link>, p: seq<nat>)
    requires Valid(g) && IsCondensed(g, raw, table, edges) && IsChain(edges, p) && |p| > 1
    ensures p[0] != p[|p| - 1]
  {
    assert (p[0], p[1]) in edges && Crosses(g, table, (p[0], p[1]));
    var a, b :| a in table && b in table && b in Succ(g, a) && table[a] == p[0] && table[b] == p[1];
    ReachesSelf(g, a);
    ReachesStep(g, a, a, b);
    SamePosition(g, raw, table, a, b);
    if p[0] == p[|p| - 1] {
      ChainIsPath(g, raw, table, edges, p[1..], b, a);
    }
  }
}
