/**
 `_outline` of `incremental/failures.py`: a tree over a shared, possibly cyclic dependency graph,
 built with an explicit stack.
 */
module FailureOutline {
  import opened Options
  import opened Ordering
  import opened Reachability

  datatype ClaimNode = ClaimNode(state: string, incidents: seq<int>)

  datatype Incident = Incident(id: int, scope: string, kind: string, claims: seq<string>)

  datatype Label = ClaimLabel(claim: string) | IncidentLabel(id: int)

  /** A claim is expanded at its first visit; every later occurrence is a childless shared reference. */
  datatype Outline = Outline(name: Label, state: string, blocker: bool, incidents: seq<int>, shared: bool,
                             children: seq<Outline>)

  /** What the outline reads: the claim graph, its node table, and the two display sets. */
  datatype Report = Report(graph: Graph, nodes: map<string, ClaimNode>, blockers: set<string>, affected: set<string>)

  ghost predicate WellFormed(rep: Report) {
    Valid(rep.graph) && rep.nodes.Keys == rep.graph.nodes
  }

  function DisplayState(rep: Report, claim: string): string
    requires claim in rep.nodes
  {
    if && claim in rep.affected && claim !in rep.blockers
       && rep.nodes[claim].state == "FAILED_TECHNICAL" then "BLOCKED_BY_GLOBAL_INCIDENT"
    else rep.nodes[claim].state
  }

  function Entry(rep: Report, claim: string, shared: bool, children: seq<Outline>): Outline
    requires claim in rep.nodes
  {
    Outline(ClaimLabel(claim), DisplayState(rep, claim), claim in rep.blockers, rep.nodes[claim].incidents,
            shared, children)
  }

  // ---- The recursive build ----

  function Visit(rep: Report, claim: string, expanded: set<string>): (r: (Outline, set<string>))
    requires WellFormed(rep) && claim in rep.nodes
    ensures expanded <= r.1
    decreases rep.nodes.Keys - expanded, 0
  {
    if claim in expanded then (Entry(rep, claim, true, []), expanded)
    else
      var (children, after) := VisitAll(rep, Sorted(Succ(rep.graph, claim)), expanded + {claim});
      (Entry(rep, claim, false, children), after)
  }

  function VisitAll(rep: Report, claims: seq<string>, expanded: set<string>): (r: (seq<Outline>, set<string>))
    requires WellFormed(rep) && forall c :: c in claims ==> c in rep.nodes
    ensures expanded <= r.1
    decreases rep.nodes.Keys - expanded, 1 + |claims|
  {
    if claims == [] then ([], expanded)
    else
      var (first, middle) := Visit(rep, claims[0], expanded);
      var (rest, after) := VisitAll(rep, claims[1..], middle);
      ([first] + rest, after)
  }

  lemma {:induction false} VisitAllSplits(rep: Report, a: seq<string>, b: seq<string>, expanded: set<string>)
    requires WellFormed(rep) && forall c :: c in a + b ==> c in rep.nodes
    ensures forall c :: (c in a ==> c in rep.nodes) && (c in b ==> c in rep.nodes)
    ensures var first := VisitAll(rep, a, expanded);
            var second := VisitAll(rep, b, first.1);
            VisitAll(rep, a + b, expanded) == (first.0 + second.0, second.1)
    decreases |a|
  {
    assert forall c :: c in a + b <==> c in a || c in b;
    if a == [] {
      assert a + b == b;
      var none: seq<Outline> := [];
      assert none + VisitAll(rep, b, expanded).0 == VisitAll(rep, b, expanded).0;
    } else {
      assert (a + b)[1..] == a[1..] + b;
      assert (a + b)[0] == a[0];
      var (x, middle) := Visit(rep, a[0], expanded);
      VisitAllSplits(rep, a[1..], b, middle);
      var first := VisitAll(rep, a[1..], middle);
      var second := VisitAll(rep, b, first.1);
      assert [x] + (first.0 + second.0) == [x] + first.0 + second.0;
    }
  }

  // ---- The explicit stack ----

  datatype Frame = Frame(claim: string, children: seq<string>, next: nat, built: seq<Outline>)

  ghost predicate GoodStack(rep: Report, stack: seq<Frame>) {
    && WellFormed(rep)
    && forall f :: f in stack ==> GoodFrame(rep, f)
  }

  ghost predicate GoodFrame(rep: Report, f: Frame) {
    f.claim in rep.nodes && f.next <= |f.children| && forall c :: c in f.children ==> c in rep.nodes
  }

  /** What the loop will return from here: finish the top frame, hand it down, go on. */
  ghost function Resume(rep: Report, stack: seq<Frame>, expanded: set<string>): (Outline, set<string>)
    requires stack != [] && GoodStack(rep, stack)
    decreases |stack|
  {
    var k := |stack| - 1;
    var top := stack[k];
    assert GoodFrame(rep, top);
    var (rest, after) := VisitAll(rep, top.children[top.next..], expanded);
    Finish(rep, stack, Entry(rep, top.claim, false, top.built + rest), after)
  }

  ghost function Finish(rep: Report, stack: seq<Frame>, done: Outline, expanded: set<string>): (Outline, set<string>)
    requires stack != [] && GoodStack(rep, stack)
    decreases |stack|, 0
  {
    var k := |stack| - 1;
    if k == 0 then (done, expanded)
    else
      var below := stack[k - 1];
      assert GoodFrame(rep, below);
      var lower := stack[..k - 1] + [below.(built := below.built + [done])];
      assert GoodStack(rep, lower);
      Resume(rep, lower, expanded)
  }

  ghost function Pending(stack: seq<Frame>): nat {
    if stack == [] then 0
    else
      var top := stack[|stack| - 1];
      Pending(stack[..|stack| - 1]) + 1 + if top.next <= |top.children| then |top.children| - top.next else 0
  }

  lemma TopChanges(rep: Report, stack: seq<Frame>, top: Frame, moved: Frame)
    requires GoodStack(rep, stack + [top]) && GoodFrame(rep, moved)
    ensures GoodStack(rep, stack + [moved])
  {
    assert forall f :: f in stack ==> f in stack + [top];
  }

  lemma FinishIgnoresTop(rep: Report, stack: seq<Frame>, a: Frame, b: Frame, done: Outline, expanded: set<string>)
    requires GoodStack(rep, stack + [a]) && GoodStack(rep, stack + [b])
    ensures Finish(rep, stack + [a], done, expanded) == Finish(rep, stack + [b], done, expanded)
  {
    if stack != [] {
      var k := |stack|;
      assert (stack + [a])[..k - 1] == stack[..k - 1] == (stack + [b])[..k - 1];
    }
  }

  lemma FinishHandsDown(rep: Report, stack: seq<Frame>, below: Frame, top: Frame, done: Outline, expanded: set<string>)
    requires GoodStack(rep, stack + [below] + [top])
    ensures var resumed := below.(built := below.built + [done]);
            && GoodStack(rep, stack + [resumed])
            && Finish(rep, stack + [below] + [top], done, expanded) == Resume(rep, stack + [resumed], expanded)
  {
    var whole := stack + [below] + [top];
    assert below in whole && GoodFrame(rep, below);
    assert forall f :: f in stack ==> f in whole;
    assert whole[..|stack|] == stack && whole[|stack|] == below;
  }

  lemma ResumeFinishes(rep: Report, stack: seq<Frame>, top: Frame, expanded: set<string>)
    requires GoodStack(rep, stack + [top])
    ensures GoodFrame(rep, top)
    ensures var (rest, after) := VisitAll(rep, top.children[top.next..], expanded);
            Resume(rep, stack + [top], expanded) ==
            Finish(rep, stack + [top], Entry(rep, top.claim, false, top.built + rest), after)
  {
    assert top in stack + [top] && GoodFrame(rep, top);
  }

  lemma GoodPush(rep: Report, stack: seq<Frame>, child: string)
    requires GoodStack(rep, stack) && child in rep.nodes
    ensures GoodStack(rep, stack + [Frame(child, Sorted(Succ(rep.graph, child)), 0, [])])
  {
    assert GoodFrame(rep, Frame(child, Sorted(Succ(rep.graph, child)), 0, []));
  }

  /** A pushed frame, once finished, hands its claim's outline to the frame below. */
  lemma ResumePushed(rep: Report, stack: seq<Frame>, below: Frame, child: string, expanded: set<string>)
    requires GoodStack(rep, stack + [below]) && child in rep.nodes && child !in expanded
    ensures GoodFrame(rep, below)
    ensures var pushed := Frame(child, Sorted(Succ(rep.graph, child)), 0, []);
            var (done, middle) := Visit(rep, child, expanded);
            var resumed := below.(built := below.built + [done]);
            && GoodStack(rep, stack + [below] + [pushed])
            && GoodStack(rep, stack + [resumed])
            && Resume(rep, stack + [below] + [pushed], expanded + {child}) == Resume(rep, stack + [resumed], middle)
  {
    assert below in stack + [below] && GoodFrame(rep, below);
    var pushed := Frame(child, Sorted(Succ(rep.graph, child)), 0, []);
    GoodPush(rep, stack + [below], child);
    ResumeFinishes(rep, stack + [below], pushed, expanded + {child});
    assert pushed.children[pushed.next..] == pushed.children;
    var (rest, after) := VisitAll(rep, pushed.children, expanded + {child});
    assert pushed.built + rest == rest;
    FinishHandsDown(rep, stack, below, pushed, Entry(rep, child, false, rest), after);
  }

  /** Taking a finished child into the top frame is what the recursion does with it. */
  lemma ResumeTakes(rep: Report, stack: seq<Frame>, top: Frame, expanded: set<string>)
    requires GoodStack(rep, stack + [top]) && top.next < |top.children|
    ensures GoodFrame(rep, top)
    ensures var (done, middle) := Visit(rep, top.children[top.next], expanded);
            var taken := top.(next := top.next + 1, built := top.built + [done]);
            && GoodStack(rep, stack + [taken])
            && Resume(rep, stack + [taken], middle) == Resume(rep, stack + [top], expanded)
  {
    assert top in stack + [top] && GoodFrame(rep, top);
    var (done, middle) := Visit(rep, top.children[top.next], expanded);
    var taken := top.(next := top.next + 1, built := top.built + [done]);
    TopChanges(rep, stack, top, taken);
    var (rest, after) := VisitAll(rep, top.children[top.next + 1..], middle);
    assert top.children[top.next..][1..] == top.children[top.next + 1..];
    assert VisitAll(rep, top.children[top.next..], expanded) == ([done] + rest, after);
    assert taken.built + rest == top.built + ([done] + rest);
    FinishIgnoresTop(rep, stack, top, taken, Entry(rep, top.claim, false, top.built + ([done] + rest)), after);
  }

  /** A new claim: push its frame; the top frame waits for the finished child. */
  lemma ResumePush(rep: Report, stack: seq<Frame>, top: Frame, expanded: set<string>)
    requires GoodStack(rep, stack + [top]) && top.next < |top.children| && top.children[top.next] !in expanded
    ensures GoodFrame(rep, top)
    ensures var child := top.children[top.next];
            var moved := top.(next := top.next + 1);
            var pushed := Frame(child, Sorted(Succ(rep.graph, child)), 0, []);
            && GoodStack(rep, stack + [moved, pushed])
            && Resume(rep, stack + [moved, pushed], expanded + {child}) == Resume(rep, stack + [top], expanded)
  {
    assert top in stack + [top] && GoodFrame(rep, top);
    var child := top.children[top.next];
    var moved := top.(next := top.next + 1);
    var pushed := Frame(child, Sorted(Succ(rep.graph, child)), 0, []);
    TopChanges(rep, stack, top, moved);
    assert stack + [moved, pushed] == stack + [moved] + [pushed];
    ResumePushed(rep, stack, moved, child, expanded);
    ResumeTakes(rep, stack, top, expanded);
  }

  /** A frame without further children is finished with what it has built. */
  lemma ResumePop(rep: Report, stack: seq<Frame>, top: Frame, expanded: set<string>)
    requires GoodStack(rep, stack + [top]) && top.next == |top.children|
    ensures GoodFrame(rep, top)
    ensures Resume(rep, stack + [top], expanded) ==
            Finish(rep, stack + [top], Entry(rep, top.claim, false, top.built), expanded)
  {
    assert top in stack + [top] && GoodFrame(rep, top);
    assert top.children[top.next..] == [];
    var none: seq<Outline> := [];
    assert top.built + none == top.built;
  }

  /** One turn of the loop: a shared child, a new child, or a finished frame. */
  method Turn(rep: Report, stack: seq<Frame>, expanded: set<string>)
    returns (next: seq<Frame>, after: set<string>, result: Option<Outline>)
    requires stack != [] && GoodStack(rep, stack) && expanded <= rep.nodes.Keys
    ensures expanded <= after <= rep.nodes.Keys
    ensures result.None? ==>
              && next != [] && GoodStack(rep, next)
              && Resume(rep, next, after) == Resume(rep, stack, expanded)
              && (after == expanded ==> Pending(next) < Pending(stack))
    ensures result.Some? ==> Resume(rep, stack, expanded) == (result.value, after)
  {
    var k := |stack| - 1;
    var top := stack[k];
    var under := stack[..k];
    assert stack == under + [top] && GoodFrame(rep, top);
    result, after := None, expanded;
    if top.next < |top.children| {
      var child := top.children[top.next];
      if child in expanded {
        next := under + [top.(next := top.next + 1, built := top.built + [Entry(rep, child, true, [])])];
        ResumeTakes(rep, under, top, expanded);
        PendingMoves(under, top, next[k]);
      } else {
        next := under + [top.(next := top.next + 1), Frame(child, Sorted(Succ(rep.graph, child)), 0, [])];
        after := expanded + {child};
        ResumePush(rep, under, top, expanded);
      }
    } else {
      var done := Entry(rep, top.claim, false, top.built);
      ResumePop(rep, under, top, expanded);
      if k == 0 {
        next, result := [], Some(done);
      } else {
        var below := stack[k - 1];
        next := stack[..k - 1] + [below.(built := below.built + [done])];
        assert GoodFrame(rep, below);
        assert stack[..k - 1] == under[..k - 1];
        PendingPops(under, top, next[k - 1]);
      }
    }
  }

  /** `visit`, for a claim that may already be expanded. */
  method VisitClaim(rep: Report, claim: string, expanded: set<string>)
    returns (node: Outline, after: set<string>)
    requires WellFormed(rep) && claim in rep.nodes && expanded <= rep.nodes.Keys
    ensures (node, after) == Visit(rep, claim, expanded) && after <= rep.nodes.Keys
  {
    if claim in expanded {
      return Entry(rep, claim, true, []), expanded;
    }
    after := expanded + {claim};
    var stack := [Frame(claim, Sorted(Succ(rep.graph, claim)), 0, [])];
    StartStack(rep, claim, expanded);
    var result: Option<Outline> := None;
    while result.None?
      invariant after <= rep.nodes.Keys
      invariant result.None? ==> stack != [] && GoodStack(rep, stack)
                                 && Resume(rep, stack, after) == Visit(rep, claim, expanded)
      invariant result.Some? ==> (result.value, after) == Visit(rep, claim, expanded)
      decreases result.None?, rep.nodes.Keys - after, Pending(stack)
    {
      stack, after, result := Turn(rep, stack, after);
    }
    node := result.value;
  }

  lemma StartStack(rep: Report, claim: string, expanded: set<string>)
    requires WellFormed(rep) && claim in rep.nodes && claim !in expanded
    ensures var stack := [Frame(claim, Sorted(Succ(rep.graph, claim)), 0, [])];
            && GoodStack(rep, stack)
            && Resume(rep, stack, expanded + {claim}) == Visit(rep, claim, expanded)
  {
    var first := Frame(claim, Sorted(Succ(rep.graph, claim)), 0, []);
    assert first.children[0..] == first.children;
    var rest := VisitAll(rep, first.children, expanded + {claim}).0;
    assert first.built + rest == rest;
  }

  lemma PendingMoves(under: seq<Frame>, top: Frame, moved: Frame)
    requires top.next < |top.children| && moved.children == top.children && moved.next == top.next + 1
    ensures Pending(under + [moved]) < Pending(under + [top])
  {
    assert (under + [moved])[..|under|] == under == (under + [top])[..|under|];
  }

  lemma PendingPops(under: seq<Frame>, top: Frame, below: Frame)
    requires under != [] && below.children == under[|under| - 1].children && below.next == under[|under| - 1].next
    ensures Pending(under[..|under| - 1] + [below]) < Pending(under + [top])
  {
    assert (under + [top])[..|under|] == under;
    assert (under[..|under| - 1] + [below])[..|under| - 1] == under[..|under| - 1];
  }

  // ---- What the outline shows ----

  /** Claims in the order of their expansion (preorder), shared references left out. */
  ghost function ExpandedIn(o: Outline): seq<string>
    decreases o
  {
    if o.shared then [] else (if o.name.ClaimLabel? then [o.name.claim] else []) + ExpandedInAll(o.children)
  }

  ghost function ExpandedInAll(os: seq<Outline>): seq<string>
    decreases os
  {
    if os == [] then [] else ExpandedIn(os[0]) + ExpandedInAll(os[1..])
  }

  /**
   Every entry is a claim's own row; a shared one has no children, an expanded one has exactly
   its dependencies below it, in sorted order.
   */
  ghost predicate Shaped(rep: Report, o: Outline)
    requires WellFormed(rep)
    decreases o
  {
    && o.name.ClaimLabel? && o.name.claim in rep.nodes
    && o == Entry(rep, o.name.claim, o.shared, o.children)
    && (if o.shared then o.children == []
        else ShapedAll(rep, o.children, Sorted(Succ(rep.graph, o.name.claim))))
  }

  ghost predicate ShapedAll(rep: Report, os: seq<Outline>, claims: seq<string>)
    requires WellFormed(rep)
    decreases os
  {
    && |os| == |claims|
    && forall i :: 0 <= i < |os| ==> Shaped(rep, os[i]) && os[i].name == ClaimLabel(claims[i])
  }

  /** What one visit adds to the expanded set, and how. */
  ghost predicate Adds(rep: Report, roots: seq<string>, shown: seq<string>, before: set<string>, after: set<string>) {
    && before <= after
    && multiset(shown) == multiset(after - before)
    && (forall r :: r in roots ==> r in after)
    && (forall x :: x in after - before ==> Succ(rep.graph, x) <= after)
    && (forall x :: x in after - before ==> ReachedFrom(rep, roots, x))
  }

  ghost predicate ReachedFrom(rep: Report, roots: seq<string>, x: string) {
    exists r :: r in roots && Reaches(rep.graph, r, x)
  }

  /** `os` is how the visits of `claims` show up in the outline. */
  ghost predicate Shows(rep: Report, claims: seq<string>, os: seq<Outline>, before: set<string>, after: set<string>)
    requires WellFormed(rep)
  {
    ShapedAll(rep, os, claims) && Adds(rep, claims, ExpandedInAll(os), before, after)
  }

  lemma {:induction false} VisitFacts(rep: Report, claim: string, expanded: set<string>)
    requires WellFormed(rep) && claim in rep.nodes
    ensures var (o, after) := Visit(rep, claim, expanded);
            Shows(rep, [claim], [o], expanded, after) && (o.shared <==> claim in expanded)
    decreases rep.nodes.Keys - expanded, 0
  {
    var (o, after) := Visit(rep, claim, expanded);
    if claim !in expanded {
      var claims := Sorted(Succ(rep.graph, claim));
      VisitAllFacts(rep, claims, expanded + {claim});
      AddsRoot(rep, claim, claims, ExpandedInAll(o.children), expanded, after);
    }
    ShowsOne(rep, o);
  }

  lemma ShowsOne(rep: Report, o: Outline)
    requires WellFormed(rep)
    ensures ExpandedInAll([o]) == ExpandedIn(o)
  {
    assert [o][1..] == [];
    assert ExpandedIn(o) + ExpandedInAll([]) == ExpandedIn(o);
  }

  lemma AddsRoot(rep: Report, claim: string, claims: seq<string>, shown: seq<string>, before: set<string>, after: set<string>)
    requires claim !in before && Adds(rep, claims, shown, before + {claim}, after)
    requires forall c :: c in claims <==> c in Succ(rep.graph, claim)
    ensures Adds(rep, [claim], [claim] + shown, before, after)
  {
    assert after - before == {claim} + (after - (before + {claim}));
    assert multiset([claim] + shown) == multiset{claim} + multiset(shown);
    ReachesSelf(rep.graph, claim);
    forall x | x in after - before ensures ReachedFrom(rep, [claim], x) {
      assert claim in [claim];
      if x != claim {
        assert ReachedFrom(rep, claims, x);
        var r :| r in claims && Reaches(rep.graph, r, x);
        ReachesStep(rep.graph, claim, claim, r);
        ReachesJoin(rep.graph, claim, r, x);
      }
    }
  }

  lemma {:induction false} VisitAllFacts(rep: Report, claims: seq<string>, expanded: set<string>)
    requires WellFormed(rep) && forall c :: c in claims ==> c in rep.nodes
    ensures var (os, after) := VisitAll(rep, claims, expanded);
            Shows(rep, claims, os, expanded, after)
    decreases rep.nodes.Keys - expanded, 1 + |claims|
  {
    if claims == [] {
    } else {
      var (first, middle) := Visit(rep, claims[0], expanded);
      var (rest, after) := VisitAll(rep, claims[1..], middle);
      VisitFacts(rep, claims[0], expanded);
      VisitAllFacts(rep, claims[1..], middle);
      ShowsJoin(rep, claims, first, rest, expanded, middle, after);
    }
  }

  lemma ShowsSingle(rep: Report, claim: string, o: Outline, before: set<string>, after: set<string>)
    requires WellFormed(rep) && Shows(rep, [claim], [o], before, after)
    ensures Shaped(rep, o) && o.name == ClaimLabel(claim)
    ensures Adds(rep, [claim], ExpandedIn(o), before, after)
  {
    ShowsOne(rep, o);
    assert [o][0] == o && [claim][0] == claim;
  }

  lemma ShowsJoin(rep: Report, claims: seq<string>, first: Outline, rest: seq<Outline>,
                  before: set<string>, middle: set<string>, after: set<string>)
    requires WellFormed(rep) && claims != []
    requires Shows(rep, [claims[0]], [first], before, middle) && Shows(rep, claims[1..], rest, middle, after)
    ensures Shows(rep, claims, [first] + rest, before, after)
  {
    ShowsSingle(rep, claims[0], first, before, middle);
    ShapedPrepend(rep, first, rest, claims);
    AddsJoin(rep, claims[0], claims[1..], ExpandedIn(first), ExpandedInAll(rest), before, middle, after);
    assert [claims[0]] + claims[1..] == claims;
  }

  lemma ShapedPrepend(rep: Report, first: Outline, rest: seq<Outline>, claims: seq<string>)
    requires WellFormed(rep) && claims != []
    requires Shaped(rep, first) && first.name == ClaimLabel(claims[0]) && ShapedAll(rep, rest, claims[1..])
    ensures ShapedAll(rep, [first] + rest, claims)
    ensures ExpandedInAll([first] + rest) == ExpandedIn(first) + ExpandedInAll(rest)
  {
    var os := [first] + rest;
    assert os[1..] == rest;
    forall i | 0 <= i < |os| ensures Shaped(rep, os[i]) && os[i].name == ClaimLabel(claims[i]) {
      if i > 0 {
        assert os[i] == rest[i - 1] && claims[i] == claims[1..][i - 1];
      }
    }
  }

  lemma AddsJoin(rep: Report, root: string, roots: seq<string>, a: seq<string>, b: seq<string>,
                 before: set<string>, middle: set<string>, after: set<string>)
    requires Adds(rep, [root], a, before, middle) && Adds(rep, roots, b, middle, after)
    ensures Adds(rep, [root] + roots, a + b, before, after)
  {
    assert after - before == (middle - before) + (after - middle);
    assert multiset(a + b) == multiset(a) + multiset(b);
    forall x | x in after - before ensures ReachedFrom(rep, [root] + roots, x) {
      if x in middle - before {
        assert ReachedFrom(rep, [root], x);
        var r :| r in [root] && Reaches(rep.graph, r, x);
        assert r in [root] + roots;
      } else {
        assert ReachedFrom(rep, roots, x);
        var r :| r in roots && Reaches(rep.graph, r, x);
        assert r in [root] + roots;
      }
    }
  }

  lemma AddedIsReachable(rep: Report, roots: seq<string>, shown: seq<string>, after: set<string>)
    requires Adds(rep, roots, shown, {}, after)
    ensures multiset(shown) == multiset(after) && forall x :: x in after <==> ReachedFrom(rep, roots, x)
  {
    assert after - {} == after;
    assert IsClosed(rep.graph, after);
    forall x | ReachedFrom(rep, roots, x) ensures x in after {
      var r :| r in roots && Reaches(rep.graph, r, x);
      ClosedHoldsReachable(rep.graph, after, r, x);
    }
  }

  /** Over all roots: each reachable claim is expanded exactly once, and no other claim is. */
  lemma ForestExpandsReachableOnce(rep: Report, roots: seq<string>)
    requires WellFormed(rep) && forall c :: c in roots ==> c in rep.nodes
    ensures var (os, after) := VisitAll(rep, roots, {});
            && ShapedAll(rep, os, roots)
            && multiset(ExpandedInAll(os)) == multiset(after)
            && forall x :: x in after <==> ReachedFrom(rep, roots, x)
  {
    var (os, after) := VisitAll(rep, roots, {});
    VisitAllFacts(rep, roots, {});
    AddedIsReachable(rep, roots, ExpandedInAll(os), after);
  }

  // ---- What an entry tells, written out ----

  /** A run-wide or batch-wide incident names the claim, or names none while the claim is a target. */
  ghost predicate HitByIncident(incidents: seq<Incident>, targets: seq<string>, claim: string) {
    exists i :: && i in incidents && (i.scope == "RUN" || i.scope == "BATCH")
                && (claim in i.claims || (i.claims == [] && claim in targets))
  }

  /** The claim's own data; a technical failure counts as blocked when such an incident hit a claim that blocks nothing. */
  ghost predicate Tells(nodes: map<string, ClaimNode>, blockers: set<string>, hit: bool, claim: string, o: Outline) {
    && claim in nodes && o.name == ClaimLabel(claim) && o.incidents == nodes[claim].incidents
    && (o.blocker <==> claim in blockers)
    && o.state == if hit && claim !in blockers && nodes[claim].state == "FAILED_TECHNICAL"
                  then "BLOCKED_BY_GLOBAL_INCIDENT" else nodes[claim].state
  }

  /** Throughout the tree; below an entry that is not shared stand its dependencies in sorted order. */
  ghost predicate Drawn(rep: Report, incidents: seq<Incident>, targets: seq<string>, o: Outline)
    decreases o
  {
    && o.name.ClaimLabel?
    && Tells(rep.nodes, rep.blockers, HitByIncident(incidents, targets, o.name.claim), o.name.claim, o)
    && (o.shared ==> o.children == [])
    && (!o.shared ==>
          && |o.children| == |Sorted(Succ(rep.graph, o.name.claim))|
          && forall i :: 0 <= i < |o.children| ==>
               && Drawn(rep, incidents, targets, o.children[i])
               && o.children[i].name == ClaimLabel(Sorted(Succ(rep.graph, o.name.claim))[i]))
  }

  lemma AffectedAreHit(incidents: seq<Incident>, targets: seq<string>, claim: string)
    ensures claim in GloballyAffected(incidents, targets) <==> HitByIncident(incidents, targets, claim)
  {
    if claim in GloballyAffected(incidents, targets) {
      var i :| i in incidents && IsGlobal(i) && claim in ClaimsOf(i, targets);
    }
    if HitByIncident(incidents, targets, claim) {
      var i :| && i in incidents && (i.scope == "RUN" || i.scope == "BATCH")
               && (claim in i.claims || (i.claims == [] && claim in targets));
      assert IsGlobal(i) && claim in ClaimsOf(i, targets);
    }
  }

  lemma EntryTells(rep: Report, incidents: seq<Incident>, targets: seq<string>, claim: string, shared: bool,
                   children: seq<Outline>)
    requires claim in rep.nodes && rep.affected == GloballyAffected(incidents, targets)
    ensures Tells(rep.nodes, rep.blockers, HitByIncident(incidents, targets, claim), claim,
                  Entry(rep, claim, shared, children))
  {
    AffectedAreHit(incidents, targets, claim);
  }

  lemma {:induction false} ShapedIsDrawn(rep: Report, incidents: seq<Incident>, targets: seq<string>, o: Outline)
    requires WellFormed(rep) && rep.affected == GloballyAffected(incidents, targets) && Shaped(rep, o)
    ensures Drawn(rep, incidents, targets, o)
    decreases o
  {
    EntryTells(rep, incidents, targets, o.name.claim, o.shared, o.children);
    forall i | 0 <= i < |o.children| ensures Drawn(rep, incidents, targets, o.children[i]) {
      assert Shaped(rep, o.children[i]);
      ShapedIsDrawn(rep, incidents, targets, o.children[i]);
    }
  }

  ghost predicate DrawnAll(rep: Report, incidents: seq<Incident>, targets: seq<string>, os: seq<Outline>) {
    forall i :: 0 <= i < |os| ==> Drawn(rep, incidents, targets, os[i])
  }

  lemma {:induction false} GlobalsFilter(a: seq<Incident>, b: seq<Incident>)
    ensures Globals(a + b) == Globals(a) + Globals(b)
    ensures a == [] || |a| > 1 || Globals(a) == if a[0].scope == "RUN" || a[0].scope == "BATCH" then a else []
    decreases |a|
  {
    if a == [] {
      assert a + b == b;
    } else {
      assert (a + b)[1..] == a[1..] + b;
      GlobalsFilter(a[1..], b);
    }
  }

  lemma {:induction false} KnownFilters(rep: Report, a: seq<string>, b: seq<string>)
    ensures Known(rep, a + b) == Known(rep, a) + Known(rep, b)
    ensures a == [] || |a| > 1 || Known(rep, a) == if a[0] in rep.nodes then a else []
    decreases |a|
  {
    if a == [] {
      assert a + b == b;
    } else {
      assert (a + b)[1..] == a[1..] + b;
      KnownFilters(rep, a[1..], b);
    }
  }

  // ---- All roots ----

  predicate IsGlobal(incident: Incident) {
    incident.scope in {"RUN", "BATCH"}
  }

  /** `incident.claim_ids or targets`. */
  function ClaimsOf(incident: Incident, targets: seq<string>): seq<string> {
    if incident.claims != [] then incident.claims else targets
  }

  function GloballyAffected(incidents: seq<Incident>, targets: seq<string>): set<string> {
    set i, c | i in incidents && IsGlobal(i) && c in ClaimsOf(i, targets) :: c
  }

  function Known(rep: Report, claims: seq<string>): (r: seq<string>)
    ensures forall c :: c in r <==> c in claims && c in rep.nodes
  {
    if claims == [] then []
    else if claims[0] in rep.nodes then [claims[0]] + Known(rep, claims[1..])
    else Known(rep, claims[1..])
  }

  function Globals(incidents: seq<Incident>): seq<Incident> {
    if incidents == [] then []
    else if IsGlobal(incidents[0]) then [incidents[0]] + Globals(incidents[1..])
    else Globals(incidents[1..])
  }

  /** The claims visited under the incident headings, in order. */
  ghost function IncidentClaims(rep: Report, globals: seq<Incident>, targets: seq<string>): seq<string> {
    if globals == [] then []
    else
      var k := |globals| - 1;
      IncidentClaims(rep, globals[..k], targets) + Known(rep, ClaimsOf(globals[k], targets))
  }

  lemma {:induction false} IncidentClaimsKnown(rep: Report, globals: seq<Incident>, targets: seq<string>)
    ensures forall c :: c in IncidentClaims(rep, globals, targets) ==> c in rep.nodes
  {
    if globals == [] {
    } else {
      IncidentClaimsKnown(rep, globals[..|globals| - 1], targets);
    }
  }

  /** Every claim visited at the top: those of the global incidents, then the targets. */
  ghost function RootClaims(rep: Report, incidents: seq<Incident>, targets: seq<string>): (r: seq<string>)
    ensures forall c :: c in r ==> c in rep.nodes
  {
    IncidentClaimsKnown(rep, Globals(incidents), targets);
    IncidentClaims(rep, Globals(incidents), targets) + Known(rep, targets)
  }

  function IncidentRoot(incident: Incident, children: seq<Outline>): Outline {
    Outline(IncidentLabel(incident.id), incident.scope + ":" + incident.kind, true, [incident.id], false, children)
  }

  /** The entries under the incident headings, headings dropped. */
  ghost function UnderHeadings(headings: seq<Outline>): seq<Outline> {
    if headings == [] then []
    else UnderHeadings(headings[..|headings| - 1]) + headings[|headings| - 1].children
  }

  /** A generator of visits over `claims`. */
  method VisitEach(rep: Report, claims: seq<string>, expanded: set<string>)
    returns (nodes: seq<Outline>, after: set<string>)
    requires WellFormed(rep) && (forall c :: c in claims ==> c in rep.nodes) && expanded <= rep.nodes.Keys
    ensures (nodes, after) == VisitAll(rep, claims, expanded) && after <= rep.nodes.Keys
    ensures |nodes| == |claims|
  {
    nodes, after := [], expanded;
    for i := 0 to |claims|
      invariant after <= rep.nodes.Keys && |nodes| == i
      invariant forall c :: c in claims[..i] ==> c in rep.nodes
      invariant (nodes, after) == VisitAll(rep, claims[..i], expanded)
    {
      assert claims[..i + 1] == claims[..i] + [claims[i]];
      VisitAllSplits(rep, claims[..i], [claims[i]], expanded);
      var node: Outline;
      VisitSingle(rep, claims[i], after);
      node, after := VisitClaim(rep, claims[i], after);
      nodes := nodes + [node];
    }
    assert claims[..|claims|] == claims;
  }

  lemma VisitSingle(rep: Report, claim: string, expanded: set<string>)
    requires WellFormed(rep) && claim in rep.nodes
    ensures var (o, after) := Visit(rep, claim, expanded);
            VisitAll(rep, [claim], expanded) == ([o], after)
  {
    var (o, after) := Visit(rep, claim, expanded);
    assert [claim][1..] == [];
    assert VisitAll(rep, [claim][1..], after) == ([], after);
    assert [o] + [] == [o];
  }

  /** One heading per global incident, over as many entries as it has known claims. */
  ghost predicate Headed(rep: Report, globals: seq<Incident>, targets: seq<string>, headings: seq<Outline>) {
    && |headings| == |globals|
    && forall i :: 0 <= i < |headings| ==>
         && headings[i] == IncidentRoot(globals[i], headings[i].children)
         && |headings[i].children| == |Known(rep, ClaimsOf(globals[i], targets))|
  }

  /** Headings for a prefix of the incidents, with the expanded set they leave. */
  ghost predicate HeadingsSoFar(rep: Report, globals: seq<Incident>, targets: seq<string>,
                                headings: seq<Outline>, expanded: set<string>)
    requires WellFormed(rep)
  {
    IncidentClaimsKnown(rep, globals, targets);
    && Headed(rep, globals, targets, headings)
    && (UnderHeadings(headings), expanded) == VisitAll(rep, IncidentClaims(rep, globals, targets), {})
  }

  lemma OneMoreHeading(rep: Report, globals: seq<Incident>, incident: Incident, targets: seq<string>,
                       headings: seq<Outline>, expanded: set<string>, children: seq<Outline>, after: set<string>)
    requires WellFormed(rep) && HeadingsSoFar(rep, globals, targets, headings, expanded)
    requires (children, after) == VisitAll(rep, Known(rep, ClaimsOf(incident, targets)), expanded)
    requires |children| == |Known(rep, ClaimsOf(incident, targets))|
    ensures HeadingsSoFar(rep, globals + [incident], targets, headings + [IncidentRoot(incident, children)], after)
  {
    var more, longer := headings + [IncidentRoot(incident, children)], globals + [incident];
    assert more[..|headings|] == headings && longer[..|globals|] == globals;
    IncidentClaimsKnown(rep, globals, targets);
    VisitAllSplits(rep, IncidentClaims(rep, globals, targets), Known(rep, ClaimsOf(incident, targets)), {});
    forall i | 0 <= i < |more|
      ensures && more[i] == IncidentRoot(longer[i], more[i].children)
              && |more[i].children| == |Known(rep, ClaimsOf(longer[i], targets))|
    {
      if i < |headings| {
        assert more[i] == headings[i] && longer[i] == globals[i];
      }
    }
  }

  /** One trip of the loop over the run-wide incidents. */
  method AddHeading(rep: Report, ghost done: seq<Incident>, incident: Incident, targets: seq<string>,
                    headings: seq<Outline>, expanded: set<string>)
    returns (more: seq<Outline>, after: set<string>)
    requires WellFormed(rep) && HeadingsSoFar(rep, done, targets, headings, expanded) && expanded <= rep.nodes.Keys
    ensures HeadingsSoFar(rep, done + [incident], targets, more, after) && after <= rep.nodes.Keys
  {
    var children: seq<Outline>;
    children, after := VisitEach(rep, Known(rep, ClaimsOf(incident, targets)), expanded);
    OneMoreHeading(rep, done, incident, targets, headings, expanded, children, after);
    more := headings + [IncidentRoot(incident, children)];
  }

  lemma NoHeadings(rep: Report, targets: seq<string>)
    requires WellFormed(rep)
    ensures HeadingsSoFar(rep, [], targets, [], {})
  {
  }

  method BuildHeadings(rep: Report, globals: seq<Incident>, targets: seq<string>)
    returns (headings: seq<Outline>, expanded: set<string>)
    requires WellFormed(rep)
    ensures HeadingsSoFar(rep, globals, targets, headings, expanded) && expanded <= rep.nodes.Keys
  {
    headings, expanded := [], {};
    NoHeadings(rep, targets);
    for i := 0 to |globals|
      invariant HeadingsSoFar(rep, globals[..i], targets, headings, expanded) && expanded <= rep.nodes.Keys
    {
      assert globals[..i + 1] == globals[..i] + [globals[i]];
      headings, expanded := AddHeading(rep, globals[..i], globals[i], targets, headings, expanded);
    }
    assert globals[..|globals|] == globals;
  }

  /** The whole outline: the incident headings, then the targets, all sharing one expanded set. */
  method BuildOutline(graph: Graph, nodes: map<string, ClaimNode>, blockers: set<string>,
                      incidents: seq<Incident>, targets: seq<string>)
    returns (headings: seq<Outline>, trees: seq<Outline>)
    requires Valid(graph) && nodes.Keys == graph.nodes
    ensures var rep := Report(graph, nodes, blockers, GloballyAffected(incidents, targets));
            && Headed(rep, Globals(incidents), targets, headings)
            && |trees| == |Known(rep, targets)|
            && UnderHeadings(headings) + trees == VisitAll(rep, RootClaims(rep, incidents, targets), {}).0
            && DrawnAll(rep, incidents, targets, UnderHeadings(headings) + trees)
    ensures forall i :: 0 <= i < |headings| ==>
              && headings[i].name == IncidentLabel(Globals(incidents)[i].id)
              && headings[i].state == Globals(incidents)[i].scope + ":" + Globals(incidents)[i].kind
              && headings[i].blocker && !headings[i].shared && headings[i].incidents == [Globals(incidents)[i].id]
  {
    var rep := Report(graph, nodes, blockers, GloballyAffected(incidents, targets));
    var seen: set<string>;
    headings, seen := BuildHeadings(rep, Globals(incidents), targets);
    IncidentClaimsKnown(rep, Globals(incidents), targets);
    VisitAllSplits(rep, IncidentClaims(rep, Globals(incidents), targets), Known(rep, targets), {});
    trees, seen := VisitEach(rep, Known(rep, targets), seen);
    VisitAllFacts(rep, RootClaims(rep, incidents, targets), {});
    forall i | 0 <= i < |UnderHeadings(headings) + trees|
      ensures Drawn(rep, incidents, targets, (UnderHeadings(headings) + trees)[i])
    {
      ShapedIsDrawn(rep, incidents, targets, (UnderHeadings(headings) + trees)[i]);
    }
  }
}
