/**
 The claim graph of `incremental/graph.py`: which prerequisites count as satisfied, which
 claims are ready to prove, and which claims depend on which.
 */
module ClaimGraph {
  import opened Ordering
  import opened Reachability

  datatype ClaimState =
    | Discovered
    | StatementDrafted
    | StatementApproved
    | ReadyToProve
    | Proving
    | Certified
    | DirtySource
    | Invalidated
    | NeedsClarification
    | BlockedDependency
    | FailedTechnical
    | FailedFormalization
    | Unresolved
    | SuspectFalse
    | CounterexampleFound
    | SkippedUnproved

  const ASSISTANT_CONTEXT_EDGE_KIND := "assistant_context"

  /** `src` depends on `dst`. */
  datatype Edge = Edge(src: string, dst: string, kind: string, approved: bool)

  type States = map<string, ClaimState>

  function StateOf(states: States, claim: string): ClaimState {
    if claim in states then states[claim] else Discovered
  }

  /** UPDATE touches existing rows only. */
  function SetState(states: States, claim: string, state: ClaimState): States {
    if claim in states then states[claim := state] else states
  }

  /** What the recursive tests read: claim states, direct prerequisites, guided claims. */
  datatype Context = Context(states: States, deps: map<string, set<string>>, guided: set<string>)

  function Prerequisites(ctx: Context, claim: string): set<string> {
    if claim in ctx.deps then ctx.deps[claim] else {}
  }

  /** An unproved assertion that its author's comment refers to other claims. */
  predicate Transparent(ctx: Context, claim: string) {
    StateOf(ctx.states, claim) == SkippedUnproved && claim in ctx.guided
  }

  /** The recursive test, with the trail of transparent claims passed on the way down. */
  predicate SatisfiedUnder(ctx: Context, claim: string, trail: set<string>)
    decreases ctx.guided - trail
  {
    if StateOf(ctx.states, claim) == Certified then true
    else if !Transparent(ctx, claim) || claim in trail then false
    else forall d | d in Prerequisites(ctx, claim) :: SatisfiedUnder(ctx, d, trail + {claim})
  }

  // ---- The reference: the least set closed under two rules ----

  /** Claims in `base` belong outright; a claim in `via` belongs once its prerequisites do. */
  datatype Rules = Rules(base: set<string>, via: set<string>, deps: map<string, set<string>>)

  function Premises(rules: Rules, claim: string): set<string> {
    if claim in rules.deps then rules.deps[claim] else {}
  }

  ghost predicate IsClosedUnder(rules: Rules, s: set<string>) {
    && rules.base <= s
    && forall c :: c in rules.via && Premises(rules, c) <= s ==> c in s
  }

  /** Membership in every closed set. */
  ghost predicate InEveryClosed(rules: Rules, claim: string) {
    forall s: set<string> :: IsClosedUnder(rules, s) ==> claim in s
  }

  ghost function LeastClosed(rules: Rules): set<string> {
    set c | c in rules.base + rules.via && InEveryClosed(rules, c)
  }

  lemma LeastClosedIsClosed(rules: Rules)
    ensures IsClosedUnder(rules, LeastClosed(rules))
  {
    var least := LeastClosed(rules);
    forall c | c in rules.via && Premises(rules, c) <= least ensures c in least {
      forall s: set<string> | IsClosedUnder(rules, s) ensures c in s {
        assert Premises(rules, c) <= s;
      }
    }
  }

  lemma LeastClosedIsLeast(rules: Rules, s: set<string>)
    requires IsClosedUnder(rules, s)
    ensures LeastClosed(rules) <= s
  {
  }

  lemma LeastClosedMonotone(small: Rules, large: Rules)
    requires small.base <= large.base && small.via <= large.via && small.deps == large.deps
    ensures LeastClosed(small) <= LeastClosed(large)
  {
    LeastClosedIsClosed(large);
    forall c | c in small.via && Premises(small, c) <= LeastClosed(large)
      ensures c in LeastClosed(large)
    {
      assert Premises(large, c) == Premises(small, c);
    }
    LeastClosedIsLeast(small, LeastClosed(large));
  }

  /** A claim never needs itself: its own rule may be dropped while deriving its premises. */
  lemma LeastClosedUnfolds(rules: Rules, claim: string)
    ensures claim in LeastClosed(rules) <==>
            || claim in rules.base
            || (&& claim in rules.via
                && Premises(rules, claim) <= LeastClosed(rules.(via := rules.via - {claim})))
  {
    var without := rules.(via := rules.via - {claim});
    var least, small := LeastClosed(rules), LeastClosed(without);
    LeastClosedIsClosed(rules);
    LeastClosedIsClosed(without);
    LeastClosedMonotone(without, rules);
    assert forall c :: Premises(rules, c) == Premises(without, c);
    if claim !in rules.base && !(claim in rules.via && Premises(rules, claim) <= small) {
      var candidate := small - {claim};
      forall c | c in rules.via && Premises(rules, c) <= candidate ensures c in candidate {
        assert Premises(without, c) <= small;
      }
      assert IsClosedUnder(rules, candidate);
      LeastClosedIsLeast(rules, candidate);
    }
  }

  /** CERTIFIED claims are satisfied; a transparent claim is once its prerequisites are. */
  ghost function SatisfactionRules(ctx: Context): Rules {
    Rules((set c | c in ctx.states && ctx.states[c] == Certified),
          (set c | c in ctx.guided && Transparent(ctx, c)),
          ctx.deps)
  }

  ghost function SatisfiedClaims(ctx: Context): set<string> {
    LeastClosed(SatisfactionRules(ctx))
  }

  /** With a trail, the test decides the least set that has no rule for the trail's claims. */
  lemma {:induction false} SatisfiedUnderTrail(ctx: Context, claim: string, trail: set<string>)
    ensures var rules := SatisfactionRules(ctx);
            SatisfiedUnder(ctx, claim, trail) <==>
            claim in LeastClosed(rules.(via := rules.via - trail))
    decreases ctx.guided - trail
  {
    var all := SatisfactionRules(ctx);
    var rules := all.(via := all.via - trail);
    LeastClosedUnfolds(rules, claim);
    if StateOf(ctx.states, claim) != Certified && claim in rules.via {
      assert rules.via - {claim} == all.via - (trail + {claim});
      forall d | d in Prerequisites(ctx, claim)
        ensures SatisfiedUnder(ctx, d, trail + {claim}) <==>
                d in LeastClosed(rules.(via := rules.via - {claim}))
      {
        SatisfiedUnderTrail(ctx, d, trail + {claim});
      }
    }
  }

  /** The trail recursion is exactly the least fixpoint, on every graph. */
  lemma SatisfiedIsLeastFixpoint(ctx: Context, claim: string)
    ensures SatisfiedUnder(ctx, claim, {}) <==> claim in SatisfiedClaims(ctx)
  {
    var rules := SatisfactionRules(ctx);
    assert rules.(via := rules.via - {}) == rules;
    SatisfiedUnderTrail(ctx, claim, {});
  }

  /** Claims that only lean on one another are never satisfied, whatever their states. */
  lemma GuidanceCycleNeverSatisfies(ctx: Context, cycle: set<string>, claim: string)
    requires forall c :: c in cycle ==> StateOf(ctx.states, c) != Certified
    requires forall c :: c in cycle ==> Prerequisites(ctx, c) * cycle != {}
    requires claim in cycle
    ensures !SatisfiedUnder(ctx, claim, {})
  {
    var rules := SatisfactionRules(ctx);
    var outside := LeastClosed(rules) - cycle;
    LeastClosedIsClosed(rules);
    forall c | c in rules.via && Premises(rules, c) <= outside ensures c in outside {
      assert Premises(rules, c) == Prerequisites(ctx, c);
      assert Prerequisites(ctx, c) * cycle == {};
    }
    LeastClosedIsLeast(rules, outside);
    SatisfiedIsLeastFixpoint(ctx, claim);
  }

  // ---- Direct prerequisites ----

  ghost function ApprovedTargets(edges: seq<Edge>, claim: string): set<string> {
    set e | e in edges && e.approved && e.src == claim :: e.dst
  }

  ghost function ApprovedSources(edges: seq<Edge>): set<string> {
    set e | e in edges && e.approved :: e.src
  }

  ghost function GuidedSources(edges: seq<Edge>): set<string> {
    set e | e in edges && e.approved && e.kind == ASSISTANT_CONTEXT_EDGE_KIND :: e.src
  }

  /** The whole-graph context: every approved edge counts. */
  ghost function GraphContext(states: States, edges: seq<Edge>): Context {
    Context(states,
            (map c | c in ApprovedSources(edges) :: ApprovedTargets(edges, c)),
            GuidedSources(edges))
  }

  /** Direct prerequisites of `claim` that are not satisfied. */
  ghost function Unsatisfied(states: States, edges: seq<Edge>, claim: string): set<string> {
    ApprovedTargets(edges, claim) - SatisfiedClaims(GraphContext(states, edges))
  }

  // ---- The same on states and edges alone ----

  ghost predicate EdgeLeads(edges: set<Edge>, src: string, dst: string) {
    exists e :: e in edges && e.approved && e.src == src && e.dst == dst
  }

  /** The claim's author refers it to other claims. */
  ghost predicate HasGuidance(edges: set<Edge>, claim: string) {
    exists e :: e in edges && e.approved && e.kind == "assistant_context" && e.src == claim
  }

  /** `s` holds what is certified, and what is skipped with guidance if it holds all that this leans on. */
  ghost predicate Honours(states: States, edges: set<Edge>, s: set<string>) {
    && (forall c :: c in states && states[c] == Certified ==> c in s)
    && (forall c ::
          c in states && states[c] == SkippedUnproved && HasGuidance(edges, c)
          && (forall d :: EdgeLeads(edges, c, d) ==> d in s)
          ==> c in s)
  }

  ghost predicate Deserved(states: States, edges: set<Edge>, claim: string) {
    forall s: set<string> :: Honours(states, edges, s) ==> claim in s
  }

  ghost predicate Reads(ctx: Context, edges: set<Edge>) {
    && (forall c, d :: d in Prerequisites(ctx, c) <==> EdgeLeads(edges, c, d))
    && (forall c :: c in ctx.guided <==> HasGuidance(edges, c))
  }

  lemma HonoursIsClosed(ctx: Context, edges: set<Edge>, s: set<string>)
    requires Reads(ctx, edges)
    ensures Honours(ctx.states, edges, s) <==> IsClosedUnder(SatisfactionRules(ctx), s)
  {
    var rules := SatisfactionRules(ctx);
    forall c ensures Premises(rules, c) <= s <==> forall d :: EdgeLeads(edges, c, d) ==> d in s {
      assert Premises(rules, c) == Prerequisites(ctx, c);
      assert forall d :: EdgeLeads(edges, c, d) ==> d in Prerequisites(ctx, c);
    }
  }

  /** What counts as satisfied, in terms of claim states and approved edges. */
  lemma SatisfiedIsDeserved(ctx: Context, edges: set<Edge>, claim: string)
    requires Reads(ctx, edges)
    ensures claim in SatisfiedClaims(ctx) <==> Deserved(ctx.states, edges, claim)
  {
    var least := SatisfiedClaims(ctx);
    LeastClosedIsClosed(SatisfactionRules(ctx));
    HonoursIsClosed(ctx, edges, least);
    forall s: set<string> | Honours(ctx.states, edges, s) ensures least <= s {
      HonoursIsClosed(ctx, edges, s);
      LeastClosedIsLeast(SatisfactionRules(ctx), s);
    }
  }

  ghost function EdgeSet(edges: seq<Edge>): set<Edge> {
    set e | e in edges
  }

  lemma GraphContextReads(states: States, edges: seq<Edge>)
    ensures Reads(GraphContext(states, edges), EdgeSet(edges))
  {
  }

  /** The ends of the claim's approved edges that are not satisfied. */
  ghost predicate ListsOpen(claim: string, states: States, edges: seq<Edge>, result: seq<string>) {
    forall d :: d in result <==> EdgeLeads(EdgeSet(edges), claim, d) && !Deserved(states, EdgeSet(edges), d)
  }

  lemma UnsatisfiedIsListed(claim: string, states: States, edges: seq<Edge>)
    ensures ListsOpen(claim, states, edges, Sorted(Unsatisfied(states, edges, claim)))
  {
    GraphContextReads(states, edges);
    forall d ensures d in Unsatisfied(states, edges, claim) <==>
                     EdgeLeads(EdgeSet(edges), claim, d) && !Deserved(states, EdgeSet(edges), d)
    {
      SatisfiedIsDeserved(GraphContext(states, edges), EdgeSet(edges), d);
    }
  }

  /** Every approved edge of the claim ends at a satisfied claim. */
  ghost predicate AllDeserved(states: States, edges: seq<Edge>, claim: string) {
    forall d :: EdgeLeads(EdgeSet(edges), claim, d) ==> Deserved(states, EdgeSet(edges), d)
  }

  lemma NoneUnsatisfied(claim: string, states: States, edges: seq<Edge>)
    ensures Unsatisfied(states, edges, claim) == {} <==> AllDeserved(states, edges, claim)
  {
    UnsatisfiedIsListed(claim, states, edges);
    if AllDeserved(states, edges, claim) {
      forall d ensures d !in Unsatisfied(states, edges, claim) {
        assert d in Unsatisfied(states, edges, claim) ==> d in Sorted(Unsatisfied(states, edges, claim));
      }
    } else {
      var d :| EdgeLeads(EdgeSet(edges), claim, d) && !Deserved(states, EdgeSet(edges), d);
      assert d in Sorted(Unsatisfied(states, edges, claim));
    }
  }

  method UnsatisfiedDependencies(claim: string, states: States, edges: seq<Edge>)
    returns (result: seq<string>)
    ensures result == Sorted(Unsatisfied(states, edges, claim))
    ensures ListsOpen(claim, states, edges, result)
  {
    var deps: map<string, set<string>> := map[];
    var guided: set<string> := {};
    for i := 0 to |edges|
      invariant Context(states, deps, guided) == GraphContext(states, edges[..i])
    {
      var e := edges[i];
      assert edges[..i + 1] == edges[..i] + [e];
      if e.approved {
        deps := deps[e.src := (if e.src in deps then deps[e.src] else {}) + {e.dst}];
        if e.kind == ASSISTANT_CONTEXT_EDGE_KIND {
          guided := guided + {e.src};
        }
      }
      ContextGrows(states, edges[..i], e);
    }
    assert edges[..|edges|] == edges;
    var ctx := Context(states, deps, guided);
    var open := set d | d in Prerequisites(ctx, claim) && !SatisfiedUnder(ctx, d, {});
    forall d ensures d in open <==> d in Unsatisfied(states, edges, claim) {
      SatisfiedIsLeastFixpoint(ctx, d);
    }
    assert open == Unsatisfied(states, edges, claim);
    result := Sorted(open);
    UnsatisfiedIsListed(claim, states, edges);
  }

  lemma TargetsGrow(edges: seq<Edge>, e: Edge, claim: string)
    ensures ApprovedTargets(edges + [e], claim) ==
            if e.approved && e.src == claim then ApprovedTargets(edges, claim) + {e.dst} else ApprovedTargets(edges, claim)
  {
    assert forall f :: f in edges + [e] <==> f in edges || f == e;
  }

  lemma SourcesGrow(edges: seq<Edge>, e: Edge)
    ensures ApprovedSources(edges + [e]) ==
            if e.approved then ApprovedSources(edges) + {e.src} else ApprovedSources(edges)
    ensures GuidedSources(edges + [e]) ==
            if e.approved && e.kind == ASSISTANT_CONTEXT_EDGE_KIND then GuidedSources(edges) + {e.src}
            else GuidedSources(edges)
  {
    assert forall f :: f in edges + [e] <==> f in edges || f == e;
  }

  /** One more edge changes the context only at its own source. */
  lemma ContextGrows(states: States, edges: seq<Edge>, e: Edge)
    ensures var before, after := GraphContext(states, edges), GraphContext(states, edges + [e]);
            && after.deps == (if e.approved
                              then before.deps[e.src := Prerequisites(before, e.src) + {e.dst}]
                              else before.deps)
            && after.guided == (if e.approved && e.kind == ASSISTANT_CONTEXT_EDGE_KIND
                                then before.guided + {e.src}
                                else before.guided)
  {
    var before := GraphContext(states, edges);
    SourcesGrow(edges, e);
    forall c ensures ApprovedTargets(edges + [e], c) ==
                     if e.approved && e.src == c then ApprovedTargets(edges, c) + {e.dst}
                     else ApprovedTargets(edges, c)
    {
      TargetsGrow(edges, e, c);
    }
    assert ApprovedTargets(edges, e.src) == Prerequisites(before, e.src);
  }

  // ---- The ready frontier ----

  predicate IsReadyState(state: ClaimState) {
    state in {Discovered, StatementApproved, ReadyToProve, DirtySource, Invalidated,
              FailedFormalization, Unresolved}
  }

  /** Approved edges with both ends selected. */
  ghost predicate Inside(selected: set<string>, e: Edge) {
    e.approved && e.src in selected && e.dst in selected
  }

  ghost function SelectedTargets(selected: set<string>, edges: seq<Edge>, claim: string): set<string> {
    set e | e in edges && Inside(selected, e) && e.src == claim :: e.dst
  }

  /** The context the frontier uses: edges that leave the selection are dropped. */
  ghost function SelectionContext(states: States, selected: set<string>, edges: seq<Edge>): Context {
    Context(states,
            (map c | c in selected :: SelectedTargets(selected, edges, c)),
            (set e | e in edges && Inside(selected, e) && e.kind == ASSISTANT_CONTEXT_EDGE_KIND :: e.src))
  }

  ghost function Frontier(states: States, selected: set<string>, edges: seq<Edge>): set<string> {
    set c | && c in selected
            && IsReadyState(StateOf(states, c))
            && SelectedTargets(selected, edges, c)
               <= SatisfiedClaims(SelectionContext(states, selected, edges))
  }

  /** Nobody works on the claim, it is not done, and it waits for nothing but its prerequisites. */
  predicate AwaitsProof(states: States, c: string) {
    c in states ==> states[c] in {Discovered, StatementApproved, ReadyToProve, DirtySource, Invalidated,
                                  FailedFormalization, Unresolved}
  }

  ghost function EdgesWithin(selected: set<string>, edges: seq<Edge>): set<Edge> {
    set e | e in edges && e.src in selected && e.dst in selected
  }

  /** The selected claims that await proof and whose selected prerequisites are satisfied within the selection. */
  ghost predicate ListsReady(states: States, selected: set<string>, edges: seq<Edge>, result: seq<string>) {
    forall c :: c in result <==>
      && c in selected && AwaitsProof(states, c)
      && forall d :: EdgeLeads(EdgesWithin(selected, edges), c, d) ==>
           Deserved(states, EdgesWithin(selected, edges), d)
  }

  lemma SelectionContextReads(states: States, selected: set<string>, edges: seq<Edge>)
    ensures Reads(SelectionContext(states, selected, edges), EdgesWithin(selected, edges))
  {
    var ctx, inside := SelectionContext(states, selected, edges), EdgesWithin(selected, edges);
    forall c, d ensures d in Prerequisites(ctx, c) <==> EdgeLeads(inside, c, d) {
      if EdgeLeads(inside, c, d) {
        var e :| e in inside && e.approved && e.src == c && e.dst == d;
        assert Inside(selected, e);
      }
    }
    forall c ensures c in ctx.guided <==> HasGuidance(inside, c) {
      if HasGuidance(inside, c) {
        var e :| e in inside && e.approved && e.kind == "assistant_context" && e.src == c;
        assert Inside(selected, e);
      }
    }
  }

  lemma FrontierIsListed(states: States, selected: set<string>, edges: seq<Edge>)
    ensures ListsReady(states, selected, edges, Sorted(Frontier(states, selected, edges)))
  {
    var ctx, inside := SelectionContext(states, selected, edges), EdgesWithin(selected, edges);
    SelectionContextReads(states, selected, edges);
    forall d ensures d in SatisfiedClaims(ctx) <==> Deserved(states, inside, d) {
      SatisfiedIsDeserved(ctx, inside, d);
    }
    forall c, d | c in selected ensures d in SelectedTargets(selected, edges, c) <==> EdgeLeads(inside, c, d) {
      assert d in Prerequisites(ctx, c) <==> EdgeLeads(inside, c, d);
    }
  }

  method ReadyFrontier(states: States, selected: set<string>, edges: seq<Edge>)
    returns (result: seq<string>)
    ensures result == Sorted(Frontier(states, selected, edges))
    ensures ListsReady(states, selected, edges, result)
  {
    var deps: map<string, set<string>> := map c | c in selected :: {};
    var guided: set<string> := {};
    assert deps == SelectionContext(states, selected, []).deps by {
      assert forall c :: c in selected ==> SelectedTargets(selected, [], c) == {};
    }
    assert edges[..0] == [];
    for i := 0 to |edges|
      invariant Context(states, deps, guided) == SelectionContext(states, selected, edges[..i])
    {
      var e := edges[i];
      assert edges[..i + 1] == edges[..i] + [e];
      if e.approved && e.src in selected && e.dst in selected {
        deps := deps[e.src := deps[e.src] + {e.dst}];
        if e.kind == ASSISTANT_CONTEXT_EDGE_KIND {
          guided := guided + {e.src};
        }
      }
      SelectionContextGrows(states, selected, edges[..i], e);
    }
    assert edges[..|edges|] == edges;
    var ctx := Context(states, deps, guided);
    var ready := set c | && c in selected
                         && IsReadyState(StateOf(states, c))
                         && forall d | d in deps[c] :: SatisfiedUnder(ctx, d, {});
    forall d ensures SatisfiedUnder(ctx, d, {}) <==> d in SatisfiedClaims(ctx) {
      SatisfiedIsLeastFixpoint(ctx, d);
    }
    assert ready == Frontier(states, selected, edges);
    result := Sorted(ready);
    FrontierIsListed(states, selected, edges);
  }

  lemma SelectionContextGrows(states: States, selected: set<string>, edges: seq<Edge>, e: Edge)
    ensures var before := SelectionContext(states, selected, edges);
            var after := SelectionContext(states, selected, edges + [e]);
            && after.deps == (if Inside(selected, e)
                              then before.deps[e.src := before.deps[e.src] + {e.dst}]
                              else before.deps)
            && after.guided == (if Inside(selected, e) && e.kind == ASSISTANT_CONTEXT_EDGE_KIND
                                then before.guided + {e.src}
                                else before.guided)
  {
    assert forall f :: f in edges + [e] <==> f in edges || f == e;
    forall c ensures SelectedTargets(selected, edges + [e], c) ==
                     if Inside(selected, e) && e.src == c
                     then SelectedTargets(selected, edges, c) + {e.dst}
                     else SelectedTargets(selected, edges, c)
    {
    }
    var before := SelectionContext(states, selected, edges);
    var after := SelectionContext(states, selected, edges + [e]);
    if Inside(selected, e) {
      assert after.deps == before.deps[e.src := before.deps[e.src] + {e.dst}];
    } else {
      assert after.deps == before.deps;
    }
  }

  /** No approved edge leaves the selection. */
  ghost predicate SelectionClosed(selected: set<string>, edges: seq<Edge>) {
    forall e :: e in edges && e.approved && e.src in selected ==> e.dst in selected
  }

  /** Inside a closed selection the two contexts satisfy the same claims. */
  lemma ContextsAgree(states: States, selected: set<string>, edges: seq<Edge>, claim: string)
    requires SelectionClosed(selected, edges) && claim in selected
    ensures claim in SatisfiedClaims(SelectionContext(states, selected, edges)) <==>
            claim in SatisfiedClaims(GraphContext(states, edges))
  {
    var inner, outer := SelectionContext(states, selected, edges), GraphContext(states, edges);
    SatisfiedIsLeastFixpoint(inner, claim);
    SatisfiedIsLeastFixpoint(outer, claim);
    forall c | c in selected
      ensures Prerequisites(inner, c) == Prerequisites(outer, c)
      ensures Prerequisites(inner, c) <= selected
      ensures c in inner.guided <==> c in outer.guided
    {
      assert SelectedTargets(selected, edges, c) == ApprovedTargets(edges, c);
    }
    SameTest(inner, outer, selected, claim, {});
  }

  lemma {:induction false} SameTest(a: Context, b: Context, region: set<string>, claim: string, trail: set<string>)
    requires a.states == b.states && claim in region
    requires forall c :: c in region ==> Prerequisites(a, c) == Prerequisites(b, c) <= region
    requires forall c :: c in region ==> (c in a.guided <==> c in b.guided)
    ensures SatisfiedUnder(a, claim, trail) <==> SatisfiedUnder(b, claim, trail)
    decreases a.guided - trail
  {
    if StateOf(a.states, claim) != Certified && Transparent(a, claim) && claim !in trail {
      forall d | d in Prerequisites(a, claim)
        ensures SatisfiedUnder(a, d, trail + {claim}) <==> SatisfiedUnder(b, d, trail + {claim})
      {
        SameTest(a, b, region, d, trail + {claim});
      }
    }
  }

  /** The scheduler's frontier and the certifier's test agree on a closed selection. */
  lemma FrontierAgreesWithUnsatisfied(states: States, selected: set<string>, edges: seq<Edge>, claim: string)
    requires SelectionClosed(selected, edges)
    ensures claim in Frontier(states, selected, edges) <==>
            && claim in selected
            && IsReadyState(StateOf(states, claim))
            && Unsatisfied(states, edges, claim) == {}
  {
    if claim in selected {
      assert SelectedTargets(selected, edges, claim) == ApprovedTargets(edges, claim);
      forall d | d in ApprovedTargets(edges, claim)
        ensures d in SatisfiedClaims(SelectionContext(states, selected, edges)) <==>
                d in SatisfiedClaims(GraphContext(states, edges))
      {
        ContextsAgree(states, selected, edges, d);
      }
      var outer := SatisfiedClaims(GraphContext(states, edges));
      assert ApprovedTargets(edges, claim) <= outer ==> Unsatisfied(states, edges, claim) == {};
      assert Unsatisfied(states, edges, claim) == {} ==>
          forall d :: d in ApprovedTargets(edges, claim) ==> d !in Unsatisfied(states, edges, claim);
    }
  }

  // ---- Reachability queries ----

  /** networkx adds the ends of an edge as nodes even when they are not listed. */
  function BuildGraph(claims: set<string>, edges: seq<Edge>): (g: Graph)
    ensures Valid(g)
    ensures forall n :: n in g.nodes <==>
              n in claims || exists e :: e in edges && e.approved && (n == e.src || n == e.dst)
    ensures forall n :: Succ(g, n) == ApprovedTargets(edges, n)
    ensures forall n, d :: d in Succ(g, n) <==> EdgeLeads(EdgeSet(edges), n, d)
  {
    var sources := set e | e in edges && e.approved :: e.src;
    var targets := set e | e in edges && e.approved :: e.dst;
    Graph(claims + sources + targets,
          (map c | c in sources :: set e | e in edges && e.approved && e.src == c :: e.dst))
  }

  /** Changed claims and everything that transitively depends on one of them. */
  method AffectedClaims(changed: seq<string>, claims: set<string>, edges: seq<Edge>)
    returns (result: set<string>)
    ensures forall x :: x in result <==>
              exists c :: c in changed && Reaches(BuildGraph(claims, edges), x, c)
  {
    var g := Reversed(BuildGraph(claims, edges));
    result := {};
    for i := 0 to |changed|
      invariant forall x :: x in result <==> exists c :: c in changed[..i] && Reaches(g, c, x)
    {
      var below: set<string> := {};
      if changed[i] in g.nodes {
        below := Descendants(g, changed[i]);
      } else {
        StuckOutside(g, changed[i]);
      }
      ReachesSelf(g, changed[i]);
      assert changed[..i + 1] == changed[..i] + [changed[i]];
      result := result + {changed[i]} + below;
    }
    assert changed[..|changed|] == changed;
    forall x, c ensures Reaches(g, c, x) <==> Reaches(BuildGraph(claims, edges), x, c) {
      ReversedReaches(BuildGraph(claims, edges), x, c);
    }
  }

  lemma StuckOutside(g: Graph, a: string)
    requires Valid(g) && a !in g.nodes
    ensures forall x :: Reaches(g, a, x) ==> x == a
  {
    assert IsClosed(g, {a});
    forall x | Reaches(g, a, x) ensures x == a {
      ClosedHoldsReachable(g, {a}, a, x);
    }
  }

  /** Targets present in the graph and everything they transitively depend on. */
  method DependencyClosure(targets: seq<string>, claims: set<string>, edges: seq<Edge>)
    returns (result: set<string>)
    ensures forall x :: x in result <==>
              exists t :: && t in targets && t in BuildGraph(claims, edges).nodes
                          && Reaches(BuildGraph(claims, edges), t, x)
    ensures SelectionClosed(result, edges)
  {
    var g := BuildGraph(claims, edges);
    result := {};
    for i := 0 to |targets|
      invariant forall x :: x in result <==>
                  exists t :: t in targets[..i] && t in g.nodes && Reaches(g, t, x)
    {
      assert targets[..i + 1] == targets[..i] + [targets[i]];
      if targets[i] in g.nodes {
        var below := Descendants(g, targets[i]);
        ReachesSelf(g, targets[i]);
        result := result + {targets[i]} + below;
      }
    }
    assert targets[..|targets|] == targets;
    forall e | e in edges && e.approved && e.src in result ensures e.dst in result {
      var t :| t in targets && t in g.nodes && Reaches(g, t, e.src);
      ReachesStep(g, t, e.src, e.dst);
    }
  }

  /** Selected claims that transitively depend on a blocker other than themselves. */
  method BlockedDescendants(blockers: seq<string>, selected: set<string>, edges: seq<Edge>)
    returns (result: set<string>)
    ensures forall x :: x in result <==>
              && x in selected
              && exists b :: b in blockers && b != x && Reaches(BuildGraph(selected, edges), x, b)
  {
    var g := Reversed(BuildGraph(selected, edges));
    var all: set<string> := {};
    for i := 0 to |blockers|
      invariant forall x :: x in all <==>
                  exists b :: b in blockers[..i] && b != x && Reaches(g, b, x)
    {
      assert blockers[..i + 1] == blockers[..i] + [blockers[i]];
      if blockers[i] in g.nodes {
        var below := Descendants(g, blockers[i]);
        all := all + below;
      } else {
        StuckOutside(g, blockers[i]);
      }
    }
    assert blockers[..|blockers|] == blockers;
    forall x, b ensures Reaches(g, b, x) <==> Reaches(BuildGraph(selected, edges), x, b) {
      ReversedReaches(BuildGraph(selected, edges), x, b);
    }
    result := all * selected;
  }
}
