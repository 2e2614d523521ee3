/**
 The dependency depot protocol of `cache.py`: one directory, one lease, and any number of
 processes that share a ready depot, race to build a missing one, or evict it.
 */
module Depot {
  import opened Options

  // ---- The directory ----

  /** A tree is damaged while a recursive removal is inside it. */
  datatype Packages = Missing | Damaged | Complete

  datatype Dir = Absent | Present(packages: Packages, manifest: bool, marker: bool)

  /** What `dependency_depot_ready` tests: it cannot see damage inside the packages. */
  predicate LooksReady(d: Dir) {
    d.Present? && d.marker && d.packages != Missing && d.manifest
  }

  predicate CompleteAndReady(d: Dir) {
    d == Present(Complete, true, true)
  }

  predicate NoMore(a: Packages, b: Packages) {
    a == b || a == Missing || (a == Damaged && b == Complete)
  }

  /** What an interrupted removal may leave: parts go in any order, but nothing comes back. */
  predicate Removes(d: Dir, left: Dir) {
    && d.Present?
    && (left.Present? ==>
          NoMore(left.packages, d.packages) && (left.manifest ==> d.manifest) && (left.marker ==> d.marker))
  }

  // ---- Processes ----

  datatype Pc =
    | Out
    | SharedTaken
    | Stale
    | Between
    | ExclusiveTaken
    | Attaching(exclusive: bool)
    | Regaining
    | Held
    | Clearing
    | Building
    | Promoted
    | Marked
    | RollingBack
    | Collecting

  predicate Shares(pc: Pc) {
    pc.SharedTaken? || pc.Stale? || pc == Attaching(false) || pc.Held?
  }

  predicate Excludes(pc: Pc) {
    || pc.ExclusiveTaken? || pc == Attaching(true) || pc.Clearing? || pc.Building?
    || pc.Promoted? || pc.Marked? || pc.RollingBack? || pc.Collecting?
  }

  /** The claim object says ready: while it regains its lease in shared mode, and while it holds it. */
  predicate IsReady(pc: Pc) {
    pc.Regaining? || pc.Held?
  }

  /** From the decision to build until the depot is published or rolled back. */
  predicate Builds(pc: Pc) {
    pc.Clearing? || pc.Building? || pc.Promoted? || pc.Marked? || pc.RollingBack?
  }

  /**
   Each process is a program counter.  Leases are freed by the operating system when a process
   dies; the directory stays as it was left.
   */
  datatype World = World(dir: Dir, shared: set<nat>, exclusive: Option<nat>, pcs: map<nat, Pc>)

  function At(w: World, p: nat): Pc {
    if p in w.pcs then w.pcs[p] else Out
  }

  predicate Free(w: World) {
    w.shared == {} && w.exclusive.None?
  }

  function Goes(w: World, p: nat, pc: Pc): World {
    w.(pcs := w.pcs[p := pc])
  }

  function Released(w: World, p: nat): World {
    w.(shared := w.shared - {p}, exclusive := if w.exclusive == Some(p) then None else w.exclusive)
  }

  datatype Event =
    | AcquireShared(p: nat)
    | CheckShared(p: nat)
    | LeaveStale(p: nat)
    | TryExclusive(p: nat)
    | CheckExclusive(p: nat)
    | Attach(p: nat)
    | AttachFails(p: nat)
    | Regain(p: nat)
    | Clear(p: nat, left: Dir)
    | Cleared(p: nat)
    | Promote(p: nat)
    | Mark(p: nat)
    | Publish(p: nat)
    | MoveOut(p: nat)
    | Discard(p: nat, left: Dir)
    | RolledBack(p: nat)
    | Close(p: nat)
    | TryCollect(p: nat)
    | Quarantine(p: nat)
    | Crash(p: nat)

  predicate Enabled(w: World, e: Event) {
    var pc := At(w, e.p);
    match e
    case AcquireShared(_) => pc.Out? && w.exclusive.None?
    case CheckShared(_) => pc.SharedTaken?
    case LeaveStale(_) => pc.Stale?
    case TryExclusive(_) => pc.Between?
    case CheckExclusive(_) => pc.ExclusiveTaken?
    case Attach(_) => pc.Attaching?
    case AttachFails(_) => pc.Attaching?
    case Regain(_) => pc.Regaining? && w.exclusive.None?
    case Clear(_, left) => pc.Clearing? && Removes(w.dir, left)
    case Cleared(_) => pc.Clearing? && w.dir.Absent?
    case Promote(_) => pc.Building?
    case Mark(_) => pc.Promoted?
    case Publish(_) => pc.Marked?
    case MoveOut(_) => pc.Promoted? || pc.Marked?
    case Discard(_, left) => pc.RollingBack? && Removes(w.dir, left)
    case RolledBack(_) => pc.RollingBack? && w.dir.Absent?
    case Close(_) => pc.Held? || pc.Building?
    case TryCollect(_) => pc.Out?
    case Quarantine(_) => pc.Collecting?
    case Crash(_) => true
  }

  /**
   A downgrade is two steps: `flock` lets go of the exclusive lease before it takes the shared one.
   A builder publishes with `os.replace` of a complete staging tree, so packages and manifest
   appear together; only later does the marker.  A rollback moves the packages out before it
   removes anything, and a collector renames the whole depot away.
   */
  function Next(w: World, e: Event): World {
    var p := e.p;
    match e
    case AcquireShared(_) => Goes(w.(shared := w.shared + {p}), p, SharedTaken)
    case CheckShared(_) => Goes(w, p, if LooksReady(w.dir) then Attaching(false) else Stale)
    case LeaveStale(_) => Goes(Released(w, p), p, Between)
    case TryExclusive(_) =>
      if Free(w) then Goes(w.(exclusive := Some(p)), p, ExclusiveTaken) else Goes(w, p, Out)
    case CheckExclusive(_) => Goes(w, p, if LooksReady(w.dir) then Attaching(true) else Clearing)
    case Attach(_) =>
      if At(w, p) == Attaching(true) then Goes(Released(w, p), p, Regaining) else Goes(w, p, Held)
    case AttachFails(_) => Goes(Released(w, p), p, Out)
    case Regain(_) => Goes(w.(shared := w.shared + {p}), p, Held)
    case Clear(_, left) => w.(dir := left)
    case Cleared(_) => Goes(w, p, Building)
    case Promote(_) => Goes(w.(dir := Present(Complete, true, false)), p, Promoted)
    case Mark(_) => Goes(if w.dir.Present? then w.(dir := w.dir.(marker := true)) else w, p, Marked)
    case Publish(_) => Goes(Released(w, p), p, Regaining)
    case MoveOut(_) =>
      Goes(if w.dir.Present? then w.(dir := w.dir.(packages := Missing)) else w, p, RollingBack)
    case Discard(_, left) => w.(dir := left)
    case RolledBack(_) => Goes(w, p, Building)
    case Close(_) => Goes(Released(w, p), p, Out)
    case TryCollect(_) => if Free(w) then Goes(w.(exclusive := Some(p)), p, Collecting) else w
    case Quarantine(_) => Goes(Released(w, p), p, Out).(dir := Absent)
    case Crash(_) => Goes(Released(w, p), p, Out)
  }

  // ---- Invariant ----

  /** A marker never stands beside damaged packages. */
  predicate Sound(d: Dir) {
    d.Present? && d.marker ==> d.packages.Missing? || (d.packages.Complete? && d.manifest)
  }

  predicate Exclusion(w: World) {
    w.exclusive.Some? ==> w.shared == {}
  }

  predicate LocksMatch(w: World, p: nat) {
    && (Shares(At(w, p)) <==> p in w.shared)
    && (Excludes(At(w, p)) <==> w.exclusive == Some(p))
  }

  predicate DirMatches(d: Dir, pc: Pc) {
    match pc
    case Attaching(_) => CompleteAndReady(d)
    case Clearing => !LooksReady(d)
    case Building => d.Absent?
    case Promoted => d == Present(Complete, true, false)
    case Marked => CompleteAndReady(d)
    case RollingBack => d.Present? ==> d.packages.Missing?
    case _ => true
  }

  predicate InPlace(w: World, p: nat) {
    LocksMatch(w, p) && DirMatches(w.dir, At(w, p))
  }

  ghost predicate Inv(w: World) {
    Sound(w.dir) && Exclusion(w) && forall p: nat :: InPlace(w, p)
  }

  lemma MoverStaysInPlace(w: World, e: Event)
    requires Sound(w.dir) && Exclusion(w) && InPlace(w, e.p) && Enabled(w, e)
    ensures InPlace(Next(w, e), e.p)
  {
  }

  lemma OthersStayInPlace(w: World, e: Event, q: nat)
    requires Sound(w.dir) && Exclusion(w) && InPlace(w, e.p) && InPlace(w, q) && q != e.p && Enabled(w, e)
    ensures InPlace(Next(w, e), q)
  {
  }

  lemma DirStaysSound(w: World, e: Event)
    requires Sound(w.dir) && Exclusion(w) && InPlace(w, e.p) && Enabled(w, e)
    ensures Sound(Next(w, e).dir) && Exclusion(Next(w, e))
  {
  }

  lemma NextKeepsInv(w: World, e: Event)
    requires Inv(w) && Enabled(w, e)
    ensures Inv(Next(w, e))
  {
    DirStaysSound(w, e);
    forall p: nat ensures InPlace(Next(w, e), p) {
      if p == e.p {
        MoverStaysInPlace(w, e);
      } else {
        OthersStayInPlace(w, e, p);
      }
    }
  }

  // ---- Whole runs ----

  ghost predicate Run(w: World, events: seq<Event>)
    decreases |events|
  {
    events == [] || (Enabled(w, events[0]) && Run(Next(w, events[0]), events[1..]))
  }

  function After(w: World, events: seq<Event>): World
    decreases |events|
  {
    if events == [] then w else After(Next(w, events[0]), events[1..])
  }

  function Start(d: Dir): World {
    World(d, {}, None, map[])
  }

  lemma {:induction false} RunKeepsInv(w: World, events: seq<Event>)
    requires Inv(w) && Run(w, events)
    ensures Inv(After(w, events))
    decreases |events|
  {
    if events == [] {
    } else {
      NextKeepsInv(w, events[0]);
      RunKeepsInv(Next(w, events[0]), events[1..]);
    }
  }

  /** Always: one builder at a time, and the three-file test accepts exactly the complete depots. */
  lemma BuildersAreAlone(d: Dir, events: seq<Event>, p: nat, q: nat)
    requires Sound(d) && Run(Start(d), events)
    ensures
      var w := After(Start(d), events);
      && (Builds(At(w, p)) && Builds(At(w, q)) ==> p == q)
      && (At(w, p).Held? ==> !Builds(At(w, q)))
      && (LooksReady(w.dir) <==> w.dir == Present(Complete, true, true))
  {
    assert forall r: nat :: InPlace(Start(d), r);
    RunKeepsInv(Start(d), events);
    var w := After(Start(d), events);
    assert InPlace(w, p) && InPlace(w, q);
  }

  // ---- Ready claims ----

  /** A ready claim sees a complete depot that nobody is building. */
  predicate TrustedBy(w: World, p: nat, q: nat) {
    IsReady(At(w, p)) ==> CompleteAndReady(w.dir) && !Builds(At(w, q))
  }

  ghost predicate Trusted(w: World) {
    forall p: nat, q: nat :: TrustedBy(w, p, q)
  }

  ghost predicate SomeoneRegains(w: World) {
    exists p: nat :: At(w, p).Regaining?
  }

  /** A collector takes the depot away while a ready claim is between its two leases. */
  ghost predicate RemovalInGap(w: World, e: Event) {
    e.Quarantine? && SomeoneRegains(w)
  }

  ghost predicate NoRemovalInGap(w: World, events: seq<Event>)
    decreases |events|
  {
    events == [] || (!RemovalInGap(w, events[0]) && NoRemovalInGap(Next(w, events[0]), events[1..]))
  }

  ghost predicate ReadyMeansComplete(w: World) {
    forall p: nat :: IsReady(At(w, p)) ==> CompleteAndReady(w.dir)
  }

  ghost predicate ReadyThroughout(w: World, events: seq<Event>)
    decreases |events|
  {
    ReadyMeansComplete(w) && (events == [] || ReadyThroughout(Next(w, events[0]), events[1..]))
  }

  lemma StepKeepsTrust(w: World, e: Event, p: nat, q: nat)
    requires Sound(w.dir) && Exclusion(w) && InPlace(w, p) && InPlace(w, q) && InPlace(w, e.p)
    requires TrustedBy(w, p, q) && TrustedBy(w, p, e.p) && Enabled(w, e)
    requires e.Quarantine? ==> !At(w, p).Regaining?
    ensures TrustedBy(Next(w, e), p, q)
  {
  }

  lemma NextKeepsTrust(w: World, e: Event)
    requires Inv(w) && Trusted(w) && Enabled(w, e) && !RemovalInGap(w, e)
    ensures Trusted(Next(w, e))
  {
    forall p: nat, q: nat ensures TrustedBy(Next(w, e), p, q) {
      assert InPlace(w, p) && InPlace(w, q) && InPlace(w, e.p);
      assert TrustedBy(w, p, q) && TrustedBy(w, p, e.p);
      StepKeepsTrust(w, e, p, q);
    }
  }

  lemma TrustedMeansComplete(w: World)
    requires Trusted(w)
    ensures ReadyMeansComplete(w)
  {
    forall p: nat | IsReady(At(w, p)) ensures CompleteAndReady(w.dir) {
      assert TrustedBy(w, p, p);
    }
  }

  lemma {:induction false} NoRemovalKeepsReady(w: World, events: seq<Event>)
    requires Inv(w) && Trusted(w) && Run(w, events) && NoRemovalInGap(w, events)
    ensures ReadyThroughout(w, events) && Trusted(After(w, events))
    decreases |events|
  {
    TrustedMeansComplete(w);
    if events == [] {
    } else {
      NextKeepsInv(w, events[0]);
      NextKeepsTrust(w, events[0]);
      NoRemovalKeepsReady(Next(w, events[0]), events[1..]);
    }
  }

  /** A removal in a gap leaves a claim that says ready over an absent depot. */
  lemma RemovalBreaksReady(w: World, e: Event)
    requires Enabled(w, e) && RemovalInGap(w, e)
    ensures !ReadyMeansComplete(Next(w, e))
  {
    var p: nat :| At(w, p).Regaining?;
    assert IsReady(At(Next(w, e), p)) && Next(w, e).dir.Absent?;
  }

  lemma {:induction false} ReadyMeansNoRemoval(w: World, events: seq<Event>)
    requires Run(w, events) && ReadyThroughout(w, events)
    ensures NoRemovalInGap(w, events)
    decreases |events|
  {
    if events == [] {
    } else {
      ReadyMeansNoRemoval(Next(w, events[0]), events[1..]);
      if RemovalInGap(w, events[0]) {
        RemovalBreaksReady(w, events[0]);
      }
    }
  }

  /**
   Over every interleaving and every crash, whoever holds a ready claim has a complete depot in every
   state of the run if and only if no collector takes the depot away while a ready claim is between
   letting go of the exclusive lease and regaining a shared one.
   */
  lemma EveryRunIsSafeExactly(d: Dir, events: seq<Event>)
    requires Sound(d) && Run(Start(d), events)
    ensures ReadyThroughout(Start(d), events) <==> NoRemovalInGap(Start(d), events)
  {
    assert forall r: nat :: InPlace(Start(d), r);
    assert forall p: nat, q: nat :: TrustedBy(Start(d), p, q);
    if NoRemovalInGap(Start(d), events) {
      NoRemovalKeepsReady(Start(d), events);
    }
    if ReadyThroughout(Start(d), events) {
      ReadyMeansNoRemoval(Start(d), events);
    }
  }

  /** No gap is ever open when a downgrade lets nobody in between its two steps. */
  ghost predicate Seamless(w: World, events: seq<Event>)
    decreases |events|
  {
    events == [] ||
    ((forall p: nat :: At(w, p).Regaining? ==> events[0].p == p) && Seamless(Next(w, events[0]), events[1..]))
  }

  /** With downgrades that let nobody in between, every run is safe. */
  lemma {:induction false} SeamlessRunsAreSafe(w: World, events: seq<Event>)
    requires Run(w, events) && Seamless(w, events)
    ensures NoRemovalInGap(w, events)
    decreases |events|
  {
    if events == [] {
    } else {
      SeamlessRunsAreSafe(Next(w, events[0]), events[1..]);
    }
  }

  lemma HeldSurvives(w: World, e: Event, p: nat)
    requires Inv(w) && Enabled(w, e) && At(w, p).Held?
    requires e != Close(p) && e != Crash(p)
    ensures At(Next(w, e), p).Held? && Next(w, e).dir == w.dir
  {
    assert InPlace(w, p) && InPlace(w, e.p);
  }

  /** While one process holds the depot, no claim, rollback or collection changes it. */
  lemma {:induction false} HeldDepotStays(w: World, events: seq<Event>, p: nat)
    requires Inv(w) && Run(w, events) && At(w, p).Held?
    requires Close(p) !in events && Crash(p) !in events
    ensures At(After(w, events), p).Held? && After(w, events).dir == w.dir
    ensures Trusted(w) ==> CompleteAndReady(w.dir)
    decreases |events|
  {
    assert TrustedBy(w, p, p) ==> CompleteAndReady(w.dir);
    if events == [] {
    } else {
      NextKeepsInv(w, events[0]);
      HeldSurvives(w, events[0], p);
      HeldDepotStays(Next(w, events[0]), events[1..], p);
    }
  }

  // ---- Recovery ----

  lemma {:induction false} RunStarts(w: World, e: Event, next: World, rest: seq<Event>)
    requires Enabled(w, e) && next == Next(w, e) && Run(next, rest)
    ensures Run(w, [e] + rest) && After(w, [e] + rest) == After(next, rest)
  {
    assert ([e] + rest)[1..] == rest;
  }

  function Build(p: nat): seq<Event> {
    [Cleared(p)] + ([Promote(p)] + ([Mark(p)] + ([Publish(p)] + ([Regain(p)] + []))))
  }

  function ClearAndBuild(d: Dir, p: nat): seq<Event> {
    if d.Absent? then Build(p) else [Clear(p, Absent)] + Build(p)
  }

  function ClaimAlone(d: Dir, p: nat): seq<Event> {
    [AcquireShared(p)] + ([CheckShared(p)] +
      if LooksReady(d) then [Attach(p)] + []
      else [LeaveStale(p)] + ([TryExclusive(p)] + ([CheckExclusive(p)] + ClearAndBuild(d, p))))
  }

  lemma BuildPublishes(w: World, p: nat)
    requires At(w, p).Clearing? && w.dir.Absent? && w.exclusive == Some(p)
    ensures Run(w, Build(p)) && At(After(w, Build(p)), p).Held? && CompleteAndReady(After(w, Build(p)).dir)
  {
    var w1 := Next(w, Cleared(p));
    var w2 := Next(w1, Promote(p));
    var w3 := Next(w2, Mark(p));
    var w4 := Next(w3, Publish(p));
    var w5 := Next(w4, Regain(p));
    RunStarts(w4, Regain(p), w5, []);
    RunStarts(w3, Publish(p), w4, [Regain(p)] + []);
    RunStarts(w2, Mark(p), w3, [Publish(p)] + ([Regain(p)] + []));
    RunStarts(w1, Promote(p), w2, [Mark(p)] + ([Publish(p)] + ([Regain(p)] + [])));
    RunStarts(w, Cleared(p), w1, [Promote(p)] + ([Mark(p)] + ([Publish(p)] + ([Regain(p)] + []))));
  }

  lemma ClearingPublishes(w: World, p: nat)
    requires At(w, p).Clearing? && w.exclusive == Some(p)
    ensures
      var after := After(w, ClearAndBuild(w.dir, p));
      Run(w, ClearAndBuild(w.dir, p)) && At(after, p).Held? && CompleteAndReady(after.dir)
  {
    if w.dir.Absent? {
      BuildPublishes(w, p);
    } else {
      var cleared := Next(w, Clear(p, Absent));
      BuildPublishes(cleared, p);
      RunStarts(w, Clear(p, Absent), cleared, Build(p));
    }
  }

  /**
   Whatever directory the crashes and closes left behind, a claim that meets no other lease ends
   with a complete ready depot.
   */
  lemma LoneClaimRecovers(w: World, p: nat)
    requires Inv(w) && Free(w) && At(w, p).Out?
    ensures
      var after := After(w, ClaimAlone(w.dir, p));
      Run(w, ClaimAlone(w.dir, p)) && At(after, p).Held? && CompleteAndReady(after.dir)
  {
    var w1 := Next(w, AcquireShared(p));
    var w2 := Next(w1, CheckShared(p));
    if LooksReady(w.dir) {
      var w3 := Next(w2, Attach(p));
      RunStarts(w2, Attach(p), w3, []);
      RunStarts(w1, CheckShared(p), w2, [Attach(p)] + []);
      RunStarts(w, AcquireShared(p), w1, [CheckShared(p)] + ([Attach(p)] + []));
    } else {
      var w3 := Next(w2, LeaveStale(p));
      var w4 := Next(w3, TryExclusive(p));
      var w5 := Next(w4, CheckExclusive(p));
      var rest := ClearAndBuild(w.dir, p);
      ClearingPublishes(w5, p);
      RunStarts(w4, CheckExclusive(p), w5, rest);
      RunStarts(w3, TryExclusive(p), w4, [CheckExclusive(p)] + rest);
      RunStarts(w2, LeaveStale(p), w3, [TryExclusive(p)] + ([CheckExclusive(p)] + rest));
      RunStarts(w1, CheckShared(p), w2, [LeaveStale(p)] + ([TryExclusive(p)] + ([CheckExclusive(p)] + rest)));
      RunStarts(w, AcquireShared(p), w1,
        [CheckShared(p)] + ([LeaveStale(p)] + ([TryExclusive(p)] + ([CheckExclusive(p)] + rest))));
    }
  }

  /** A publication that is overtaken: the collector finds the lease free and moves the depot away. */
  function Overtaken(p: nat, q: nat): seq<Event> {
    [Publish(p)] + ([TryCollect(q)] + ([Quarantine(q)] + ([Regain(p)] + [])))
  }

  lemma RemovalInGapLosesDepot(w: World, p: nat, q: nat)
    requires Inv(w) && At(w, p).Marked? && At(w, q).Out?
    ensures Run(w, Overtaken(p, q)) && !NoRemovalInGap(w, Overtaken(p, q))
    ensures At(After(w, Overtaken(p, q)), p).Held? && After(w, Overtaken(p, q)).dir.Absent?
  {
    assert InPlace(w, p) && InPlace(w, q);
    var w1 := Next(w, Publish(p));
    var w2 := Next(w1, TryCollect(q));
    var w3 := Next(w2, Quarantine(q));
    var w4 := Next(w3, Regain(p));
    RunStarts(w3, Regain(p), w4, []);
    RunStarts(w2, Quarantine(q), w3, [Regain(p)] + []);
    RunStarts(w1, TryCollect(q), w2, [Quarantine(q)] + ([Regain(p)] + []));
    RunStarts(w, Publish(p), w1, [TryCollect(q)] + ([Quarantine(q)] + ([Regain(p)] + [])));
    assert At(w2, p).Regaining? && RemovalInGap(w2, Quarantine(q));
    GapIsLate(w, Publish(p), w1, [TryCollect(q)] + ([Quarantine(q)] + ([Regain(p)] + [])));
    GapIsLate(w1, TryCollect(q), w2, [Quarantine(q)] + ([Regain(p)] + []));
  }

  lemma GapIsLate(w: World, e: Event, next: World, rest: seq<Event>)
    requires next == Next(w, e)
    ensures NoRemovalInGap(w, [e] + rest) ==> NoRemovalInGap(next, rest)
  {
    assert ([e] + rest)[1..] == rest;
  }

  // ---- The claim object ----

  class DepotHost {
    var world: World

    constructor (d: Dir)
      requires Sound(d)
      ensures world == Start(d) && Inv(world)
    {
      world := Start(d);
      new;
      assert forall p: nat :: InPlace(world, p);
    }
  }

  function Undone(w: World, p: nat): World {
    Next(Next(Next(w, MoveOut(p)), Discard(p, Absent)), RolledBack(p))
  }

  /** A commit whose index refresh fails leaves the marker and keeps the exclusive lease. */
  function Sealed(w: World, p: nat, refreshFails: bool): World {
    var marked := if At(w, p).Promoted? then Next(w, Mark(p)) else w;
    if refreshFails then marked else Next(Next(marked, Publish(p)), Regain(p))
  }

  lemma UndoneKeepsInv(w: World, p: nat)
    requires Inv(w) && (At(w, p).Promoted? || At(w, p).Marked?)
    ensures Inv(Undone(w, p)) && At(Undone(w, p), p).Building? && Undone(w, p).dir.Absent?
  {
    assert InPlace(w, p);
    var moved := Next(w, MoveOut(p));
    var gone := Next(moved, Discard(p, Absent));
    NextKeepsInv(w, MoveOut(p));
    NextKeepsInv(moved, Discard(p, Absent));
    NextKeepsInv(gone, RolledBack(p));
  }

  /** What other processes do while this one waits; steps they cannot take are skipped. */
  function Interfere(w: World, events: seq<Event>, p: nat): World
    decreases |events|
  {
    if events == [] then w
    else
      var e := events[0];
      Interfere(if e.p != p && Enabled(w, e) then Next(w, e) else w, events[1..], p)
  }

  lemma {:induction false} InterferenceKeepsInv(w: World, events: seq<Event>, p: nat)
    requires Inv(w)
    ensures Inv(Interfere(w, events, p)) && At(Interfere(w, events, p), p) == At(w, p)
    decreases |events|
  {
    if events == [] {
    } else {
      var e := events[0];
      if e.p != p && Enabled(w, e) {
        NextKeepsInv(w, e);
        InterferenceKeepsInv(Next(w, e), events[1..], p);
      } else {
        InterferenceKeepsInv(w, events[1..], p);
      }
    }
  }

  class DependencyDepotClaim {
    const host: DepotHost
    const p: nat
    var ready: bool
    var promoted: bool

    ghost predicate Valid()
      reads this, host
    {
      var pc := At(host.world, p);
      && Inv(host.world)
      && (if ready then pc.Held? else if promoted then pc.Promoted? || pc.Marked? else pc.Building?)
    }

    constructor (host: DepotHost, p: nat, ready: bool)
      requires Inv(host.world) && (if ready then At(host.world, p).Held? else At(host.world, p).Building?)
      ensures this.host == host && this.p == p && this.ready == ready && !promoted && Valid()
    {
      this.host, this.p, this.ready, promoted := host, p, ready, false;
    }

    /** `materialised`: Lake left a real packages directory and a manifest. */
    method Promote(materialised: bool, linkFails: bool) returns (ok: bool)
      requires Valid()
      modifies this`promoted, host
      ensures Valid()
      ensures ok == (ready || (!old(promoted) && materialised && !linkFails))
      ensures promoted == (old(promoted) || (ok && !ready))
      ensures host.world ==
        if ready || old(promoted) || !materialised then old(host.world)
        else if linkFails then Undone(Next(old(host.world), Event.Promote(p)), p)
        else Next(old(host.world), Event.Promote(p))
    {
      if ready {
        return true;
      }
      if promoted || !materialised {
        return false;
      }
      NextKeepsInv(host.world, Event.Promote(p));
      host.world := Next(host.world, Event.Promote(p));
      if linkFails {
        UndoneKeepsInv(host.world, p);
        host.world := Undone(host.world, p);
        return false;
      }
      promoted := true;
      ok := true;
    }

    method Commit(refreshFails: bool) returns (ok: bool)
      requires Valid()
      modifies this`ready, host
      ensures Valid()
      ensures ok == (old(ready) || (promoted && !refreshFails)) && ready == ok
      ensures promoted && !old(ready) ==> CompleteAndReady(host.world.dir)
      ensures host.world ==
        if old(ready) || !promoted then old(host.world) else Sealed(old(host.world), p, refreshFails)
    {
      if ready {
        return true;
      }
      if !promoted {
        return false;
      }
      if At(host.world, p).Promoted? {
        NextKeepsInv(host.world, Mark(p));
        host.world := Next(host.world, Mark(p));
      }
      assert InPlace(host.world, p);
      if refreshFails {
        return false;
      }
      NextKeepsInv(host.world, Publish(p));
      host.world := Next(host.world, Publish(p));
      ready := true;
      NextKeepsInv(host.world, Regain(p));
      host.world := Next(host.world, Regain(p));
      ok := true;
    }

    /** Packages leave a depot that was promoted and not committed; anything else stays. */
    method Rollback()
      requires Valid()
      modifies this`promoted, host
      ensures Valid()
      ensures promoted == (old(promoted) && ready)
      ensures host.world == if ready || !old(promoted) then old(host.world) else Undone(old(host.world), p)
    {
      if ready || !promoted {
        return;
      }
      UndoneKeepsInv(host.world, p);
      host.world := Undone(host.world, p);
      promoted := false;
    }

    method Close()
      requires Valid()
      modifies this`promoted, host
      ensures Inv(host.world) && At(host.world, p).Out?
      ensures p !in host.world.shared && host.world.exclusive != Some(p)
      ensures host.world.dir == if ready then old(host.world.dir) else Absent
    {
      if !ready {
        Rollback();
      }
      assert InPlace(host.world, p);
      NextKeepsInv(host.world, Event.Close(p));
      host.world := Next(host.world, Event.Close(p));
      assert InPlace(host.world, p);
    }
  }

  /** What other processes do before a round of waiting, and between its two attempts. */
  datatype Others = Others(first: seq<Event>, between: seq<Event>)

  /** Nobody is in the way, so this round decides by the directory. */
  predicate Decides(w: World, between: seq<Event>) {
    Free(w) && (LooksReady(w.dir) || between == [])
  }

  /** A claim is ready when a complete depot is there, and else it is the builder's and the leftovers are gone. */
  ghost predicate ClaimEndsWell(w: World, p: nat, ready: Option<bool>) {
    match ready
    case None => At(w, p).Out?
    case Some(true) => At(w, p).Held? && CompleteAndReady(w.dir)
    case Some(false) => At(w, p).Building? && w.dir.Absent?
  }

  method Do(host: DepotHost, e: Event)
    requires Inv(host.world) && Enabled(host.world, e)
    modifies host
    ensures host.world == Next(old(host.world), e)
    ensures Inv(host.world) && InPlace(host.world, e.p)
  {
    NextKeepsInv(host.world, e);
    host.world := Next(host.world, e);
    assert InPlace(host.world, e.p);
  }

  method FinishAttach(host: DepotHost, p: nat, attachFails: bool) returns (ready: Option<bool>)
    requires Inv(host.world) && At(host.world, p).Attaching?
    modifies host
    ensures Inv(host.world)
    ensures ready == if attachFails then None else Some(true)
    ensures if attachFails then At(host.world, p).Out? else At(host.world, p).Held? && CompleteAndReady(host.world.dir)
  {
    if attachFails {
      Do(host, AttachFails(p));
      return None;
    }
    assert InPlace(host.world, p);
    Do(host, Attach(p));
    if At(host.world, p).Regaining? {
      Do(host, Regain(p));
    }
    ready := Some(true);
  }

  method TryToBuild(host: DepotHost, p: nat, attachFails: bool) returns (over: bool, ready: Option<bool>)
    requires Inv(host.world) && At(host.world, p).Between?
    modifies host
    ensures Inv(host.world) && ClaimEndsWell(host.world, p, ready)
    ensures over == Free(old(host.world))
    ensures ready ==
      if !over then None
      else if !LooksReady(old(host.world.dir)) then Some(false)
      else if attachFails then None else Some(true)
  {
    Do(host, TryExclusive(p));
    over := At(host.world, p).ExclusiveTaken?;
    if !over {
      return over, None;
    }
    Do(host, CheckExclusive(p));
    if At(host.world, p).Attaching? {
      ready := FinishAttach(host, p, attachFails);
      return;
    }
    if host.world.dir.Present? {
      Do(host, Clear(p, Absent));
    }
    Do(host, Cleared(p));
    ready := Some(false);
  }

  /** The shared attempt, and after it the exclusive one. */
  method TryToClaim(host: DepotHost, p: nat, between: seq<Event>, attachFails: bool)
    returns (over: bool, ready: Option<bool>)
    requires Inv(host.world) && At(host.world, p).Out? && host.world.exclusive.None?
    modifies host
    ensures Inv(host.world) && ClaimEndsWell(host.world, p, ready)
    ensures !over ==> ready == None
    ensures !attachFails && Decides(old(host.world), between) ==> over && ready == Some(LooksReady(old(host.world.dir)))
  {
    Do(host, AcquireShared(p));
    Do(host, CheckShared(p));
    over := At(host.world, p).Attaching?;
    if over {
      ready := FinishAttach(host, p, attachFails);
      return;
    }
    Do(host, LeaveStale(p));
    InterferenceKeepsInv(host.world, between, p);
    host.world := Interfere(host.world, between, p);
    over, ready := TryToBuild(host, p, attachFails);
  }

  /** One round of waiting for each element of `rounds`. */
  method ClaimDependencyDepot(host: DepotHost, p: nat, rounds: seq<Others>, attachFails: bool)
    returns (ready: Option<bool>)
    requires Inv(host.world) && At(host.world, p).Out?
    modifies host
    ensures Inv(host.world) && ClaimEndsWell(host.world, p, ready)
    ensures |rounds| > 0 && !attachFails && Decides(Interfere(old(host.world), rounds[0].first, p), rounds[0].between) ==>
      ready == Some(LooksReady(Interfere(old(host.world), rounds[0].first, p).dir))
  {
    for i := 0 to |rounds|
      invariant Inv(host.world) && At(host.world, p).Out?
      invariant i == 0 ==> host.world == old(host.world)
      invariant i > 0 ==>
        attachFails || !Decides(Interfere(old(host.world), rounds[0].first, p), rounds[0].between)
    {
      InterferenceKeepsInv(host.world, rounds[i].first, p);
      host.world := Interfere(host.world, rounds[i].first, p);
      if host.world.exclusive.None? {
        var over: bool;
        over, ready := TryToClaim(host, p, rounds[i].between, attachFails);
        if over {
          return;
        }
      }
    }
    ready := None;
  }
}
