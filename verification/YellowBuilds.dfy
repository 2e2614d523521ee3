/**
 Build admission under yellow memory pressure (`BuildAdmissionController.try_acquire`).

 A full build takes a file lock, checks in one transaction that no build is active, and polls the
 store in a second one.  Targeted builds and lease upkeep run in between without the lock, so
 what the check has seen may be gone when the poll comes.
 */
module YellowBuilds {
  import opened Admission
  import opened Options
  import Reachability

  const FULL_BUILD_PRIORITY := 20

  datatype World = World(db: Db, lock: Option<string>)

  datatype Event =
    | Check(process: string, now: int)
    | Poll(process: string, now: int, req: Request)
    | Die(process: string)
    | Targeted(now: int, req: Request)
    | Other(op: Op)

  ghost predicate Enabled(w: World, e: Event) {
    match e
    case Check(_, _) => w.lock == None
    case Poll(process, _, req) => w.lock == Some(process) && req.resource == BUILD
    case Die(process) => w.lock == Some(process)
    case Targeted(_, req) => req.resource == BUILD && req.priority < FULL_BUILD_PRIORITY
    case Other(op) => op.TryAcquireOp? ==> op.req.resource != BUILD
  }

  /**
   A failed check releases the lock at once; a poll releases it whatever the answer; and the lock of a
   process that dies between the two is free.
   */
  ghost function Next(w: World, e: Event): World {
    match e
    case Check(process, now) =>
      var seen := Prune(w.db, now);
      World(seen, if Active(seen, BUILD) >= 1 then None else Some(process))
    case Poll(_, now, req) => World(TryAcquire(w.db, now, req).0, None)
    case Die(_) => w.(lock := None)
    case Targeted(now, req) => w.(db := TryAcquire(w.db, now, req).0)
    case Other(op) => w.(db := Step(w.db, op))
  }

  ghost predicate Possible(w: World, events: seq<Event>)
    decreases |events|
  {
    events == [] || (Enabled(w, events[0]) && Possible(Next(w, events[0]), events[1..]))
  }

  ghost function After(w: World, events: seq<Event>): World
    decreases |events|
  {
    if events == [] then w else After(Next(w, events[0]), events[1..])
  }

  ghost function FullBuilds(db: Db): set<nat> {
    set id | id in db.leases && db.leases[id].slot.0 == BUILD && db.leases[id].priority >= FULL_BUILD_PRIORITY
  }

  /** At most one full build, and none while somebody is between check and poll. */
  ghost predicate OneFullBuild(w: World) {
    && Inv(w.db)
    && |FullBuilds(w.db)| <= 1
    && (w.lock.Some? ==> FullBuilds(w.db) == {})
  }

  /** A poll adds a full build only if it asks for one. */
  lemma PollAddsFullBuild(db: Db, now: int, req: Request)
    ensures FullBuilds(TryAcquire(db, now, req).0) <=
            FullBuilds(db) + if req.resource == BUILD && req.priority >= FULL_BUILD_PRIORITY then {db.nextLease} else {}
  {
    TryAcquireLeases(db, now, req);
  }

  lemma OtherAddsNone(db: Db, op: Op)
    requires op.TryAcquireOp? ==> op.req.resource != BUILD
    ensures FullBuilds(Step(db, op)) <= FullBuilds(db)
  {
    if op.TryAcquireOp? {
      PollAddsFullBuild(db, op.now, op.req);
    }
  }

  lemma FullBuildIsActive(db: Db)
    ensures FullBuilds(db) <= ActiveIds(db, BUILD)
  {
  }

  lemma NextKeepsInv(w: World, e: Event)
    requires Inv(w.db)
    ensures Inv(Next(w, e).db)
  {
    match e
    case Check(_, now) => PruneKeepsInv(w.db, now);
    case Poll(_, now, req) => TryAcquireKeepsInv(w.db, now, req);
    case Die(_) =>
    case Targeted(now, req) => TryAcquireKeepsInv(w.db, now, req);
    case Other(op) => StepKeepsInv(w.db, op);
  }

  lemma NextFullBuilds(w: World, e: Event)
    requires Enabled(w, e)
    ensures FullBuilds(Next(w, e).db) <= FullBuilds(w.db) + if e.Poll? then {w.db.nextLease} else {}
    ensures e.Check? && Next(w, e).lock.Some? ==> FullBuilds(Next(w, e).db) == {}
  {
    match e
    case Check(_, now) => FullBuildIsActive(Prune(w.db, now));
    case Poll(_, now, req) => PollAddsFullBuild(w.db, now, req);
    case Die(_) =>
    case Targeted(now, req) => PollAddsFullBuild(w.db, now, req);
    case Other(op) => OtherAddsNone(w.db, op);
  }

  lemma NextKeepsOne(w: World, e: Event)
    requires OneFullBuild(w) && Enabled(w, e)
    ensures OneFullBuild(Next(w, e))
  {
    NextKeepsInv(w, e);
    NextFullBuilds(w, e);
    if e.Poll? {
      Reachability.SubsetSize(FullBuilds(Next(w, e).db), {w.db.nextLease});
    } else {
      Reachability.SubsetSize(FullBuilds(Next(w, e).db), FullBuilds(w.db));
    }
  }

  /** The check lets a full build through exactly when every build lease has expired. */
  lemma CheckIsExact(w: World, process: string, now: int)
    requires w.lock.None?
    ensures Next(w, Check(process, now)).lock == Some(process) <==>
            forall id :: id in w.db.leases && w.db.leases[id].slot.0 == BUILD ==> w.db.leases[id].expiresAt <= now
  {
    var active := ActiveIds(Prune(w.db, now), BUILD);
    assert active == {} <==> |active| == 0;
    forall id | id in w.db.leases && w.db.leases[id].slot.0 == BUILD
      ensures id in active <==> w.db.leases[id].expiresAt > now
    {
    }
  }

  /** With a slot to give, a full build that meets no other build and no other waiter is admitted. */
  lemma LoneFullBuildIsAdmitted(w: World, process: string, now: int, req: Request)
    requires w.lock.None? && req.resource == BUILD && Limit(w.db, BUILD) > 0
    requires forall id :: id in w.db.leases && w.db.leases[id].slot.0 == BUILD ==> w.db.leases[id].expiresAt <= now
    requires forall s :: s in w.db.waiters && s.0 == BUILD && s != req.Slot() ==> w.db.waiters[s].expiresAt <= now
    ensures var checked := Next(w, Check(process, now));
            && Enabled(checked, Poll(process, now, req))
            && HasLease(Next(checked, Poll(process, now, req)).db, req.Slot())
  {
    CheckIsExact(w, process, now);
    var pruned := Prune(Prune(w.db, now), now);
    var queued := Enqueue(pruned, now, req);
    assert ActiveIds(queued, BUILD) == {};
    assert Earlier(queued, req.Slot()) == {};
    assert !HasLease(pruned, req.Slot());
    assert Holds(Grant(queued, now, req), req.Slot(), queued.nextLease);
  }

  /** Whatever the limit and the interleaving, yellow pressure admits one full build at a time. */
  lemma {:induction false} YellowAdmitsOneFullBuild(w: World, events: seq<Event>)
    requires OneFullBuild(w) && Possible(w, events)
    ensures OneFullBuild(After(w, events))
    decreases |events|
  {
    if events == [] {
    } else {
      NextKeepsOne(w, events[0]);
      YellowAdmitsOneFullBuild(Next(w, events[0]), events[1..]);
    }
  }
}
