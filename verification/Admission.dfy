/**
 The admission store of `concurrency/admission.py`: limits, ticketed waiters and expiring
 leases in one database that many processes step, one transaction at a time.  `AdmissionStore`
 performs the transactions in place.
 */
module Admission {
  import opened Options

  datatype Resource = AI | LEAN | BUILD

  /** `ttl` is positive and `owner` is not blank, or the request cannot be constructed. */
  datatype Request = Request(resource: Resource, priority: int, owner: string, ttl: int, requestId: Option<string>)
  {
    function Key(): string {
      if requestId.Some? && requestId.value != "" then requestId.value else owner
    }

    function Slot(): (Resource, string) {
      (resource, Key())
    }
  }

  type Slot = (Resource, string)

  datatype Waiter = Waiter(ticket: nat, owner: string, priority: int, requestedAt: int, expiresAt: int, ttl: int)

  datatype Lease = Lease(slot: Slot, owner: string, priority: int,
                         acquiredAt: int, heartbeatAt: int, expiresAt: int, ttl: int)

  /**
   The database between transactions; each operation is a function on it.
   `waiters` is keyed by its UNIQUE(resource, request_id); `leases` by its primary key.
   Tickets come from AUTOINCREMENT and lease ids from uuid4: neither is ever used twice.
   `state` is the controller_state table, payloads encoded.
   */
  datatype Db = Db(
    limits: map<Resource, nat>,
    waiters: map<Slot, Waiter>,
    leases: map<nat, Lease>,
    nextTicket: nat,
    nextLease: nat,
    state: map<Slot, string>)

  datatype Outcome = Granted(id: nat) | Queued | NotConfigured

  function Max(a: int, b: int): int {
    if a > b then a else b
  }

  // ---- Transactions ----

  function Prune(db: Db, now: int): Db {
    db.(leases := map id | id in db.leases && db.leases[id].expiresAt > now :: db.leases[id],
        waiters := map s | s in db.waiters && db.waiters[s].expiresAt > now :: db.waiters[s])
  }

  function ActiveIds(db: Db, resource: Resource): set<nat> {
    set id | id in db.leases && db.leases[id].slot.0 == resource
  }

  function Active(db: Db, resource: Resource): nat {
    |ActiveIds(db, resource)|
  }

  predicate Holds(db: Db, slot: Slot, id: nat) {
    id in db.leases && db.leases[id].slot == slot
  }

  predicate HasLease(db: Db, slot: Slot) {
    exists id | id in db.leases :: Holds(db, slot, id)
  }

  /** Smaller priority values run first; ties go to the older ticket. */
  predicate Before(a: Waiter, b: Waiter) {
    a.priority < b.priority || (a.priority == b.priority && a.ticket < b.ticket)
  }

  function Earlier(db: Db, slot: Slot): set<Slot>
    requires slot in db.waiters
  {
    set s | s in db.waiters && s.0 == slot.0 && Before(db.waiters[s], db.waiters[slot])
  }

  function Limit(db: Db, resource: Resource): nat {
    if resource in db.limits then db.limits[resource] else 0
  }

  /** Free slots; a lowered limit can leave more leases than slots. */
  function Available(db: Db, resource: Resource): nat {
    Max(0, Limit(db, resource) - Active(db, resource))
  }

  function WaiterExpiry(now: int, ttl: int): int {
    now + Max(60, 4 * ttl)
  }

  /** A poll inserts the waiter or refreshes it; the ticket is kept. */
  function Enqueue(db: Db, now: int, req: Request): Db {
    if req.Slot() in db.waiters then
      db.(waiters := db.waiters[req.Slot() := db.waiters[req.Slot()].(
            owner := req.owner, priority := req.priority, expiresAt := WaiterExpiry(now, req.ttl), ttl := req.ttl)])
    else
      db.(waiters := db.waiters[req.Slot() :=
            Waiter(db.nextTicket, req.owner, req.priority, now, WaiterExpiry(now, req.ttl), req.ttl)],
          nextTicket := db.nextTicket + 1)
  }

  predicate Admissible(db: Db, slot: Slot)
    requires slot in db.waiters
  {
    Available(db, slot.0) != 0 && |Earlier(db, slot)| < Available(db, slot.0)
  }

  function Grant(db: Db, now: int, req: Request): Db {
    db.(leases := db.leases[db.nextLease :=
          Lease(req.Slot(), req.owner, req.priority, now, now, now + req.ttl, req.ttl)],
        waiters := db.waiters - {req.Slot()},
        nextLease := db.nextLease + 1)
  }

  function Decide(queued: Db, now: int, req: Request): (Db, Outcome)
    requires req.Slot() in queued.waiters
  {
    if Admissible(queued, req.Slot()) then (Grant(queued, now, req), Granted(queued.nextLease))
    else (queued, Queued)
  }

  ghost function TryAcquire(db: Db, now: int, req: Request): (r: (Db, Outcome)) {
    var pruned := Prune(db, now);
    if id :| Holds(pruned, req.Slot(), id) then (pruned, Granted(id))
    else
      var queued := Enqueue(pruned, now, req);
      if req.resource !in db.limits then (db, NotConfigured) else Decide(queued, now, req)
  }

  function Span(lease: Lease, ttl: Option<int>): int {
    if ttl.Some? && ttl.value != 0 then ttl.value else lease.ttl
  }

  /** A missing or zero `ttl` means the lease's own; a negative one is refused and rolled back. */
  function Heartbeat(db: Db, now: int, id: nat, ttl: Option<int>): Db {
    var pruned := Prune(db, now);
    if id !in pruned.leases then pruned
    else
      var lease := pruned.leases[id];
      var span := Span(lease, ttl);
      if span <= 0 then db
      else pruned.(leases := pruned.leases[id := lease.(heartbeatAt := now, expiresAt := now + span, ttl := span)])
  }

  function Release(db: Db, id: nat): Db {
    db.(leases := db.leases - {id})
  }

  function Cancel(db: Db, slot: Slot): Db {
    db.(waiters := db.waiters - {slot})
  }

  function EnsureLimit(db: Db, resource: Resource, limit: int): Db {
    if limit < 0 || resource in db.limits then db else db.(limits := db.limits[resource := limit])
  }

  function SetLimit(db: Db, resource: Resource, limit: int): Db {
    if limit < 0 then db else db.(limits := db.limits[resource := limit])
  }

  /** Publish a changed configuration; an unchanged one leaves adaptive limits alone. */
  function SyncLimits(db: Db, marker: Slot, payload: string, limits: map<Resource, int>): Db {
    if exists r | r in limits :: limits[r] < 0 then db
    else if marker in db.state && db.state[marker] == payload then db
    else db.(limits := db.limits + map r: Resource | r in limits && limits[r] >= 0 :: limits[r],
             state := db.state[marker := payload])
  }

  // ---- The invariant ----

  ghost predicate Inv(db: Db) {
    && (forall id :: id in db.leases ==> id < db.nextLease)
    && (forall i, j :: i in db.leases && j in db.leases && i != j ==> db.leases[i].slot != db.leases[j].slot)
    && (forall s :: s in db.waiters ==> db.waiters[s].ticket < db.nextTicket)
    && (forall s, t :: s in db.waiters && t in db.waiters && s != t ==> db.waiters[s].ticket != db.waiters[t].ticket)
    && (forall id :: id in db.leases ==> db.leases[id].slot !in db.waiters)
  }

  datatype Op =
    | EnsureLimitOp(resource: Resource, limit: int)
    | SetLimitOp(resource: Resource, limit: int)
    | SyncLimitsOp(marker: Slot, payload: string, limits: map<Resource, int>)
    | TryAcquireOp(now: int, req: Request)
    | HeartbeatOp(now: int, id: nat, ttl: Option<int>)
    | ReleaseOp(id: nat)
    | CancelOp(slot: Slot)
    | SnapshotOp(now: int)

  ghost function Step(db: Db, op: Op): Db {
    match op
    case EnsureLimitOp(r, n) => EnsureLimit(db, r, n)
    case SetLimitOp(r, n) => SetLimit(db, r, n)
    case SyncLimitsOp(m, p, ls) => SyncLimits(db, m, p, ls)
    case TryAcquireOp(now, req) => TryAcquire(db, now, req).0
    case HeartbeatOp(now, id, ttl) => Heartbeat(db, now, id, ttl)
    case ReleaseOp(id) => Release(db, id)
    case CancelOp(slot) => Cancel(db, slot)
    case SnapshotOp(now) => Prune(db, now)
  }

  /** Any interleaving of the transactions of any number of processes. */
  ghost function Run(db: Db, ops: seq<Op>): Db
    decreases |ops|
  {
    if ops == [] then db else Run(Step(db, ops[0]), ops[1..])
  }

  lemma PruneKeepsInv(db: Db, now: int)
    requires Inv(db)
    ensures Inv(Prune(db, now))
  {
  }

  lemma EnqueueKeepsInv(db: Db, now: int, req: Request)
    requires Inv(db) && !HasLease(db, req.Slot())
    ensures Inv(Enqueue(db, now, req))
  {
    forall id | id in db.leases ensures db.leases[id].slot != req.Slot() {
      assert db.leases[id].slot == req.Slot() ==> Holds(db, req.Slot(), id);
    }
  }

  lemma GrantKeepsInv(db: Db, now: int, req: Request)
    requires Inv(db) && req.Slot() in db.waiters
    ensures Inv(Grant(db, now, req))
  {
  }

  lemma TryAcquireKeepsInv(db: Db, now: int, req: Request)
    requires Inv(db)
    ensures Inv(TryAcquire(db, now, req).0)
  {
    var pruned := Prune(db, now);
    PruneKeepsInv(db, now);
    if !HasLease(pruned, req.Slot()) {
      EnqueueKeepsInv(pruned, now, req);
      GrantKeepsInv(Enqueue(pruned, now, req), now, req);
    }
  }

  lemma StepKeepsInv(db: Db, op: Op)
    requires Inv(db)
    ensures Inv(Step(db, op))
  {
    match op
    case TryAcquireOp(now, req) => TryAcquireKeepsInv(db, now, req);
    case HeartbeatOp(now, id, ttl) => PruneKeepsInv(db, now);
    case SnapshotOp(now) => PruneKeepsInv(db, now);
    case _ =>
  }

  lemma {:induction false} RunKeepsInv(db: Db, ops: seq<Op>)
    requires Inv(db)
    ensures Inv(Run(db, ops))
    decreases |ops|
  {
    if ops == [] {
    } else {
      StepKeepsInv(db, ops[0]);
      RunKeepsInv(Step(db, ops[0]), ops[1..]);
    }
  }

  // ---- Who is granted ----

  /** Waiters of `resource` with fewer waiters before them than there are free slots. */
  ghost function Front(db: Db, resource: Resource): set<Slot> {
    set s | s in db.waiters && s.0 == resource && |Earlier(db, s)| < Limit(db, resource) - Active(db, resource)
  }

  /** `line` lists the waiters of `resource`, first in line first. */
  ghost predicate IsLine(db: Db, resource: Resource, line: seq<Slot>) {
    && (forall s :: s in line <==> s in db.waiters && s.0 == resource)
    && (forall i, j :: 0 <= i < j < |line| ==> Before(db.waiters[line[i]], db.waiters[line[j]]))
  }

  ghost function Elements(line: seq<Slot>): set<Slot> {
    set s | s in line
  }

  lemma {:induction false} PrefixSize(line: seq<Slot>, k: nat)
    requires k <= |line| && forall i, j :: 0 <= i < j < |line| ==> line[i] != line[j]
    ensures |Elements(line[..k])| == k
  {
    if k == 0 {
    } else {
      PrefixSize(line, k - 1);
      assert line[..k] == line[..k - 1] + [line[k - 1]];
      assert Elements(line[..k]) == Elements(line[..k - 1]) + {line[k - 1]};
    }
  }

  /** The counting test of the SQL query is the position in line. */
  lemma EarlierIsPosition(db: Db, resource: Resource, line: seq<Slot>, k: nat)
    requires IsLine(db, resource, line) && k < |line|
    ensures |Earlier(db, line[k])| == k
  {
    forall i, j | 0 <= i < j < |line| ensures line[i] != line[j] {
      assert Before(db.waiters[line[i]], db.waiters[line[j]]);
    }
    assert Earlier(db, line[k]) == Elements(line[..k]);
    PrefixSize(line, k);
  }

  /** The front is the first `limit - active` of the line. */
  lemma FrontIsPrefixOfLine(db: Db, resource: Resource, line: seq<Slot>, k: nat)
    requires IsLine(db, resource, line) && k < |line|
    ensures line[k] in Front(db, resource) <==> k < Limit(db, resource) - Active(db, resource)
  {
    EarlierIsPosition(db, resource, line, k);
  }

  /** Every state has a line: tickets leave no ties. */
  lemma {:induction false} LineExists(db: Db, resource: Resource, some: set<Slot>) returns (line: seq<Slot>)
    requires Inv(db)
    requires forall s :: s in some ==> s in db.waiters && s.0 == resource
    ensures forall s :: s in line <==> s in some
    ensures forall i, j :: 0 <= i < j < |line| ==> Before(db.waiters[line[i]], db.waiters[line[j]])
    decreases |some|
  {
    if some == {} {
      line := [];
    } else {
      var first := FirstOf(db, some);
      var rest := LineExists(db, resource, some - {first});
      line := [first] + rest;
    }
  }

  lemma {:induction false} FirstOf(db: Db, some: set<Slot>) returns (first: Slot)
    requires Inv(db) && some != {} && forall s :: s in some ==> s in db.waiters
    ensures first in some
    ensures forall s :: s in some && s != first ==> Before(db.waiters[first], db.waiters[s])
    decreases |some|
  {
    var one :| one in some;
    var rest := some - {one};
    first := one;
    if rest != {} {
      var other := FirstOf(db, rest);
      if !Before(db.waiters[one], db.waiters[other]) {
        first := other;
        assert Before(db.waiters[other], db.waiters[one]);
      }
      forall s | s in some && s != first ensures Before(db.waiters[first], db.waiters[s]) {
        assert s == one || s in rest;
      }
    } else {
      assert forall s :: s in some ==> s == one || s in rest;
    }
  }

  /** Nothing in the database has expired. */
  ghost predicate Fresh(db: Db, now: int) {
    && (forall id :: id in db.leases ==> db.leases[id].expiresAt > now)
    && (forall s :: s in db.waiters ==> db.waiters[s].expiresAt > now)
  }

  /** A poll for a waiting request that asks for the same priority again. */
  ghost predicate Repoll(db: Db, req: Request) {
    && req.ttl > 0
    && (HasLease(db, req.Slot())
        || (req.Slot() in db.waiters && db.waiters[req.Slot()].priority == req.priority))
  }

  lemma FreshPruneIsIdle(db: Db, now: int)
    requires Fresh(db, now)
    ensures Prune(db, now) == db
  {
  }

  /** With nothing expired, a poll either returns the lease, or refreshes, or refreshes and grants. */
  lemma FreshPoll(db: Db, now: int, req: Request)
    requires Inv(db) && Fresh(db, now) && Repoll(db, req) && req.resource in db.limits
    ensures var after := TryAcquire(db, now, req).0;
            if HasLease(db, req.Slot()) then after == db
            else if req.Slot() in Front(db, req.resource) then after == Grant(Enqueue(db, now, req), now, req)
            else after == Enqueue(db, now, req)
  {
    FreshPruneIsIdle(db, now);
    if HasLease(db, req.Slot()) {
      var id :| id in db.leases && Holds(db, req.Slot(), id);
    } else {
      RefreshKeepsFront(db, now, req);
    }
  }

  lemma GrantAddsOneLease(db: Db, now: int, req: Request, s: Slot)
    requires Inv(db)
    ensures HasLease(Grant(db, now, req), s) <==> HasLease(db, s) || s == req.Slot()
  {
    var after := Grant(db, now, req);
    if s == req.Slot() {
      assert Holds(after, s, db.nextLease);
    }
    if HasLease(db, s) {
      var id :| id in db.leases && Holds(db, s, id);
      assert Holds(after, s, id);
    }
    if HasLease(after, s) && s != req.Slot() {
      var id :| id in after.leases && Holds(after, s, id);
      assert Holds(db, s, id);
    }
  }

  lemma SameLeases(a: Db, b: Db, s: Slot)
    requires a.leases == b.leases
    ensures HasLease(a, s) <==> HasLease(b, s)
  {
    assert forall id :: Holds(a, s, id) <==> Holds(b, s, id);
  }

  lemma RefreshKeepsLeases(db: Db, now: int, req: Request)
    ensures forall s :: HasLease(Enqueue(db, now, req), s) <==> HasLease(db, s)
  {
    forall s ensures HasLease(Enqueue(db, now, req), s) <==> HasLease(db, s) {
      SameLeases(db, Enqueue(db, now, req), s);
    }
  }

  /** A refreshed waiter that was in front gets its lease, and nobody else moves. */
  lemma GrantAfterRefresh(db: Db, now: int, req: Request)
    requires Inv(db) && Fresh(db, now) && Repoll(db, req) && req.Slot() in Front(db, req.resource)
    ensures var after := Grant(Enqueue(db, now, req), now, req);
            && Front(after, req.resource) == Front(db, req.resource) - {req.Slot()}
            && forall s :: HasLease(after, s) <==> HasLease(db, s) || s == req.Slot()
  {
    var queued := Enqueue(db, now, req);
    NoLeaseInFront(db, req.Slot());
    RefreshKeepsFront(db, now, req);
    RefreshKeepsLeases(db, now, req);
    GrantShrinksFront(queued, now, req);
    forall s ensures HasLease(Grant(queued, now, req), s) <==> HasLease(db, s) || s == req.Slot() {
      GrantAddsOneLease(queued, now, req, s);
    }
  }

  lemma NoLeaseInFront(db: Db, slot: Slot)
    requires Inv(db)
    ensures HasLease(db, slot) ==> slot !in db.waiters
  {
    if id :| id in db.leases && Holds(db, slot, id) {
      assert db.leases[id].slot !in db.waiters;
    }
  }

  /** One poll: a lease exactly for the front of the line, and nobody else moves. */
  lemma PollGrantsFront(db: Db, now: int, req: Request)
    requires Inv(db) && Fresh(db, now) && Repoll(db, req) && req.resource in db.limits
    ensures var after := TryAcquire(db, now, req).0;
            && after.limits == db.limits
            && Front(after, req.resource) == Front(db, req.resource) - {req.Slot()}
            && forall s :: HasLease(after, s) <==>
                 HasLease(db, s) || (s == req.Slot() && s in Front(db, req.resource))
  {
    FreshPoll(db, now, req);
    NoLeaseInFront(db, req.Slot());
    if req.Slot() in Front(db, req.resource) {
      GrantAfterRefresh(db, now, req);
    } else if !HasLease(db, req.Slot()) {
      RefreshKeepsFront(db, now, req);
      RefreshKeepsLeases(db, now, req);
    }
  }

  /** After a poll the other requests can be polled just as before. */
  lemma PollKeepsRepoll(db: Db, now: int, req: Request, other: Request)
    requires Inv(db) && Fresh(db, now) && Repoll(db, req) && req.resource in db.limits
    requires Repoll(db, other) && other.resource == req.resource
    ensures Fresh(TryAcquire(db, now, req).0, now)
    ensures Repoll(TryAcquire(db, now, req).0, other)
  {
    FreshPoll(db, now, req);
    PollGrantsFront(db, now, req);
  }

  lemma RefreshKeepsFront(db: Db, now: int, req: Request)
    requires Inv(db) && req.ttl > 0
    requires req.Slot() in db.waiters && db.waiters[req.Slot()].priority == req.priority
    ensures var queued := Enqueue(db, now, req);
            && Inv(queued)
            && Front(queued, req.resource) == Front(db, req.resource)
            && (Admissible(queued, req.Slot()) <==> req.Slot() in Front(db, req.resource))
            && (Fresh(db, now) ==> Fresh(queued, now))
  {
    var queued := Enqueue(db, now, req);
    forall s | s in db.waiters ensures Earlier(queued, s) == Earlier(db, s) {
    }
    assert ActiveIds(queued, req.resource) == ActiveIds(db, req.resource);
  }

  /** Granting one admissible waiter leaves every other admissible waiter admissible. */
  lemma GrantShrinksFront(db: Db, now: int, req: Request)
    requires Inv(db) && req.Slot() in Front(db, req.resource)
    ensures Front(Grant(db, now, req), req.resource) == Front(db, req.resource) - {req.Slot()}
  {
    var slot, after := req.Slot(), Grant(db, now, req);
    assert ActiveIds(after, req.resource) == ActiveIds(db, req.resource) + {db.nextLease};
    forall s | s in after.waiters && s.0 == req.resource
      ensures s in Front(after, req.resource) <==> s in Front(db, req.resource)
    {
      assert Earlier(after, s) == Earlier(db, s) - {slot};
      if slot !in Earlier(db, s) {
        assert Before(db.waiters[s], db.waiters[slot]);
        EarlierNests(db, s, slot);
      }
    }
  }

  lemma EarlierNests(db: Db, s: Slot, t: Slot)
    requires s in db.waiters && t in db.waiters && s.0 == t.0 && Before(db.waiters[s], db.waiters[t])
    ensures |Earlier(db, s)| < |Earlier(db, t)|
  {
    var a, b := Earlier(db, s) + {s}, Earlier(db, t);
    assert a <= b && s !in Earlier(db, s);
    assert b == a + (b - a);
  }

  ghost function PollAll(db: Db, now: int, reqs: seq<Request>): Db
    decreases |reqs|
  {
    if reqs == [] then db else PollAll(TryAcquire(db, now, reqs[0]).0, now, reqs[1..])
  }

  ghost function PolledSlots(reqs: seq<Request>): set<Slot> {
    set req | req in reqs :: req.Slot()
  }

  /**
   Polling waiters in any order and any number of times, nothing else changing, gives a lease
   to exactly those that were in front at the start.
   */
  lemma {:induction false} PollingGrantsTheFront(db: Db, now: int, resource: Resource, reqs: seq<Request>, s: Slot)
    requires Inv(db) && Fresh(db, now) && resource in db.limits
    requires forall req :: req in reqs ==> req.resource == resource && Repoll(db, req)
    ensures HasLease(PollAll(db, now, reqs), s) <==>
            HasLease(db, s) || (s in Front(db, resource) && s in PolledSlots(reqs))
    decreases |reqs|
  {
    if reqs == [] {
    } else {
      var next := TryAcquire(db, now, reqs[0]).0;
      assert reqs == [reqs[0]] + reqs[1..];
      assert PolledSlots(reqs) == PolledSlots(reqs[1..]) + {reqs[0].Slot()};
      NextPoll(db, now, resource, reqs, s);
      PollingGrantsTheFront(next, now, resource, reqs[1..], s);
    }
  }

  lemma NextPoll(db: Db, now: int, resource: Resource, reqs: seq<Request>, s: Slot)
    requires Inv(db) && Fresh(db, now) && resource in db.limits && reqs != []
    requires forall req :: req in reqs ==> req.resource == resource && Repoll(db, req)
    ensures var next := TryAcquire(db, now, reqs[0]).0;
            && Inv(next) && Fresh(next, now) && next.limits == db.limits
            && (forall req :: req in reqs ==> Repoll(next, req))
            && Front(next, resource) == Front(db, resource) - {reqs[0].Slot()}
            && (HasLease(next, s) <==> HasLease(db, s) || (s == reqs[0].Slot() && s in Front(db, resource)))
  {
    assert reqs[0] in reqs;
    PollGrantsFront(db, now, reqs[0]);
    TryAcquireKeepsInv(db, now, reqs[0]);
    forall req | req in reqs ensures Repoll(TryAcquire(db, now, reqs[0]).0, req) {
      PollKeepsRepoll(db, now, reqs[0], req);
    }
    PollKeepsRepoll(db, now, reqs[0], reqs[0]);
  }

  /** A poll without a lease is decided on the queued state. */
  lemma QueuedPoll(db: Db, now: int, req: Request)
    requires !HasLease(Prune(db, now), req.Slot()) && req.resource in db.limits
    ensures TryAcquire(db, now, req) == Decide(Enqueue(Prune(db, now), now, req), now, req)
  {
  }

  lemma AdmissibleByPosition(db: Db, resource: Resource, line: seq<Slot>, k: nat)
    requires IsLine(db, resource, line) && k < |line|
    ensures Admissible(db, line[k]) <==> k < Limit(db, resource) - Active(db, resource)
  {
    EarlierIsPosition(db, resource, line, k);
  }

  lemma QueueingKeepsRoom(db: Db, now: int, req: Request, resource: Resource)
    ensures var queued := Enqueue(Prune(db, now), now, req);
            && Limit(queued, resource) == Limit(db, resource)
            && Active(queued, resource) == Active(Prune(db, now), resource)
  {
    assert ActiveIds(Enqueue(Prune(db, now), now, req), resource) == ActiveIds(Prune(db, now), resource);
  }

  /** Any poll, whatever expired meanwhile: a new lease exactly when the free slots reach that far. */
  lemma GrantedByPosition(db: Db, now: int, req: Request, line: seq<Slot>, k: nat)
    requires Inv(db) && req.resource in db.limits && !HasLease(Prune(db, now), req.Slot())
    requires IsLine(Enqueue(Prune(db, now), now, req), req.resource, line)
    requires k < |line| && line[k] == req.Slot()
    ensures TryAcquire(db, now, req).1.Granted? <==>
            k < Limit(db, req.resource) - Active(Prune(db, now), req.resource)
  {
    QueuedPoll(db, now, req);
    AdmissibleByPosition(Enqueue(Prune(db, now), now, req), req.resource, line, k);
    QueueingKeepsRoom(db, now, req, req.resource);
  }

  // ---- Whole runs ----

  /** Every limit published for `resource` along the run, and the one in force at the start. */
  ghost predicate LimitsAtMost(db: Db, ops: seq<Op>, resource: Resource, most: nat) {
    && (resource in db.limits ==> db.limits[resource] <= most)
    && forall op :: op in ops ==> PublishesAtMost(op, resource, most)
  }

  ghost predicate PublishesAtMost(op: Op, resource: Resource, most: nat) {
    match op
    case EnsureLimitOp(r, n) => r == resource ==> n <= most
    case SetLimitOp(r, n) => r == resource ==> n <= most
    case SyncLimitsOp(_, _, ls) => resource in ls ==> ls[resource] <= most
    case _ => true
  }

  lemma ActiveAlongAPoll(db: Db, now: int, req: Request, resource: Resource)
    requires Inv(db)
    ensures Active(Prune(db, now), resource) <= Active(db, resource)
    ensures Active(Enqueue(db, now, req), resource) == Active(db, resource)
    ensures Active(Grant(db, now, req), resource) ==
            Active(db, resource) + if req.resource == resource then 1 else 0
  {
    ActiveShrinks(db, Prune(db, now), resource);
    assert ActiveIds(Enqueue(db, now, req), resource) == ActiveIds(db, resource);
    GrantAddsOne(db, now, req, resource);
  }

  lemma DecisionAddsWithinLimit(queued: Db, now: int, req: Request, resource: Resource)
    requires Inv(queued) && req.Slot() in queued.waiters
    ensures var after := Decide(queued, now, req).0;
            || Active(after, resource) == Active(queued, resource)
            || (req.resource == resource
                && Active(after, resource) == Active(queued, resource) + 1 <= Limit(queued, resource))
  {
    ActiveAlongAPoll(queued, now, req, resource);
  }

  lemma TryAcquireAddsWithinLimit(db: Db, now: int, req: Request, resource: Resource)
    requires Inv(db)
    ensures var after := TryAcquire(db, now, req).0;
            || Active(after, resource) <= Active(db, resource)
            || (&& req.resource == resource && resource in db.limits
                && Active(after, resource) == Active(Prune(db, now), resource) + 1 <= db.limits[resource])
  {
    var pruned := Prune(db, now);
    PruneKeepsInv(db, now);
    ActiveShrinks(db, pruned, resource);
    if !HasLease(pruned, req.Slot()) && req.resource in db.limits {
      QueuedPoll(db, now, req);
      EnqueueKeepsInv(pruned, now, req);
      QueueingKeepsRoom(db, now, req, resource);
      DecisionAddsWithinLimit(Enqueue(pruned, now, req), now, req, resource);
    }
  }

  lemma OneMore(ids: set<nat>, id: nat)
    requires id !in ids
    ensures |ids + {id}| == |ids| + 1
  {
  }

  lemma GrantActiveIds(db: Db, now: int, req: Request, resource: Resource)
    requires forall id :: id in db.leases ==> id < db.nextLease
    ensures db.nextLease !in ActiveIds(db, resource)
    ensures ActiveIds(Grant(db, now, req), resource) ==
            if req.resource == resource then ActiveIds(db, resource) + {db.nextLease} else ActiveIds(db, resource)
  {
  }

  lemma GrantAddsOne(db: Db, now: int, req: Request, resource: Resource)
    requires forall id :: id in db.leases ==> id < db.nextLease
    ensures Active(Grant(db, now, req), resource) ==
            if req.resource == resource then Active(db, resource) + 1 else Active(db, resource)
  {
    GrantActiveIds(db, now, req, resource);
    OneMore(ActiveIds(db, resource), db.nextLease);
  }

  /** The lease count of a resource grows only up to the limit in force. */
  lemma StepAddsWithinLimit(db: Db, op: Op, resource: Resource)
    requires Inv(db)
    ensures Active(Step(db, op), resource) <= Active(db, resource)
            || (&& op.TryAcquireOp? && op.req.resource == resource && resource in db.limits
                && Active(Step(db, op), resource) == Active(Prune(db, op.now), resource) + 1 <= db.limits[resource])
  {
    if op.TryAcquireOp? {
      TryAcquireAddsWithinLimit(db, op.now, op.req, resource);
    } else {
      ActiveShrinks(db, Step(db, op), resource);
    }
  }

  lemma ActiveShrinks(db: Db, after: Db, resource: Resource)
    requires forall id :: id in after.leases ==> id in db.leases && after.leases[id].slot == db.leases[id].slot
    ensures Active(after, resource) <= Active(db, resource)
  {
    var a, b := ActiveIds(after, resource), ActiveIds(db, resource);
    assert a <= b;
    assert b == a + (b - a);
  }

  /** Leases never outnumber the largest limit that was ever published. */
  lemma {:induction false} LeasesStayWithinLimits(db: Db, ops: seq<Op>, resource: Resource, most: nat)
    requires Inv(db) && LimitsAtMost(db, ops, resource, most) && Active(db, resource) <= most
    ensures Active(Run(db, ops), resource) <= most
    decreases |ops|
  {
    if ops == [] {
    } else {
      assert ops[0] in ops;
      StepKeepsInv(db, ops[0]);
      StepAddsWithinLimit(db, ops[0], resource);
      StepPublishesAtMost(db, ops[0], resource, most);
      LeasesStayWithinLimits(Step(db, ops[0]), ops[1..], resource, most);
    }
  }

  lemma StepPublishesAtMost(db: Db, op: Op, resource: Resource, most: nat)
    requires Limit(db, resource) <= most && PublishesAtMost(op, resource, most)
    ensures Limit(Step(db, op), resource) <= most
  {
  }

  /** A lease ends by its own release or by its own expiry; no published limit revokes it. */
  lemma LeaseEndsByReleaseOrExpiry(db: Db, op: Op, id: nat)
    requires Inv(db) && id in db.leases && id !in Step(db, op).leases
    ensures || op == ReleaseOp(id)
            || ((op.TryAcquireOp? || op.HeartbeatOp? || op.SnapshotOp?) && db.leases[id].expiresAt <= op.now)
  {
    match op
    case TryAcquireOp(now, req) =>
      TryAcquireLeases(db, now, req);
    case _ =>
  }

  /** What a step may do to a lease that survives it: only a heartbeat with that id changes it. */
  lemma OnlyOwnHeartbeatChanges(db: Db, op: Op, id: nat)
    requires Inv(db) && id in db.leases && id in Step(db, op).leases
    ensures Step(db, op).leases[id].slot == db.leases[id].slot
    ensures Step(db, op).leases[id] != db.leases[id] ==> op.HeartbeatOp? && op.id == id
  {
    match op
    case TryAcquireOp(now, req) =>
      TryAcquireLeases(db, now, req);
    case _ =>
  }

  lemma IdsNeverReturn(db: Db, op: Op, id: nat)
    requires Inv(db) && id < db.nextLease && id !in db.leases
    ensures id < Step(db, op).nextLease && id !in Step(db, op).leases
  {
    match op
    case TryAcquireOp(now, req) =>
      TryAcquireLeases(db, now, req);
    case _ =>
  }

  /** A poll leaves the unexpired leases as they are and adds at most the next id. */
  lemma TryAcquireLeases(db: Db, now: int, req: Request)
    ensures var after, kept := TryAcquire(db, now, req).0, Prune(db, now).leases;
            && after.nextLease >= db.nextLease
            && (|| after.leases == db.leases
                || after.leases == kept
                || (db.nextLease < after.nextLease
                    && after.leases == kept[db.nextLease :=
                         Lease(req.Slot(), req.owner, req.priority, now, now, now + req.ttl, req.ttl)]))
  {
  }

  /**
   Once a lease is gone its id is inert for ever: whatever runs in between, a late heartbeat or
   release with that id leaves the request's next lease as it is.
   */
  lemma {:induction false} StaleLeaseIsInert(db: Db, ops: seq<Op>, id: nat, now: int, ttl: Option<int>)
    requires Inv(db) && id < db.nextLease && id !in db.leases
    ensures var late := Run(db, ops);
            && id !in late.leases
            && Release(late, id) == late
            && Heartbeat(late, now, id, ttl) == Prune(late, now)
    decreases |ops|
  {
    if ops != [] {
      StepKeepsInv(db, ops[0]);
      IdsNeverReturn(db, ops[0], id);
      StaleLeaseIsInert(Step(db, ops[0]), ops[1..], id, now, ttl);
    } else {
      assert db.leases - {id} == db.leases;
    }
  }

  /**
   Nobody releases the lease, and whenever a transaction reads the clock, less than the lease's span
   has passed since its holder's last heartbeat.  `beat` and `span` are those of the last one.
   */
  ghost predicate Attended(ops: seq<Op>, id: nat, beat: int, span: int)
    decreases |ops|
  {
    ops == [] ||
    match ops[0]
    case ReleaseOp(i) => i != id && Attended(ops[1..], id, beat, span)
    case TryAcquireOp(now, _) => now < beat + span && Attended(ops[1..], id, beat, span)
    case SnapshotOp(now) => now < beat + span && Attended(ops[1..], id, beat, span)
    case HeartbeatOp(now, i, ttl) =>
      && now < beat + span
      && if i != id then Attended(ops[1..], id, beat, span)
         else if ttl in {None, Some(0)} then Attended(ops[1..], id, now, span)
         else ttl.value > 0 && Attended(ops[1..], id, now, ttl.value)
    case _ => Attended(ops[1..], id, beat, span)
  }

  ghost predicate HeldSince(db: Db, id: nat, slot: Slot, beat: int, span: int) {
    id in db.leases && db.leases[id].slot == slot && db.leases[id].expiresAt == beat + span && db.leases[id].ttl == span
  }

  /** What a live heartbeat achieves. */
  lemma HeartbeatExtends(db: Db, now: int, id: nat, ttl: Option<int>, slot: Slot, beat: int, span: int)
    requires HeldSince(db, id, slot, beat, span) && now < beat + span && span > 0
    requires ttl.Some? ==> ttl.value >= 0
    ensures HeldSince(Heartbeat(db, now, id, ttl), id, slot, now, if ttl in {None, Some(0)} then span else ttl.value)
  {
  }

  lemma OthersKeepHeld(db: Db, op: Op, id: nat, slot: Slot, beat: int, span: int)
    requires Inv(db) && HeldSince(db, id, slot, beat, span)
    requires op.ReleaseOp? || op.HeartbeatOp? ==> op.id != id
    requires op.TryAcquireOp? || op.SnapshotOp? || op.HeartbeatOp? ==> op.now < beat + span
    ensures HeldSince(Step(db, op), id, slot, beat, span)
  {
    if op.TryAcquireOp? {
      TryAcquireLeases(db, op.now, op.req);
    }
  }

  lemma RunFromFirst(db: Db, ops: seq<Op>, k: nat)
    requires 0 < k <= |ops|
    ensures Run(db, ops[..k]) == Run(Step(db, ops[0]), ops[1..][..k - 1])
  {
    assert ops[..k][0] == ops[0] && ops[..k][1..] == ops[1..][..k - 1];
  }

  /** A holder that beats in time keeps its lease in every state, whatever others do. */
  lemma {:induction false} AttendedLeaseIsHeld(db: Db, ops: seq<Op>, id: nat, slot: Slot, beat: int, span: int, k: nat)
    requires Inv(db) && HeldSince(db, id, slot, beat, span) && span > 0 && Attended(ops, id, beat, span) && k <= |ops|
    ensures id in Run(db, ops[..k]).leases && Run(db, ops[..k]).leases[id].slot == slot
    decreases k
  {
    if k == 0 {
    } else {
      var op, next := ops[0], Step(db, ops[0]);
      RunFromFirst(db, ops, k);
      StepKeepsInv(db, op);
      if op.HeartbeatOp? && op.id == id {
        var longer := if op.ttl in {None, Some(0)} then span else op.ttl.value;
        HeartbeatExtends(db, op.now, id, op.ttl, slot, beat, span);
        AttendedLeaseIsHeld(next, ops[1..], id, slot, op.now, longer, k - 1);
      } else {
        OthersKeepHeld(db, op, id, slot, beat, span);
        AttendedLeaseIsHeld(next, ops[1..], id, slot, beat, span, k - 1);
      }
    }
  }

  /** A waiter keeps its place: no step changes its ticket, and newcomers queue behind it. */
  ghost predicate KeepsPlace(db: Db, after: Db, slot: Slot)
    requires slot in db.waiters
  {
    && (slot in after.waiters ==> after.waiters[slot].ticket == db.waiters[slot].ticket)
    && forall s :: s in after.waiters && s !in db.waiters ==> after.waiters[s].ticket > db.waiters[slot].ticket
  }

  lemma EnqueueKeepsPlace(db: Db, now: int, req: Request, slot: Slot)
    requires Inv(db) && slot in db.waiters && db.waiters[slot].expiresAt > now
    ensures KeepsPlace(db, Enqueue(Prune(db, now), now, req), slot)
  {
  }

  lemma StepKeepsPlace(db: Db, op: Op, slot: Slot)
    requires Inv(db) && slot in db.waiters
    requires op.TryAcquireOp? ==> op.now < db.waiters[slot].expiresAt
    ensures KeepsPlace(db, Step(db, op), slot)
  {
    if op.TryAcquireOp? {
      EnqueueKeepsPlace(db, op.now, op.req, slot);
    }
  }

  /** A configuration is published once; publishing it again keeps what was adapted since. */
  lemma {:induction false} SyncPublishesOnce(db: Db, marker: Slot, payload: string, limits: map<Resource, int>, ops: seq<Op>)
    requires forall r :: r in limits ==> limits[r] >= 0
    requires forall op :: op in ops && op.SyncLimitsOp? ==> op.marker == marker ==> op.payload == payload
    ensures var late := Run(SyncLimits(db, marker, payload, limits), ops);
            SyncLimits(late, marker, payload, limits) == late
  {
    MarkerStays(SyncLimits(db, marker, payload, limits), ops, marker, payload);
  }

  lemma {:induction false} MarkerStays(db: Db, ops: seq<Op>, marker: Slot, payload: string)
    requires marker in db.state && db.state[marker] == payload
    requires forall op :: op in ops && op.SyncLimitsOp? ==> op.marker == marker ==> op.payload == payload
    ensures var late := Run(db, ops);
            marker in late.state && late.state[marker] == payload
    decreases |ops|
  {
    if ops == [] {
    } else {
      assert ops[0] in ops;
      assert forall op :: op in ops[1..] ==> op in ops;
      MarkerStays(Step(db, ops[0]), ops[1..], marker, payload);
    }
  }

  lemma SyncedLimits(db: Db, marker: Slot, payload: string, published: map<Resource, int>, limits: map<Resource, nat>)
    requires forall r :: r in published ==> published[r] >= 0
    requires !(marker in db.state && db.state[marker] == payload)
    requires limits.Keys == db.limits.Keys + published.Keys
    requires forall r :: r in limits ==> limits[r] == if r in published then published[r] else db.limits[r]
    ensures SyncLimits(db, marker, payload, published) ==
            db.(limits := limits, state := db.state[marker := payload])
  {
    assert SyncLimits(db, marker, payload, published).limits == limits;
  }

  lemma OneLeaseOnly(db: Db, now: int, req: Request, id: nat)
    requires Inv(db) && Holds(Prune(db, now), req.Slot(), id)
    ensures TryAcquire(db, now, req) == (Prune(db, now), Granted(id))
  {
  }

  // ---- The store ----

  /** A request goes by its id, or else by its owner. */
  ghost function NameOf(req: Request): string {
    if req.requestId == None || req.requestId == Some("") then req.owner else req.requestId.value
  }

  lemma SlotIsNamed(req: Request)
    ensures req.Slot() == (req.resource, NameOf(req))
  {
  }

  /** A waiter that is not polled lasts four times the lease it asks for, and a minute at least. */
  ghost function LongEnough(ttl: int): int {
    if ttl > 15 then 4 * ttl else 60
  }

  /** In the same line, with a smaller priority value or as small a one and an older ticket. */
  ghost predicate IsAhead(waiters: map<Slot, Waiter>, a: Slot, b: Slot)
    requires a in waiters && b in waiters
  {
    && a.0 == b.0
    && (|| waiters[a].priority < waiters[b].priority
        || (waiters[a].priority == waiters[b].priority && waiters[a].ticket < waiters[b].ticket))
  }

  class AdmissionStore {
    var limits: map<Resource, nat>
    var waiters: map<Slot, Waiter>
    var leases: map<nat, Lease>
    var nextTicket: nat
    var nextLease: nat
    var state: map<Slot, string>

    ghost function Tables(): Db
      reads this
    {
      Db(limits, waiters, leases, nextTicket, nextLease, state)
    }

    constructor ()
      ensures Tables() == Db(map[], map[], map[], 0, 0, map[]) && Inv(Tables())
    {
      limits, waiters, leases, nextTicket, nextLease, state := map[], map[], map[], 0, 0, map[];
    }

    method PruneExpired(now: int)
      modifies this`leases, this`waiters
      ensures Tables() == Prune(old(Tables()), now)
      ensures forall id :: id in leases <==> id in old(leases) && old(leases)[id].expiresAt > now
      ensures forall id :: id in leases ==> leases[id] == old(leases)[id]
      ensures forall s :: s in waiters <==> s in old(waiters) && old(waiters)[s].expiresAt > now
      ensures forall s :: s in waiters ==> waiters[s] == old(waiters)[s]
    {
      leases := map id | id in leases && leases[id].expiresAt > now :: leases[id];
      waiters := map s | s in waiters && waiters[s].expiresAt > now :: waiters[s];
    }

    method PublishIfAbsent(resource: Resource, limit: int) returns (current: Option<nat>)
      modifies this`limits
      ensures Tables() == EnsureLimit(old(Tables()), resource, limit)
      ensures limit >= 0 ==> resource in limits && current == Some(limits[resource])
      ensures limit < 0 ==> current == None
      ensures limits == if limit >= 0 && resource !in old(limits) then old(limits)[resource := limit] else old(limits)
    {
      if limit < 0 {
        return None;
      }
      if resource !in limits {
        limits := limits[resource := limit];
      }
      current := Some(limits[resource]);
    }

    method Publish(resource: Resource, limit: int) returns (ok: bool)
      modifies this`limits
      ensures Tables() == SetLimit(old(Tables()), resource, limit)
      ensures ok <==> limit >= 0
      ensures limits == if ok then old(limits)[resource := limit] else old(limits)
    {
      ok := limit >= 0;
      if ok {
        limits := limits[resource := limit];
      }
    }

    method Enrol(now: int, req: Request)
      modifies this`waiters, this`nextTicket
      ensures Tables() == Enqueue(old(Tables()), now, req)
      ensures var slot, known := (req.resource, NameOf(req)), old(waiters);
              && waiters.Keys == known.Keys + {slot}
              && (forall s :: s in known && s != slot ==> waiters[s] == known[s])
              && waiters[slot].ticket == (if slot in known then known[slot].ticket else old(nextTicket))
              && waiters[slot].requestedAt == (if slot in known then known[slot].requestedAt else now)
              && waiters[slot].owner == req.owner && waiters[slot].priority == req.priority
              && waiters[slot].ttl == req.ttl && waiters[slot].expiresAt == now + LongEnough(req.ttl)
              && nextTicket == old(nextTicket) + if slot in known then 0 else 1
    {
      SlotIsNamed(req);
      var slot, expiry := req.Slot(), WaiterExpiry(now, req.ttl);
      if slot in waiters {
        waiters := waiters[slot := waiters[slot].(
            owner := req.owner, priority := req.priority, expiresAt := expiry, ttl := req.ttl)];
      } else {
        waiters := waiters[slot := Waiter(nextTicket, req.owner, req.priority, now, expiry, req.ttl)];
        nextTicket := nextTicket + 1;
      }
    }

    method Admits(slot: Slot) returns (ok: bool)
      requires slot in waiters && slot.0 in limits
      ensures ok <==> Admissible(Tables(), slot)
      ensures ok <==> |set s | s in waiters && IsAhead(waiters, s, slot)|
                      < limits[slot.0] - |set id | id in leases && leases[id].slot.0 == slot.0|
    {
      var active := |set id | id in leases && leases[id].slot.0 == slot.0|;
      assert (set id | id in leases && leases[id].slot.0 == slot.0) == ActiveIds(Tables(), slot.0);
      var available := Max(0, limits[slot.0] - active);
      assert (set s | s in waiters && IsAhead(waiters, s, slot)) == Earlier(Tables(), slot);
      var earlier := |set s | s in waiters && s.0 == slot.0 && Before(waiters[s], waiters[slot])|;
      assert (set s | s in waiters && s.0 == slot.0 && Before(waiters[s], waiters[slot])) == Earlier(Tables(), slot);
      ok := !(available == 0 || earlier >= available);
    }

    /** The decision on a queued request: a new lease in place of the waiter, or nothing. */
    method Admit(now: int, req: Request) returns (outcome: Outcome)
      requires req.Slot() in waiters && req.resource in limits
      modifies this
      ensures (Tables(), outcome) == Decide(old(Tables()), now, req)
      ensures outcome in {Granted(old(nextLease)), Queued}
      ensures outcome == Queued ==> leases == old(leases) && waiters == old(waiters) && nextLease == old(nextLease)
      ensures outcome != Queued ==>
                && leases == old(leases)[old(nextLease) :=
                     Lease((req.resource, NameOf(req)), req.owner, req.priority, now, now, now + req.ttl, req.ttl)]
                && waiters == old(waiters) - {(req.resource, NameOf(req))} && nextLease == old(nextLease) + 1
    {
      SlotIsNamed(req);
      var admitted := Admits(req.Slot());
      if !admitted {
        return Queued;
      }
      leases := leases[nextLease := Lease(req.Slot(), req.owner, req.priority, now, now, now + req.ttl, req.ttl)];
      waiters := waiters - {req.Slot()};
      nextLease := nextLease + 1;
      outcome := Granted(nextLease - 1);
    }

    method FindLease(slot: Slot) returns (found: Option<nat>)
      ensures found.Some? ==> Holds(Tables(), slot, found.value)
      ensures found.None? ==> !HasLease(Tables(), slot)
    {
      if id :| id in leases && leases[id].slot == slot {
        found := Some(id);
      } else {
        found := None;
      }
    }

    method Poll(now: int, req: Request) returns (outcome: Outcome)
      requires Inv(Tables())
      modifies this
      ensures Inv(Tables())
      ensures (Tables(), outcome) == TryAcquire(old(Tables()), now, req)
      ensures outcome.NotConfigured? ==> req.resource !in limits && Tables() == old(Tables())
      ensures req.resource !in old(limits) && !outcome.NotConfigured? ==>
                outcome.Granted? && outcome.id in old(leases) && old(leases)[outcome.id].expiresAt > now
      ensures forall id :: id in old(leases) && old(leases)[id].expiresAt > now
                           && old(leases)[id].slot == (req.resource, NameOf(req)) ==>
                outcome == Granted(id) && id in leases && leases[id] == old(leases)[id]
      ensures outcome.Queued? ==> (req.resource, NameOf(req)) in waiters
      ensures outcome.Granted? ==>
                && outcome.id in leases && leases[outcome.id].slot == (req.resource, NameOf(req))
                && (leases[outcome.id].expiresAt > now || req.ttl <= 0)
    {
      SlotIsNamed(req);
      TryAcquireKeepsInv(Tables(), now, req);
      PruneKeepsInv(Tables(), now);
      var savedWaiters, savedLeases, savedTicket := waiters, leases, nextTicket;
      PruneExpired(now);
      var existing := FindLease(req.Slot());
      if existing.Some? {
        OneLeaseOnly(old(Tables()), now, req, existing.value);
        return Granted(existing.value);
      }
      Enrol(now, req);
      if req.resource !in limits {
        waiters, leases, nextTicket := savedWaiters, savedLeases, savedTicket;
        return NotConfigured;
      }
      outcome := Admit(now, req);
    }

    method Beat(now: int, id: nat, ttl: Option<int>) returns (alive: bool)
      modifies this`leases, this`waiters
      ensures Tables() == Heartbeat(old(Tables()), now, id, ttl)
      ensures
        var kept := Prune(old(Tables()), now).leases;
        alive <==> id in kept && Span(kept[id], ttl) > 0
      ensures alive <==> && id in old(leases) && old(leases)[id].expiresAt > now
                         && (if ttl in {None, Some(0)} then old(leases)[id].ttl else ttl.value) > 0
      ensures alive ==>
                var span := if ttl in {None, Some(0)} then old(leases)[id].ttl else ttl.value;
                && id in leases && leases[id].heartbeatAt == now && leases[id].expiresAt == now + span
                && leases[id].ttl == span
                && leases[id].slot == old(leases)[id].slot && leases[id].owner == old(leases)[id].owner
                && leases[id].priority == old(leases)[id].priority && leases[id].acquiredAt == old(leases)[id].acquiredAt
      ensures forall i :: i in leases && i != id ==> i in old(leases) && leases[i] == old(leases)[i]
      ensures var refused := !alive && id in old(leases) && old(leases)[id].expiresAt > now;
              && (refused ==> leases == old(leases) && waiters == old(waiters))
              && (!refused ==> && (forall i :: i in leases <==> i in old(leases) && old(leases)[i].expiresAt > now)
                               && (forall s :: s in waiters <==> s in old(waiters) && old(waiters)[s].expiresAt > now))
      ensures forall s :: s in waiters ==> waiters[s] == old(waiters)[s]
    {
      var savedWaiters, savedLeases := waiters, leases;
      PruneExpired(now);
      if id !in leases {
        return false;
      }
      var span := Span(leases[id], ttl);
      if span <= 0 {
        waiters, leases := savedWaiters, savedLeases;
        return false;
      }
      leases := leases[id := leases[id].(heartbeatAt := now, expiresAt := now + span, ttl := span)];
      alive := true;
    }

    method Drop(id: nat) returns (existed: bool)
      modifies this`leases
      ensures Tables() == Release(old(Tables()), id)
      ensures existed <==> id in old(leases)
      ensures leases == old(leases) - {id}
    {
      existed := id in leases;
      leases := leases - {id};
    }

    method CancelSlot(slot: Slot) returns (existed: bool)
      modifies this`waiters
      ensures Tables() == Cancel(old(Tables()), slot)
      ensures existed <==> slot in old(waiters)
      ensures waiters == old(waiters) - {slot}
    {
      existed := slot in waiters;
      waiters := waiters - {slot};
    }

    method Withdraw(req: Request) returns (existed: bool)
      modifies this`waiters
      ensures Tables() == Cancel(old(Tables()), req.Slot())
      ensures existed <==> (req.resource, NameOf(req)) in old(waiters)
      ensures waiters == old(waiters) - {(req.resource, NameOf(req))}
    {
      SlotIsNamed(req);
      existed := CancelSlot(req.Slot());
    }

    method Sync(marker: Slot, payload: string, published: map<Resource, int>) returns (changed: bool)
      modifies this`limits, this`state
      ensures Tables() == SyncLimits(old(Tables()), marker, payload, published)
      ensures changed <==>
        (forall r :: r in published ==> published[r] >= 0) && !(marker in old(state) && old(state)[marker] == payload)
      ensures state == if changed then old(state)[marker := payload] else old(state)
      ensures !changed ==> limits == old(limits)
      ensures changed ==>
                && limits.Keys == old(limits).Keys + published.Keys
                && forall r :: r in limits ==> limits[r] == if r in published then published[r] else old(limits)[r]
    {
      if exists r | r in published :: published[r] < 0 {
        return false;
      }
      if marker in state && state[marker] == payload {
        return false;
      }
      var left := published.Keys;
      while left != {}
        invariant left <= published.Keys && state == old(state)
        invariant limits.Keys == old(limits).Keys + (published.Keys - left)
        invariant forall r :: r in limits ==>
                    limits[r] == if r in published && r !in left then published[r] else old(limits)[r]
      {
        var r :| r in left;
        limits := limits[r := published[r]];
        left := left - {r};
      }
      state := state[marker := payload];
      changed := true;
      SyncedLimits(old(Tables()), marker, payload, published, limits);
    }
  }
}
