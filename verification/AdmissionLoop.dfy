/**
 The polling facade of `concurrency/admission.py`: `AdmissionController.acquire` on a store that
 other processes step between two polls.
 */
module AdmissionLoop {
  import opened Admission
  import opened Options

  /** What other processes did since the last poll, and the clock at this one. */
  datatype Round = Round(others: seq<Op>, now: int)

  datatype Acquired = Leased(id: nat) | WrongResource | Unconfigured | TimedOut

  /** One transaction of any process, performed by the store's own methods. */
  method Perform(store: AdmissionStore, op: Op)
    requires Inv(store.Tables())
    modifies store
    ensures Inv(store.Tables()) && store.Tables() == Step(old(store.Tables()), op)
    ensures op.ReleaseOp? ==> store.leases == old(store.leases) - {op.id}
    ensures op.CancelOp? ==> store.waiters == old(store.waiters) - {op.slot}
    ensures op.SetLimitOp? && op.limit >= 0 ==> store.limits == old(store.limits)[op.resource := op.limit]
    ensures op.EnsureLimitOp? && op.limit >= 0 && op.resource !in old(store.limits) ==>
              store.limits == old(store.limits)[op.resource := op.limit]
    ensures op.SyncLimitsOp? && (forall r :: r in op.limits ==> op.limits[r] >= 0) ==>
              op.marker in store.state && store.state[op.marker] == op.payload
    ensures op.HeartbeatOp? && op.id in old(store.leases) && old(store.leases)[op.id].expiresAt > op.now ==>
              var span := if op.ttl in {None, Some(0)} then old(store.leases)[op.id].ttl else op.ttl.value;
              op.id in store.leases && (span > 0 ==> store.leases[op.id].expiresAt == op.now + span)
    ensures op.SnapshotOp? || op.HeartbeatOp? ==>
              forall id :: id in old(store.leases) && old(store.leases)[id].expiresAt > op.now ==> id in store.leases
    ensures op.SnapshotOp? ==> forall id :: id in store.leases ==> store.leases[id].expiresAt > op.now
    ensures op.TryAcquireOp? && op.req.resource in old(store.limits) ==>
              (op.req.resource, NameOf(op.req)) in store.waiters || HasLease(store.Tables(), (op.req.resource, NameOf(op.req)))
  {
    StepKeepsInv(store.Tables(), op);
    match op {
      case EnsureLimitOp(r, n) => var _ := store.PublishIfAbsent(r, n);
      case SetLimitOp(r, n) => var _ := store.Publish(r, n);
      case SyncLimitsOp(m, p, ls) => var _ := store.Sync(m, p, ls);
      case TryAcquireOp(now, req) => var _ := store.Poll(now, req);
      case HeartbeatOp(now, id, ttl) => var _ := store.Beat(now, id, ttl);
      case ReleaseOp(id) => var _ := store.Drop(id);
      case CancelOp(slot) => var _ := store.CancelSlot(slot);
      case SnapshotOp(now) => store.PruneExpired(now);
    }
  }

  lemma {:induction false} RunOneMore(db: Db, ops: seq<Op>, k: nat)
    requires k < |ops|
    ensures Run(db, ops[..k + 1]) == Step(Run(db, ops[..k]), ops[k])
    decreases k
  {
    if k == 0 {
      assert ops[..1] == [ops[0]] && ops[..0] == [];
      assert Run(Step(db, ops[0]), [ops[0]][1..]) == Step(db, ops[0]);
    } else {
      var rest := ops[1..];
      assert ops[..k + 1][1..] == rest[..k] && ops[..k][1..] == rest[..k - 1];
      RunOneMore(Step(db, ops[0]), rest, k - 1);
    }
  }

  method PerformAll(store: AdmissionStore, ops: seq<Op>)
    requires Inv(store.Tables())
    modifies store
    ensures Inv(store.Tables()) && store.Tables() == Run(old(store.Tables()), ops)
  {
    for i := 0 to |ops|
      invariant Inv(store.Tables()) && store.Tables() == Run(old(store.Tables()), ops[..i])
    {
      RunOneMore(old(store.Tables()), ops, i);
      Perform(store, ops[i]);
    }
    assert ops[..|ops|] == ops;
  }

  lemma PollAnswers(db: Db, now: int, req: Request)
    requires Inv(db)
    ensures
      var (after, outcome) := TryAcquire(db, now, req);
      && (outcome.Granted? ==> Holds(after, req.Slot(), outcome.id))
      && (outcome.Queued? ==> req.Slot() in after.waiters && !HasLease(after, req.Slot()))
      && (outcome.NotConfigured? ==> after == db && req.resource !in db.limits)
  {
    var (after, outcome) := TryAcquire(db, now, req);
    TryAcquireKeepsInv(db, now, req);
    if outcome.Queued? {
      NoLeaseInFront(after, req.Slot());
    }
  }

  /** What the answer of a poll says about the tables that it leaves. */
  ghost predicate Answers(db: Db, req: Request, outcome: Outcome) {
    match outcome
    case Granted(id) => Holds(db, req.Slot(), id)
    case Queued => !HasLease(db, req.Slot())
    case NotConfigured => req.resource !in db.limits
  }

  /** One poll of the loop: the tables that it reached, the tables that it left, and the answer. */
  datatype Polling = Polling(reached: Db, left: Db, outcome: Outcome)

  ghost predicate IsPoll(before: Db, req: Request, round: Round, p: Polling) {
    p.reached == Run(before, round.others) && (p.left, p.outcome) == TryAcquire(p.reached, round.now, req)
  }

  /** A poll in its place: the one before was told to wait. */
  ghost predicate PollAt(db: Db, req: Request, rounds: seq<Round>, polls: seq<Polling>, k: nat)
    requires k < |polls| <= |rounds|
  {
    IsPoll(Left(db, polls, k), req, rounds[k], polls[k]) && (k > 0 ==> polls[k - 1].outcome.Queued?)
  }

  /** What the first `n` polls have left. */
  function Left(db: Db, polls: seq<Polling>, n: nat): Db
    requires n <= |polls|
  {
    if n == 0 then db else polls[n - 1].left
  }

  /** One poll for each of the first rounds, each after the one before, which was told to wait. */
  ghost predicate PollsInTurn(db: Db, req: Request, rounds: seq<Round>, polls: seq<Polling>) {
    |polls| <= |rounds| && forall k :: 0 <= k < |polls| ==> PollAt(db, req, rounds, polls, k)
  }

  lemma PollAgain(db: Db, req: Request, rounds: seq<Round>, polls: seq<Polling>, p: Polling)
    requires PollsInTurn(db, req, rounds, polls) && |polls| < |rounds|
    requires polls != [] ==> polls[|polls| - 1].outcome.Queued?
    requires IsPoll(Left(db, polls, |polls|), req, rounds[|polls|], p)
    ensures PollsInTurn(db, req, rounds, polls + [p])
  {
    var more := polls + [p];
    forall k | 0 <= k < |more| ensures PollAt(db, req, rounds, more, k) {
      assert k < |polls| ==> PollAt(db, req, rounds, polls, k);
    }
  }

  /** No poll under this resource and key. */
  predicate NobodyPolls(ops: seq<Op>, slot: Slot) {
    forall op | op in ops :: op.TryAcquireOp? ==> op.req.Slot() != slot
  }

  lemma StepKeepsOut(db: Db, op: Op, slot: Slot)
    requires !HasLease(db, slot) && (op.TryAcquireOp? ==> op.req.Slot() != slot)
    ensures !HasLease(Step(db, op), slot)
  {
    forall id | id in Step(db, op).leases ensures !Holds(Step(db, op), slot, id) {
      if op.TryAcquireOp? {
        TryAcquireLeases(db, op.now, op.req);
      }
      assert id in db.leases ==> !Holds(db, slot, id);
    }
  }

  lemma {:induction false} NobodyPollsKeepsOut(db: Db, ops: seq<Op>, slot: Slot)
    requires !HasLease(db, slot) && NobodyPolls(ops, slot)
    ensures !HasLease(Run(db, ops), slot)
    decreases |ops|
  {
    if ops == [] {
    } else {
      StepKeepsOut(db, ops[0], slot);
      NobodyPollsKeepsOut(Step(db, ops[0]), ops[1..], slot);
    }
  }

  class AdmissionController {
    const store: AdmissionStore
    const resource: Resource

    constructor (store: AdmissionStore, resource: Resource, limit: int)
      requires Inv(store.Tables())
      modifies store
      ensures this.store == store && this.resource == resource
      ensures store.Tables() == EnsureLimit(old(store.Tables()), resource, limit)
    {
      this.store, this.resource := store, resource;
      new;
      var _ := store.PublishIfAbsent(resource, limit);
    }

    /** One poll, after what others did since the last one. */
    method PollAfter(req: Request, round: Round) returns (outcome: Outcome, ghost p: Polling)
      requires Inv(store.Tables())
      modifies store
      ensures Inv(store.Tables())
      ensures IsPoll(old(store.Tables()), req, round, p) && p.outcome == outcome && p.left == store.Tables()
      ensures Answers(store.Tables(), req, outcome)
    {
      PerformAll(store, round.others);
      ghost var reached := store.Tables();
      PollAnswers(reached, round.now, req);
      outcome := store.Poll(round.now, req);
      p := Polling(reached, store.Tables(), outcome);
    }

    /** The polls up to the first that is not told to wait. */
    method PollInTurn(req: Request, rounds: seq<Round>) returns (outcome: Outcome, ghost polls: seq<Polling>)
      requires Inv(store.Tables()) && rounds != []
      modifies store
      ensures Inv(store.Tables())
      ensures PollsInTurn(old(store.Tables()), req, rounds, polls) && polls != []
      ensures store.Tables() == polls[|polls| - 1].left && outcome == polls[|polls| - 1].outcome
      ensures outcome.Queued? ==> |polls| == |rounds|
      ensures Answers(store.Tables(), req, outcome)
    {
      outcome, polls := Queued, [];
      ghost var start := store.Tables();
      ghost var now := start;
      var i := 0;
      while i < |rounds| && outcome.Queued?
        invariant i == |polls| && now == store.Tables() && Inv(now) && now == Left(start, polls, i)
        invariant PollsInTurn(start, req, rounds, polls)
        invariant polls == [] ==> outcome.Queued?
        invariant polls != [] ==> outcome == polls[|polls| - 1].outcome && Answers(now, req, outcome)
      {
        ghost var p;
        outcome, p := PollAfter(req, rounds[i]);
        PollAgain(start, req, rounds, polls, p);
        polls, now, i := polls + [p], p.left, i + 1;
      }
    }

    /** Leaves the queue, when others have taken the steps `last`. */
    method GiveUp(req: Request, last: seq<Op>)
      requires Inv(store.Tables())
      modifies store
      ensures Inv(store.Tables()) && store.Tables() == Cancel(Run(old(store.Tables()), last), req.Slot())
      ensures req.Slot() !in store.waiters
      ensures old(!HasLease(store.Tables(), req.Slot())) && NobodyPolls(last, req.Slot()) ==>
                !HasLease(store.Tables(), req.Slot())
    {
      if !HasLease(store.Tables(), req.Slot()) && NobodyPolls(last, req.Slot()) {
        NobodyPollsKeepsOut(store.Tables(), last, req.Slot());
      }
      PerformAll(store, last);
      SameLeases(store.Tables(), Cancel(store.Tables(), req.Slot()), req.Slot());
      var _ := store.Withdraw(req);
    }

    /**
     Polls once per round until a poll is not told to wait, and gives up after the last round, when
     others have taken the steps `last`.  A granted request holds its lease; one that timed out has left
     the queue and, unless somebody else polled under its key meanwhile, holds none.
     */
    method Acquire(req: Request, rounds: seq<Round>, last: seq<Op>)
      returns (result: Acquired, ghost polls: seq<Polling>)
      requires Inv(store.Tables()) && rounds != []
      modifies store
      ensures Inv(store.Tables())
      ensures result.WrongResource? <==> req.resource != resource
      ensures result.WrongResource? ==> store.Tables() == old(store.Tables())
      ensures PollsInTurn(old(store.Tables()), req, rounds, polls)
      ensures polls != [] ==>
                var p := polls[|polls| - 1];
                match p.outcome
                case Granted(id) => result == Leased(id) && store.Tables() == p.left
                case NotConfigured => result == Unconfigured && store.Tables() == p.left
                case Queued =>
                  && result == TimedOut && |polls| == |rounds|
                  && store.Tables() == Cancel(Run(p.left, last), req.Slot())
      ensures polls == [] ==> result.WrongResource?
      ensures result.Leased? ==> Holds(store.Tables(), req.Slot(), result.id)
      ensures result.Unconfigured? ==> req.resource !in store.limits
      ensures result.TimedOut? ==> req.Slot() !in store.waiters
      ensures result.TimedOut? && NobodyPolls(last, req.Slot()) ==> !HasLease(store.Tables(), req.Slot())
    {
      if req.resource != resource {
        return WrongResource, [];
      }
      var outcome;
      outcome, polls := PollInTurn(req, rounds);
      match outcome
      case Granted(id) => result := Leased(id);
      case NotConfigured => result := Unconfigured;
      case Queued =>
        GiveUp(req, last);
        result := TimedOut;
    }
  }
}
