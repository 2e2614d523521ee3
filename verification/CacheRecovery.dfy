/**
 What "crash-recoverable reservation" is worth: which crashes the next collection makes good, so that
 they never over-commit, dirty marks or not.
 */
module CacheRecovery {
  import opened CacheProtocol
  import opened CacheReservations
  import opened Sums

  // ---- Evictions deduct what was counted ----

  /** Measurements under way are no larger than the entry. */
  predicate Steady(w: World) {
    forall s | s in w.sizing :: w.sizing[s].bytes <= Get(w.actual, w.sizing[s].path)
  }

  ghost predicate RowsWithin(rows: map<string, nat>, b: Book) {
    forall p :: p in rows ==> rows[p] <= Get(b.recorded, p) + OnPath(b.debts, p)
  }

  /** Every row that a collection may deduct lies within what it has counted and seen growing. */
  ghost predicate RowsCounted(w: World) {
    match w.gc
    case Listed(b, _, sizes, _, _, _) => RowsWithin(sizes, b)
    case _ => HasBook(w.gc) ==> RowsWithin(w.live.recorded, w.gc.book)
  }

  lemma GrowthKeepsRows(rows: map<string, nat>, b: Book, s: nat, p: string, n: nat)
    requires RowsWithin(rows, b)
    ensures RowsWithin(rows, Indebted(b, s, p, n))
  {
    forall q | q in rows ensures rows[q] <= Get(b.recorded, q) + OnPath(Indebted(b, s, p, n).debts, q) {
      MoreOnPath(b.debts, s, p, n, q);
    }
  }

  lemma GrowKeepsRows(w: World, s: nat, p: string, n: nat)
    requires RowsCounted(w)
    ensures RowsCounted(Raised(w, s, p, n))
  {
    if w.gc.Listed? {
      GrowthKeepsRows(w.gc.sizes, w.gc.book, s, p, n);
    } else if HasBook(w.gc) {
      GrowthKeepsRows(w.live.recorded, w.gc.book, s, p, n);
    }
  }

  lemma ShedKeepsRows(rows: map<string, nat>, b: Book, p: string)
    requires RowsWithin(rows, b)
    ensures RowsWithin(rows - {p}, Shed(b, p))
  {
    forall q | q in rows - {p} ensures rows[q] <= Get(b.recorded, q) + OnPath(Shed(b, p).debts, q) {
      ShedOnPath(b, p, q);
    }
  }

  lemma RecordKeepsRows(w: World, s: nat)
    requires Inv(w) && RowsCounted(w) && Steady(w) && s in w.sizing
    ensures RowsCounted(Next(w, Record(s)))
  {
    if HasBook(w.gc) && !w.gc.Listed? {
      DiskIsWithin(w.actual, w.gc.book, w.sizing[s].path);
      UpdatedRowsWithin(w.live.recorded, w.gc.book, w.sizing[s].path, w.sizing[s].bytes);
    }
  }

  lemma DiskIsWithin(actual: map<string, nat>, b: Book, p: string)
    requires SizesCovered(actual, b)
    ensures Get(actual, p) <= Get(b.recorded, p) + OnPath(b.debts, p)
  {
  }

  lemma UpdatedRowsWithin(rows: map<string, nat>, b: Book, p: string, n: nat)
    requires RowsWithin(rows, b) && n <= Get(b.recorded, p) + OnPath(b.debts, p)
    ensures RowsWithin(rows[p := n], b)
  {
  }

  lemma OtherStepsKeepRows(w: World, e: Event, maxBytes: nat)
    requires RowsCounted(w) && Enabled(w, e, maxBytes) && !e.Grow? && !e.Record? && !e.Evict?
    ensures RowsCounted(Next(w, e))
  {
  }

  lemma NextKeepsRows(w: World, e: Event, maxBytes: nat)
    requires Inv(w) && RowsCounted(w) && Steady(w) && Enabled(w, e, maxBytes)
    ensures RowsCounted(Next(w, e))
  {
    match e
    case Grow(s, p, n) => GrowKeepsRows(w, s, p, n);
    case Record(s) => RecordKeepsRows(w, s);
    case Evict(p) => ShedKeepsRows(w.gc.sizes, w.gc.book, p);
    case _ => OtherStepsKeepRows(w, e, maxBytes);
  }

  lemma CountedRowsDrawWithin(w: World, e: Event)
    requires RowsCounted(w) && AllBacked(w)
    ensures !Overdraws(w, e)
  {
    if HasBook(w.gc) {
      NoOrphansIsBacked(w.gc.book);
    }
  }

  // ---- Crashes a collection recovers from ----

  /** The next collection looks at the entry, or the present one still will. */
  predicate Traceable(w: World, p: string) {
    && (p in w.dirty || p in Unknown(w))
    && (w.gc.Reconciling? ==> p in w.gc.todo || IsBeingSized(w, p))
  }

  /** The collector has measured the entry and is about to record it. */
  predicate IsBeingSized(w: World, p: string) {
    NOBODY in w.sizing && w.sizing[NOBODY].path == p
  }

  /** Growth of a dead session that a collection will measure before it clears the reservation. */
  predicate Recoverable(w: World, k: Stake) {
    k.session in w.dead ==> Traceable(w, k.path) && !IsHeld(w, k.path)
  }

  predicate AllRecoverable(w: World) {
    forall k | k in w.live.debts :: Recoverable(w, k)
  }

  predicate HeldByAnother(w: World, s: nat, p: string) {
    exists k | k in w.held :: k.session != s && k.path == p
  }

  predicate IsSized(w: World, p: string) {
    exists s | s in w.sizing :: w.sizing[s].path == p
  }

  /** No other session's measurement has been overtaken by growth of this one. */
  predicate Unovertaken(w: World, s: nat) {
    forall t | t in w.sizing && t != s :: forall k | k in Since(w.grown, w.sizing[t]) :: k.session != s
  }

  predicate SinceAlive(w: World) {
    forall t | t in w.sizing :: forall k | k in Since(w.grown, w.sizing[t]) :: Alive(w, k.session)
  }

  /**
   A session dies only with unmeasured growth that a collection still comes to and that nobody else
   holds; nobody takes hold of such an entry before it is measured, and a collection lists it; sessions
   that leave have measured their growth, and nobody else's measurement is older than it; no entry
   shrinks or goes while it is measured; forgotten rows are of empty entries without growth of the
   dead, and failed deletions of empty ones.
   */
  predicate Graceful(w: World, e: Event) {
    match e
    case Crash(s) =>
      && Unovertaken(w, s)
      && forall k | k in w.live.debts ::
           k.session == s ==> Traceable(w, k.path) && !HeldByAnother(w, s, k.path)
    case Hold(_, p) => forall k | k in w.live.debts :: k.path == p ==> k.session !in w.dead
    case StartGc(listed, _) => forall k | k in w.live.debts :: k.session in w.dead ==> k.path in listed
    case Close(s) => Unovertaken(w, s) && Settled(w.live, s) && (w.gc.EntriesRead? ==> Settled(w.gc.book, s))
    case Shrink(p, _) => !IsSized(w, p)
    case Evict(p) => !IsSized(w, p)
    case Forget(p) => Lost(w, p) == 0 && forall k | k in w.live.debts :: k.path == p ==> k.session !in w.dead
    case Strand(p, _) => Get(w.actual, p) == 0 && !IsSized(w, p)
    case _ => true
  }

  ghost predicate GracefulThroughout(w: World, events: seq<Event>)
    decreases |events|
  {
    events == [] || (Graceful(w, events[0]) && GracefulThroughout(Next(w, events[0]), events[1..]))
  }

  /** All that the steps below keep. */
  ghost predicate Mended(w: World) {
    Steady(w) && RowsCounted(w) && SinceAlive(w) && AllRecoverable(w)
  }

  /** When the stale reservations are cleared, every entry of a dead session has been measured. */
  lemma GracefulStepsLoseNothing(w: World, e: Event, maxBytes: nat)
    requires AllBacked(w) && Mended(w) && Enabled(w, e, maxBytes) && Graceful(w, e)
    ensures !Loses(w, e)
  {
    CountedRowsDrawWithin(w, e);
    if e.ClearStale? {
      forall k | k in w.live.debts ensures k.session != e.session {
        assert Recoverable(w, k);
      }
    }
  }

  lemma GrowKeepsSteady(w: World, s: nat, p: string, n: nat)
    requires Steady(w)
    ensures Steady(Raised(w, s, p, n))
  {
  }

  lemma SizesKeepsSteady(w: World, s: nat, p: string, found: bool)
    requires Steady(w)
    ensures Steady(Sizes(w, s, p, found))
  {
  }

  lemma NextKeepsSteady(w: World, e: Event, maxBytes: nat)
    requires Inv(w) && Steady(w) && Enabled(w, e, maxBytes) && Graceful(w, e)
    ensures Steady(Next(w, e))
  {
    if e.Evict? || e.Strand? {
      RemovalKeepsSteady(w, e, maxBytes);
    } else if e.Grow? {
      GrowKeepsSteady(w, e.session, e.path, e.bytes);
    } else if e.Measure? {
      SizesKeepsSteady(w, e.session, e.path, e.found);
    } else if e.Reconcile? {
      SizesKeepsSteady(w, NOBODY, e.path, true);
    } else {
      OthersKeepSteady(w, e);
    }
  }

  lemma OthersKeepSteady(w: World, e: Event)
    requires Steady(w) && Graceful(w, e)
    requires !e.Evict? && !e.Strand? && !e.Grow? && !e.Measure? && !e.Reconcile?
    ensures Steady(Next(w, e))
  {
  }

  lemma RemovalKeepsSteady(w: World, e: Event, maxBytes: nat)
    requires Steady(w) && Enabled(w, e, maxBytes) && Graceful(w, e) && (e.Evict? || e.Strand?)
    ensures Steady(Next(w, e))
  {
    forall s | s in w.sizing
      ensures Next(w, e).sizing[s].bytes <= Get(Next(w, e).actual, w.sizing[s].path)
    {
      assert w.sizing[s].path != e.path;
    }
  }

  lemma GrowKeepsSinceAlive(w: World, s: nat, p: string, n: nat, maxBytes: nat)
    requires SinceAlive(w) && Enabled(w, Grow(s, p, n), maxBytes)
    ensures SinceAlive(Raised(w, s, p, n))
  {
    var next := Raised(w, s, p, n);
    forall t, k | t in next.sizing && k in Since(next.grown, next.sizing[t]) ensures Alive(next, k.session) {
      assert k == Stake(s, p) || k in Since(w.grown, w.sizing[t]);
    }
  }

  lemma SizesKeepsSinceAlive(w: World, s: nat, p: string, listed: bool)
    requires SinceAlive(w)
    ensures SinceAlive(Sizes(w, s, p, listed))
  {
    assert Since(w.grown, Sizes(w, s, p, listed).sizing[s]).Keys == {};
  }

  lemma OthersKeepSinceAlive(w: World, e: Event, maxBytes: nat)
    requires SinceAlive(w) && Enabled(w, e, maxBytes) && Graceful(w, e) && !e.Grow? && !e.Measure? && !e.Reconcile?
    ensures SinceAlive(Next(w, e))
  {
  }

  lemma NextKeepsSinceAlive(w: World, e: Event, maxBytes: nat)
    requires SinceAlive(w) && Enabled(w, e, maxBytes) && Graceful(w, e)
    ensures SinceAlive(Next(w, e))
  {
    if e.Grow? {
      GrowKeepsSinceAlive(w, e.session, e.path, e.bytes, maxBytes);
    } else if e.Measure? {
      SizesKeepsSinceAlive(w, e.session, e.path, e.found);
    } else if e.Reconcile? {
      SizesKeepsSinceAlive(w, NOBODY, e.path, true);
    } else {
      OthersKeepSinceAlive(w, e, maxBytes);
    }
  }

  lemma CrashStaysRecoverable(w: World, s: nat, k: Stake)
    requires AllRecoverable(w) && Graceful(w, Crash(s)) && s != NOBODY && k in w.live.debts
    ensures Recoverable(Next(w, Crash(s)), k)
  {
    assert Recoverable(w, k);
    if IsHeld(Next(w, Crash(s)), k.path) {
      var h :| h in Released(w.held, s) && h.path == k.path;
      assert HeldByAnother(w, s, k.path);
    }
  }

  lemma GrowthStaysRecoverable(w: World, e: Event, maxBytes: nat, k: Stake)
    requires AllRecoverable(w) && e.Grow? && Enabled(w, e, maxBytes) && k in Next(w, e).live.debts
    ensures Recoverable(Next(w, e), k)
  {
    if k != Stake(e.session, e.path) {
      assert Recoverable(w, k);
    }
  }

  lemma RecordStaysRecoverable(w: World, s: nat, k: Stake)
    requires AllRecoverable(w) && SinceAlive(w) && s in w.sizing && k in Next(w, Record(s)).live.debts
    ensures Recoverable(Next(w, Record(s)), k)
  {
    if k !in Since(w.grown, w.sizing[s]) {
      assert Recoverable(w, k) && k.path != w.sizing[s].path;
    }
  }

  lemma MarkStaysTraceable(w: World, p: string, q: string)
    requires Traceable(w, q)
    ensures Traceable(Marked(w, p), q)
  {
  }

  lemma EvictionStaysTraceable(w: World, p: string, q: string)
    requires Traceable(w, q) && p != q && w.gc.Listed?
    ensures Traceable(Next(w, Evict(p)), q)
  {
    assert q in Unknown(w) ==> q in Unknown(Next(w, Evict(p)));
  }

  lemma StrandStaysTraceable(w: World, p: string, t: string, q: string)
    requires Traceable(w, q) && w.gc.Listed? && t !in w.actual
    ensures Traceable(Stranded(w, p, t), q)
  {
  }

  lemma ReconcileStaysTraceable(w: World, p: string, q: string)
    requires Traceable(w, q) && NOBODY !in w.sizing && (p == q ==> !IsHeld(w, p))
    ensures Traceable(Reconciled(w, p), q)
  {
    MarkStaysTraceable(w, p, q);
  }

  lemma MarkingStaysRecoverable(w: World, e: Event, maxBytes: nat, k: Stake)
    requires Recoverable(w, k) && Enabled(w, e, maxBytes) && k in Next(w, e).live.debts
    requires e.MarkDirty? || e.Reconcile?
    ensures Recoverable(Next(w, e), k)
  {
    if k.session in w.dead {
      if e.MarkDirty? {
        MarkStaysTraceable(w, e.path, k.path);
      } else {
        ReconcileStaysTraceable(w, e.path, k.path);
      }
    }
  }

  lemma RemovalStaysRecoverable(w: World, e: Event, maxBytes: nat, k: Stake)
    requires Recoverable(w, k) && Enabled(w, e, maxBytes) && k in Next(w, e).live.debts
    requires e.Evict? || e.Strand?
    ensures Recoverable(Next(w, e), k)
  {
    if k.session in w.dead {
      match e
      case Evict(p) => EvictionStaysTraceable(w, p, k.path);
      case Strand(p, t) => StrandStaysTraceable(w, p, t, k.path);
    }
  }

  lemma IndexStaysRecoverable(w: World, e: Event, maxBytes: nat, k: Stake)
    requires AllRecoverable(w) && Enabled(w, e, maxBytes) && Graceful(w, e) && k in Next(w, e).live.debts
    requires e.MarkDirty? || e.Reconcile? || e.Forget? || e.Evict? || e.Strand? || e.StartGc?
    ensures Recoverable(Next(w, e), k)
  {
    assert k in w.live.debts && Recoverable(w, k);
    if e.MarkDirty? || e.Reconcile? {
      MarkingStaysRecoverable(w, e, maxBytes, k);
    } else if e.Evict? || e.Strand? {
      RemovalStaysRecoverable(w, e, maxBytes, k);
    }
  }

  lemma SessionStaysRecoverable(w: World, e: Event, maxBytes: nat, k: Stake)
    requires NOBODY !in w.live.reserved && AllRecoverable(w) && Enabled(w, e, maxBytes) && Graceful(w, e)
    requires e.Hold? || e.LetGo? || e.Shrink? || e.Measure? || e.Close? || e.ClearStale? || e.ReadEntries?
             || e.ReadReservations? || e.ReadDirty? || e.ReadCandidates? || e.GiveUp? || e.Admit?
    requires k in Next(w, e).live.debts
    ensures Recoverable(Next(w, e), k)
  {
    assert Recoverable(w, k);
  }

  lemma NextKeepsRecoverable(w: World, e: Event, maxBytes: nat)
    requires LiveInv(w) && AllRecoverable(w) && SinceAlive(w) && Enabled(w, e, maxBytes) && Graceful(w, e)
    ensures AllRecoverable(Next(w, e))
  {
    forall k | k in Next(w, e).live.debts ensures Recoverable(Next(w, e), k) {
      if e.Grow? {
        GrowthStaysRecoverable(w, e, maxBytes, k);
      } else if e.Crash? {
        CrashStaysRecoverable(w, e.session, k);
      } else if e.Record? {
        RecordStaysRecoverable(w, e.session, k);
      } else if e.MarkDirty? || e.Reconcile? || e.Forget? || e.Evict? || e.Strand? || e.StartGc? {
        IndexStaysRecoverable(w, e, maxBytes, k);
      } else {
        SessionStaysRecoverable(w, e, maxBytes, k);
      }
    }
  }

  lemma NextKeepsMended(w: World, e: Event, maxBytes: nat)
    requires Inv(w) && Mended(w) && Enabled(w, e, maxBytes) && Graceful(w, e)
    ensures Mended(Next(w, e))
  {
    NextKeepsSteady(w, e, maxBytes);
    NextKeepsRows(w, e, maxBytes);
    NextKeepsSinceAlive(w, e, maxBytes);
    NextKeepsRecoverable(w, e, maxBytes);
  }

  lemma {:induction false} GracefulRunsLoseNothing(w: World, events: seq<Event>, maxBytes: nat)
    requires Inv(w) && AllBacked(w) && Mended(w) && Run(w, events, maxBytes) && GracefulThroughout(w, events)
    ensures NeverLoses(w, events)
    decreases |events|
  {
    if events == [] {
    } else {
      var e := events[0];
      GracefulStepsLoseNothing(w, e, maxBytes);
      NextKeepsInv(w, e, maxBytes);
      NextKeepsBacked(w, e, maxBytes);
      NextKeepsMended(w, e, maxBytes);
      GracefulRunsLoseNothing(Next(w, e), events[1..], maxBytes);
    }
  }

  lemma RecoverableCrashesNeverOvercommit(w: World, events: seq<Event>, maxBytes: nat)
    requires Inv(w) && AllBacked(w) && Mended(w)
    requires Run(w, events, maxBytes) && GracefulThroughout(w, events)
    requires Committed(w) <= maxBytes || HasAdmission(events)
    ensures Committed(After(w, events)) <= maxBytes
  {
    GracefulRunsLoseNothing(w, events, maxBytes);
    BackedRunsNeverOvercommit(w, events, maxBytes);
  }

  /** Nobody dies, and who leaves has measured its growth before the collection read the entries. */
  ghost predicate CrashFree(w: World, events: seq<Event>)
    decreases |events|
  {
    events == [] ||
    (!events[0].Crash? && Graceful(w, events[0]) && CrashFree(Next(w, events[0]), events[1..]))
  }

  lemma {:induction false} CrashFreeIsGraceful(w: World, events: seq<Event>)
    requires CrashFree(w, events)
    ensures GracefulThroughout(w, events)
    decreases |events|
  {
    if events == [] {
    } else {
      CrashFreeIsGraceful(Next(w, events[0]), events[1..]);
    }
  }

  /** A cache at rest: nobody is dead, nothing is being measured, and no collection runs. */
  predicate AtRest(w: World) {
    w.dead == {} && w.sizing == map[] && w.gc.Idle?
  }

  lemma RestIsMended(w: World)
    requires AtRest(w)
    ensures Mended(w) && OrphansShow(w) && (NoOrphans(w.live) ==> AllBacked(w))
  {
  }

  lemma CrashFreeRunsNeverOvercommit(w: World, events: seq<Event>, maxBytes: nat)
    requires Inv(w) && AllBacked(w) && Mended(w)
    requires Run(w, events, maxBytes) && CrashFree(w, events)
    requires Committed(w) <= maxBytes || HasAdmission(events)
    ensures Committed(After(w, events)) <= maxBytes
  {
    CrashFreeIsGraceful(w, events);
    RecoverableCrashesNeverOvercommit(w, events, maxBytes);
  }
}
