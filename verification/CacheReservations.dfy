/**
 Why cache reservations never over-commit, and when they do.  Recorded sizes lag behind the disk, and
 a collection reads the index four times while sessions go on.
 */
module CacheReservations {
  import opened CacheProtocol
  import opened Sums

  // ---- Committed bytes ----

  lemma IndebtedUnspent(b: Book, s: nat, p: string, n: nat)
    requires s in b.reserved && Get(b.spent, s) + n <= b.reserved[s]
    ensures s in Unspent(b) && Unspent(b)[s] >= n
    ensures Unspent(Indebted(b, s, p, n)) == Unspent(b)[s := Unspent(b)[s] - n]
  {
  }

  lemma GrowSpends(b: Book, s: nat, p: string, n: nat)
    requires s in b.reserved && Get(b.spent, s) + n <= b.reserved[s]
    ensures Sum(Unspent(Indebted(b, s, p, n))) + n == Sum(Unspent(b))
  {
    IndebtedUnspent(b, s, p, n);
    SumUpdate(Unspent(b), s, Unspent(b)[s] - n);
  }

  lemma GrowCommitted(actual: map<string, nat>, b: Book, s: nat, p: string, n: nat)
    requires s in b.reserved && Get(b.spent, s) + n <= b.reserved[s]
    ensures Sum(actual[p := Get(actual, p) + n]) + Sum(Unspent(Indebted(b, s, p, n))) == Sum(actual) + Sum(Unspent(b))
  {
    SumUpdate(actual, p, Get(actual, p) + n);
    GrowSpends(b, s, p, n);
  }

  lemma EvictCommitted(actual: map<string, nat>, b: Book, p: string)
    ensures Sum(actual - {p}) + Sum(Unspent(Evicted(b, p))) <= Sum(actual) + Sum(Unspent(b))
  {
    SumDrop(actual, p);
    assert Unspent(Evicted(b, p)) == Unspent(b);
  }

  lemma ShrinkFrees(actual: map<string, nat>, p: string, n: nat)
    requires p in actual
    ensures Sum(actual[p := Minus(actual[p], n)]) <= Sum(actual)
  {
    SumUpdate(actual, p, Minus(actual[p], n));
  }

  lemma MoveFreesNothing(actual: map<string, nat>, p: string, t: string)
    requires t != p && t !in actual
    ensures Sum((actual - {p})[t := Get(actual, p)]) == Sum(actual)
  {
    SumDrop(actual, p);
    SumUpdate(actual - {p}, t, Get(actual, p));
  }

  lemma SpendingCommitsNothing(w: World, s: nat, p: string, n: nat, next: World)
    requires s in w.live.reserved && Get(w.live.spent, s) + n <= w.live.reserved[s]
    requires next.actual == w.actual[p := Get(w.actual, p) + n] && next.live == Indebted(w.live, s, p, n)
    ensures Committed(next) == Committed(w)
  {
    GrowCommitted(w.actual, w.live, s, p, n);
  }

  lemma GrowthCommitsNothing(w: World, s: nat, p: string, n: nat)
    requires s in w.live.reserved && Get(w.live.spent, s) + n <= w.live.reserved[s]
    ensures Committed(Raised(w, s, p, n)) == Committed(w)
  {
    SpendingCommitsNothing(w, s, p, n, Raised(w, s, p, n));
  }

  lemma DiskStepsCommitNothing(w: World, e: Event, maxBytes: nat)
    requires Enabled(w, e, maxBytes) && (e.Shrink? || e.Evict? || e.Strand?)
    ensures Committed(Next(w, e)) <= Committed(w)
  {
    match e
    case Shrink(p, n) => ShrinkFrees(w.actual, p, n);
    case Evict(p) => EvictCommitted(w.actual, w.live, p);
    case Strand(p, t) =>
      MoveFreesNothing(w.actual, p, t);
      assert Unspent(Next(w, e).live) == Unspent(w.live);
  }

  lemma IndexStepsCommitNothing(w: World, e: Event)
    requires e.MarkDirty? || e.Record? || e.Reconcile? || e.Forget?
    ensures Committed(Next(w, e)) == Committed(w)
  {
    assert Unspent(Next(w, e).live) == Unspent(w.live);
  }

  /** Only an admission commits further bytes. */
  lemma NextKeepsCommitted(w: World, e: Event, maxBytes: nat)
    requires Enabled(w, e, maxBytes) && !e.Admit?
    ensures Committed(Next(w, e)) <= Committed(w)
  {
    if e.Close? || e.ClearStale? {
      LeavingFrees(w.live, e.session);
    } else if e.Grow? {
      GrowthCommitsNothing(w, e.session, e.path, e.bytes);
    } else if e.Shrink? || e.Evict? || e.Strand? {
      DiskStepsCommitNothing(w, e, maxBytes);
    } else if e.MarkDirty? || e.Record? || e.Reconcile? || e.Forget? {
      IndexStepsCommitNothing(w, e);
    }
  }

  lemma LeavingFrees(b: Book, s: nat)
    ensures Sum(Unspent(Left(b, s))) <= Sum(Unspent(b))
  {
    SumDrop(Unspent(b), s);
    assert Unspent(Left(b, s)) == Unspent(b) - {s};
  }

  lemma CountedCoversLive(b: Book, live: Book)
    requires Answers(b, live)
    ensures Sum(Unspent(live)) <= Sum(Unspent(b))
  {
    var rest := Unspent(b) - Unspent(live).Keys;
    assert Unspent(b) == Unspent(live) + rest;
    SumDisjoint(Unspent(live), rest);
  }

  lemma JoinedUnspent(b: Book, s: nat, n: nat)
    ensures Unspent(Joined(b, s, n)) == Unspent(b)[s := n]
  {
  }

  lemma JoinReserves(b: Book, s: nat, n: nat)
    requires s !in b.reserved
    ensures Sum(Unspent(Joined(b, s, n))) == Sum(Unspent(b)) + n
  {
    JoinedUnspent(b, s, n);
    SumUpdate(Unspent(b), s, n);
  }

  // ---- What an admission is worth ----

  /** What the collection still counts bounds the commitments, but for what it overlooked or overdrew. */
  lemma AccountBoundsCommitted(w: World)
    requires Inv(w) && w.gc.Listed?
    ensures Committed(w) <= w.gc.managed + Sum(w.gc.book.reserved) + Sum(Unbacked(w.gc.book)) + w.gc.overdrawn
  {
    SumAdds(w.actual, w.gc.freed, Both(w.actual, w.gc.freed));
    BookBoundsDisk(Both(w.actual, w.gc.freed), w.gc.book);
    CountedCoversLive(w.gc.book, w.live);
  }

  /** After an admission the committed bytes exceed the limit by just that at most. */
  lemma AdmissionBoundsCommitted(w: World, s: nat, n: nat, maxBytes: nat)
    requires Inv(w) && Enabled(w, Admit(s, n), maxBytes)
    ensures Committed(Next(w, Admit(s, n))) <= maxBytes + Sum(Unbacked(w.gc.book)) + w.gc.overdrawn
  {
    AccountBoundsCommitted(w);
    JoinReserves(w.live, s, n);
  }

  /** What a collection adds up, after its evictions. */
  ghost function CountedBytes(gc: Gc): nat
    requires gc.Listed?
  {
    gc.managed + Sum(gc.book.reserved)
  }

  /** The guard of the code, before it looks at the request. */
  ghost predicate Admits(w: World, s: nat, maxBytes: nat) {
    Unused(w, s) && Passes(w.gc) && CountedBytes(w.gc) <= maxBytes
  }

  /** Some request that passes the guard over-commits if and only if more is committed than was counted. */
  lemma AdmissionOvercommitsExactly(w: World, s: nat, maxBytes: nat)
    requires Admits(w, s, maxBytes)
    ensures (exists n :: Enabled(w, Admit(s, n), maxBytes) && Committed(Next(w, Admit(s, n))) > maxBytes) <==>
            Committed(w) > CountedBytes(w.gc)
  {
    forall n: nat ensures Committed(Next(w, Admit(s, n))) == Committed(w) + n {
      JoinReserves(w.live, s, n);
    }
    var most: nat := maxBytes - CountedBytes(w.gc);
    assert Enabled(w, Admit(s, most), maxBytes);
    assert Committed(Next(w, Admit(s, most))) == Committed(w) + most;
  }

  // ---- Runs, crashes included ----

  /** Growth of a session that the book does not list any more. */
  predicate IsOrphan(b: Book, k: Stake) {
    k in b.debts && k.session !in b.reserved
  }

  predicate NoOrphans(b: Book) {
    forall k | k in b.debts :: !IsOrphan(b, k)
  }

  lemma NoOrphansIsBacked(b: Book)
    requires NoOrphans(b)
    ensures Sum(Unbacked(b)) == 0 && Backed(b) == b.debts
  {
    forall k | k in b.debts ensures k !in Unbacked(b) {
      assert !IsOrphan(b, k);
    }
    assert Unbacked(b).Keys == {};
  }

  ghost predicate Run(w: World, events: seq<Event>, maxBytes: nat)
    decreases |events|
  {
    events == [] || (Enabled(w, events[0], maxBytes) && Run(Next(w, events[0]), events[1..], maxBytes))
  }

  ghost function After(w: World, events: seq<Event>): World
    decreases |events|
  {
    if events == [] then w else After(Next(w, events[0]), events[1..])
  }

  predicate HasAdmission(events: seq<Event>) {
    exists e | e in events :: e.Admit?
  }

  /** An admission whose collection overlooked no orphaned growth and deducted no more than it had counted. */
  predicate CountsAll(w: World, e: Event) {
    e.Admit? && w.gc.Listed? ==> NoOrphans(w.gc.book) && w.gc.overdrawn == 0
  }

  ghost predicate CountsAllThroughout(w: World, events: seq<Event>)
    decreases |events|
  {
    events == [] || (CountsAll(w, events[0]) && CountsAllThroughout(Next(w, events[0]), events[1..]))
  }

  /**
   Whatever crashes, closes and cleans in between: if every admission counts all, managed bytes and
   unspent reservations stay within the limit, from the start if they were, and in any case from the
   first admission on.
   */
  lemma {:induction false} CountingAllNeverOvercommits(w: World, events: seq<Event>, maxBytes: nat)
    requires Inv(w) && Run(w, events, maxBytes) && CountsAllThroughout(w, events)
    requires Committed(w) <= maxBytes || HasAdmission(events)
    ensures Committed(After(w, events)) <= maxBytes && Inv(After(w, events))
    decreases |events|
  {
    if events == [] {
    } else {
      var e := events[0];
      NextKeepsInv(w, e, maxBytes);
      if e.Admit? {
        AdmissionBoundsCommitted(w, e.session, e.bytes, maxBytes);
        NoOrphansIsBacked(w.gc.book);
      } else {
        NextKeepsCommitted(w, e, maxBytes);
        assert HasAdmission(events) ==> HasAdmission(events[1..]);
      }
      CountingAllNeverOvercommits(Next(w, e), events[1..], maxBytes);
    }
  }

  // ---- When the guard of the code sees the orphans ----

  /** A collection starts to read while growth without a reservation lies on an entry that is not marked. */
  predicate Hides(w: World, e: Event) {
    e.ReadEntries? && exists k | k in w.live.debts :: IsOrphan(w.live, k) && k.path !in w.dirty
  }

  predicate OrphanOn(b: Book, path: string) {
    exists k | k in b.debts :: IsOrphan(b, k) && k.path == path
  }

  /** Between the first three readings, growth that the entries do not show loses its mark or its reservation. */
  predicate Slips(w: World, e: Event) {
    match e
    case Record(s) => (w.gc.EntriesRead? || w.gc.ReservationsRead?) && s in w.sizing && OrphanOn(w.gc.book, w.sizing[s].path)
    case Forget(p) => (w.gc.EntriesRead? || w.gc.ReservationsRead?) && OrphanOn(w.gc.book, p)
    case Close(s) => w.gc.EntriesRead? && exists k | k in w.gc.book.debts :: k.session == s && k.path !in w.dirty
    case _ => false
  }

  /** An eviction deducts more than the collection counted for the entry. */
  ghost predicate Overdraws(w: World, e: Event) {
    e.Evict? && w.gc.Listed? && e.path in w.gc.sizes && w.gc.sizes[e.path] > Cover(w.gc.book, e.path)
  }

  /** An admission on a dirty index over orphaned growth, which passes because something is reserved. */
  ghost predicate Blind(w: World, e: Event) {
    e.Admit? && w.gc.Listed? && w.gc.dirty != {} && Sum(w.gc.book.reserved) > 0 && !NoOrphans(w.gc.book)
  }

  ghost predicate Orderly(w: World, e: Event) {
    !Hides(w, e) && !Slips(w, e) && !Overdraws(w, e) && !Blind(w, e)
  }

  ghost predicate OrderlyThroughout(w: World, events: seq<Event>)
    decreases |events|
  {
    events == [] || (Orderly(w, events[0]) && OrderlyThroughout(Next(w, events[0]), events[1..]))
  }

  predicate OrphansWithin(b: Book, dirty: set<string>) {
    forall k | k in b.debts :: IsOrphan(b, k) ==> k.path in dirty
  }

  /** Orphaned growth in the collection's book lies on entries that it sees, or will see, as dirty. */
  predicate OrphansShow(w: World) {
    match w.gc
    case EntriesRead(b) => OrphansWithin(b, w.dirty)
    case ReservationsRead(b) => OrphansWithin(b, w.dirty)
    case Counted(b, dirty) => OrphansWithin(b, dirty)
    case Listed(b, dirty, _, _, _, over) => OrphansWithin(b, dirty) && over == 0
    case _ => true
  }

  lemma GrowthKeepsShown(b: Book, dirty: set<string>, s: nat, p: string, n: nat)
    requires OrphansWithin(b, dirty) && s in b.reserved
    ensures OrphansWithin(Indebted(b, s, p, n), dirty)
  {
  }

  lemma ShedKeepsShown(b: Book, dirty: set<string>, p: string)
    requires OrphansWithin(b, dirty)
    ensures OrphansWithin(Shed(b, p), dirty - {p})
  {
  }

  lemma GrowKeepsOrphansShown(w: World, s: nat, p: string, n: nat, maxBytes: nat)
    requires Inv(w) && OrphansShow(w) && Enabled(w, Grow(s, p, n), maxBytes)
    ensures OrphansShow(Raised(w, s, p, n))
  {
    if HasBook(w.gc) {
      GrowthKeepsShown(w.gc.book, if w.gc.Counted? || w.gc.Listed? then w.gc.dirty else w.dirty, s, p, n);
    }
  }

  lemma SessionKeepsOrphansShown(w: World, e: Event)
    requires OrphansShow(w) && !Slips(w, e) && (e.Record? || e.Forget? || e.Close?)
    ensures OrphansShow(Next(w, e))
  {
  }

  lemma NextKeepsOrphansShown(w: World, e: Event, maxBytes: nat)
    requires Inv(w) && OrphansShow(w) && Enabled(w, e, maxBytes)
    requires !Hides(w, e) && !Slips(w, e) && !Overdraws(w, e)
    ensures OrphansShow(Next(w, e))
  {
    if e.Grow? {
      GrowKeepsOrphansShown(w, e.session, e.path, e.bytes, maxBytes);
    } else if e.Record? || e.Forget? || e.Close? {
      SessionKeepsOrphansShown(w, e);
    } else if e.Evict? {
      ShedKeepsShown(w.gc.book, w.gc.dirty, e.path);
    }
  }

  /** The guard of the code: a collection that sees no dirty entry has counted all growth. */
  lemma CleanIndexCountsAll(w: World, e: Event, maxBytes: nat)
    requires OrphansShow(w) && Enabled(w, e, maxBytes) && !Blind(w, e)
    ensures CountsAll(w, e)
  {
  }

  lemma {:induction false} OrderlyRunsCountAll(w: World, events: seq<Event>, maxBytes: nat)
    requires Inv(w) && OrphansShow(w) && Run(w, events, maxBytes) && OrderlyThroughout(w, events)
    ensures CountsAllThroughout(w, events)
    decreases |events|
  {
    if events == [] {
    } else {
      var e := events[0];
      NextKeepsInv(w, e, maxBytes);
      NextKeepsOrphansShown(w, e, maxBytes);
      CleanIndexCountsAll(w, e, maxBytes);
      OrderlyRunsCountAll(Next(w, e), events[1..], maxBytes);
    }
  }

  /**
   Sessions may crash at any point and leave without measuring, measurements may overtake one another,
   and rows may be forgotten.  The cache over-commits only if a collection started to read while growth
   without a reservation lay on an unmarked entry, or growth slipped between its first three
   readings, or an eviction deducted more than the collection had counted for the entry, or an
   admission passed on a dirty index, by somebody's reservation, over growth without one.
   */
  lemma NeverOverCommitted(w: World, events: seq<Event>, maxBytes: nat)
    requires Inv(w) && OrphansShow(w)
    requires Run(w, events, maxBytes) && OrderlyThroughout(w, events)
    requires Committed(w) <= maxBytes || HasAdmission(events)
    ensures Committed(After(w, events)) <= maxBytes
  {
    OrderlyRunsCountAll(w, events, maxBytes);
    CountingAllNeverOvercommits(w, events, maxBytes);
  }

  // ---- Without orphans ----

  predicate AllBacked(w: World) {
    && NoOrphans(w.live)
    && (HasBook(w.gc) ==> NoOrphans(w.gc.book))
    && (w.gc.Listed? ==> w.gc.overdrawn == 0)
  }

  /** Growth stays unmeasured that has lost its reservation, or an eviction deducts too much. */
  ghost predicate Loses(w: World, e: Event) {
    match e
    case Close(s) => !Settled(w.live, s) || (w.gc.EntriesRead? && !Settled(w.gc.book, s))
    case ClearStale(s) => !Settled(w.live, s)
    case Record(s) => s in w.sizing && exists k | k in Since(w.grown, w.sizing[s]) :: k.session !in w.live.reserved
    case Forget(p) => Lost(w, p) > 0
    case Strand(p, _) => Get(w.actual, p) > 0
    case Evict(_) => Overdraws(w, e)
    case _ => false
  }

  ghost predicate NeverLoses(w: World, events: seq<Event>)
    decreases |events|
  {
    events == [] || (!Loses(w, events[0]) && NeverLoses(Next(w, events[0]), events[1..]))
  }

  lemma LiveStaysBacked(w: World, e: Event, maxBytes: nat)
    requires AllBacked(w) && Enabled(w, e, maxBytes) && !Loses(w, e)
    ensures NoOrphans(Next(w, e).live)
  {
    forall k | k in Next(w, e).live.debts ensures !IsOrphan(Next(w, e).live, k) {
      if k in w.live.debts {
        assert !IsOrphan(w.live, k);
      }
    }
  }

  lemma FewerStayBacked(b: Book, after: Book)
    requires NoOrphans(b) && after.debts.Keys <= b.debts.Keys
    requires forall k :: k in after.debts && k.session in b.reserved ==> k.session in after.reserved
    ensures NoOrphans(after)
  {
    forall k | k in after.debts ensures !IsOrphan(after, k) {
      assert !IsOrphan(b, k);
    }
  }

  lemma BookStaysBacked(w: World, e: Event, maxBytes: nat)
    requires Inv(w) && AllBacked(w) && Enabled(w, e, maxBytes) && !Loses(w, e) && HasBook(Next(w, e).gc)
    ensures NoOrphans(Next(w, e).gc.book)
  {
    if e.ReadEntries? {
    } else if e.Grow? {
      GrowthStaysBacked(w.gc.book, e.session, e.path, e.bytes);
    } else {
      FewerStayBacked(w.gc.book, Next(w, e).gc.book);
    }
  }

  lemma NothingIsOverdrawn(w: World, e: Event)
    requires AllBacked(w) && !Loses(w, e) && Next(w, e).gc.Listed?
    ensures Next(w, e).gc.overdrawn == 0
  {
  }

  lemma GrowthStaysBacked(b: Book, s: nat, p: string, n: nat)
    requires NoOrphans(b) && s in b.reserved
    ensures NoOrphans(Indebted(b, s, p, n))
  {
    forall k | k in Indebted(b, s, p, n).debts ensures k.session in b.reserved {
      assert k == Stake(s, p) || !IsOrphan(b, k);
    }
  }

  lemma NextKeepsBacked(w: World, e: Event, maxBytes: nat)
    requires Inv(w) && AllBacked(w) && Enabled(w, e, maxBytes) && !Loses(w, e)
    ensures AllBacked(Next(w, e))
  {
    LiveStaysBacked(w, e, maxBytes);
    if HasBook(Next(w, e).gc) {
      BookStaysBacked(w, e, maxBytes);
      if Next(w, e).gc.Listed? {
        NothingIsOverdrawn(w, e);
      }
    }
  }

  /** Dirty marks do not matter while no growth loses its reservation unmeasured. */
  lemma {:induction false} BackedRunsNeverOvercommit(w: World, events: seq<Event>, maxBytes: nat)
    requires Inv(w) && AllBacked(w) && Run(w, events, maxBytes) && NeverLoses(w, events)
    ensures CountsAllThroughout(w, events)
    ensures Committed(w) <= maxBytes || HasAdmission(events) ==> Committed(After(w, events)) <= maxBytes
    decreases |events|
  {
    if events == [] {
    } else {
      NextKeepsInv(w, events[0], maxBytes);
      NextKeepsBacked(w, events[0], maxBytes);
      BackedRunsNeverOvercommit(Next(w, events[0]), events[1..], maxBytes);
    }
    if Committed(w) <= maxBytes || HasAdmission(events) {
      CountingAllNeverOvercommits(w, events, maxBytes);
    }
  }
}
