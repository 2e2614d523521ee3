/**
 The steps of the cache reservation protocol (`reserve_cache_capacity`, `managed_project_session`,
 `_garbage_collect_cache_locked` in `cache.py`).  An admission trusts recorded sizes, which lag
 behind the disk while sessions grow their entries.
 */
module CacheProtocol {
  import opened Sums

  datatype Stake = Stake(session: nat, path: string)

  /** What a session has added to a path since the path was last measured. */
  type Debts = map<Stake, nat>

  /** One reading of the index with, for the proof, the growth that has not been measured. */
  datatype Book = Book(recorded: map<string, nat>, debts: Debts, reserved: map<nat, nat>, spent: map<nat, nat>)

  function PathDebts(debts: Debts, path: string): Debts {
    debts - (set k | k in debts && k.path != path)
  }

  function SessionDebts(debts: Debts, session: nat): Debts {
    debts - (set k | k in debts && k.session != session)
  }

  ghost function OnPath(debts: Debts, path: string): nat {
    Sum(PathDebts(debts, path))
  }

  ghost function OfSession(debts: Debts, session: nat): nat {
    Sum(SessionDebts(debts, session))
  }

  /** Sizes lag by at most the debts; a session's debts are at most what it spent and reserved. */
  ghost predicate Honest(actual: map<string, nat>, b: Book) {
    SizesCovered(actual, b) && SpendingCovered(b)
  }

  ghost predicate SizesCovered(actual: map<string, nat>, b: Book) {
    forall p :: p in actual ==> actual[p] <= Get(b.recorded, p) + OnPath(b.debts, p)
  }

  ghost predicate SpendingCovered(b: Book) {
    forall s :: s in b.reserved ==> s in b.spent && OfSession(b.debts, s) <= b.spent[s] <= b.reserved[s]
  }

  function Unspent(b: Book): map<nat, nat> {
    map s | s in b.reserved && Get(b.spent, s) <= b.reserved[s] :: b.reserved[s] - Get(b.spent, s)
  }

  function Backed(b: Book): Debts {
    b.debts - (set k | k in b.debts && k.session !in b.reserved)
  }

  /** Growth that no reservation in the book answers for. */
  function Unbacked(b: Book): Debts {
    b.debts - (set k | k in b.debts && k.session in b.reserved)
  }

  function Spendings(b: Book): map<nat, nat> {
    map s | s in b.reserved :: Get(b.spent, s)
  }

  lemma WithoutSession(b: Book, s: nat)
    ensures Unspent(b.(reserved := b.reserved - {s})) == Unspent(b) - {s}
    ensures Spendings(b.(reserved := b.reserved - {s})) == Spendings(b) - {s}
  {
  }

  lemma {:induction false} SpentAndUnspent(b: Book)
    requires forall s :: s in b.reserved ==> Get(b.spent, s) <= b.reserved[s]
    ensures Sum(Unspent(b)) + Sum(Spendings(b)) == Sum(b.reserved)
    decreases |b.reserved|
  {
    if b.reserved.Keys == {} {
      assert Unspent(b).Keys == {} && Spendings(b).Keys == {};
    } else {
      var s :| s in b.reserved.Keys;
      SpentAndUnspent(b.(reserved := b.reserved - {s}));
      WithoutSession(b, s);
      SumPicks(b.reserved, s);
      SumPicks(Unspent(b), s);
      SumPicks(Spendings(b), s);
    }
  }

  lemma BackedAndUnbacked(b: Book)
    ensures Sum(b.debts) == Sum(Backed(b)) + Sum(Unbacked(b))
  {
    assert b.debts == Backed(b) + Unbacked(b);
    SumDisjoint(Backed(b), Unbacked(b));
  }

  lemma BackedIsSpent(b: Book)
    requires SpendingCovered(b)
    ensures Sum(Backed(b)) <= Sum(Spendings(b))
  {
    var f := (k: Stake) => k.session;
    forall s | s in Spendings(b) ensures Sum(Fibre(Backed(b), f, s)) <= Spendings(b)[s] {
      assert Fibre(Backed(b), f, s) == SessionDebts(b.debts, s);
      assert OfSession(b.debts, s) <= b.spent[s];
    }
    FibresFit(Backed(b), f, Spendings(b));
  }

  lemma SizesBoundDisk(actual: map<string, nat>, b: Book)
    requires SizesCovered(actual, b)
    ensures Sum(actual) <= Sum(b.recorded) + Sum(b.debts)
  {
    var f := (k: Stake) => k.path;
    forall p | p in actual ensures actual[p] <= Get(b.recorded, p) + Sum(Fibre(b.debts, f, p)) {
      assert Fibre(b.debts, f, p) == PathDebts(b.debts, p);
      assert actual[p] <= Get(b.recorded, p) + OnPath(b.debts, p);
    }
    FibresCover(actual, b.recorded, b.debts, f);
  }

  /** An honest book bounds the disk: what is there and what may still come. */
  lemma BookBoundsDisk(actual: map<string, nat>, b: Book)
    requires Honest(actual, b)
    ensures Sum(actual) + Sum(Unspent(b)) <= Sum(b.recorded) + Sum(b.reserved) + Sum(Unbacked(b))
  {
    SizesBoundDisk(actual, b);
    BackedAndUnbacked(b);
    BackedIsSpent(b);
    SpentAndUnspent(b);
  }

  // ---- Steps ----

  /** No session has this number.  The collector measures under it, and it owns bytes whose row was dropped. */
  const NOBODY: nat := 0

  /**
   A collection under the admission lock.  It measures what it can, clears the reservations of dead
   sessions, and then reads the entries, the reservations, the dirty marks and the candidates one
   after another.  An eviction deducts the size read with the candidates from the managed bytes.
   For the proof, `freed` is what evictions have deducted of bytes that the book knows, and
   `overdrawn` what they have deducted beyond.
   */
  datatype Gc =
    | Idle
    | Reconciling(todo: set<string>)
    | EntriesRead(book: Book)
    | ReservationsRead(book: Book)
    | Counted(book: Book, dirty: set<string>)
    | Listed(book: Book, dirty: set<string>, sizes: map<string, nat>, managed: nat,
             freed: map<string, nat>, overdrawn: nat)

  /**
   A measurement that is not recorded yet.  If the entry was not `present` its row will go; `base` is
   what had been grown when it was taken.
   */
  datatype Sizing = Sizing(path: string, present: bool, bytes: nat, base: Debts)

  /**
   `held` are the shared leases on entries, `sizing` the measurements of sessions, of the collector and
   of anybody else, `grown` all that sessions ever added.  A dead session keeps its reservation until
   it is cleared.
   */
  datatype World = World(
    actual: map<string, nat>, live: Book, dirty: set<string>, held: set<Stake>, dead: set<nat>,
    sizing: map<nat, Sizing>, grown: Debts, gc: Gc)

  datatype Event =
    | Hold(session: nat, path: string)
    | LetGo(session: nat, path: string)
    | Grow(session: nat, path: string, bytes: nat)
    | Shrink(path: string, bytes: nat)
    | MarkDirty(path: string)
    | Measure(session: nat, path: string, found: bool)
    | Record(session: nat)
    | Close(session: nat)
    | Crash(session: nat)
    | StartGc(listed: set<string>, changed: set<string>)
    | Reconcile(path: string)
    | Forget(path: string)
    | ClearStale(session: nat)
    | ReadEntries
    | ReadReservations
    | ReadDirty
    | ReadCandidates
    | Evict(path: string)
    | Strand(path: string, trash: string)
    | GiveUp
    | Admit(session: nat, bytes: nat)

  function WithoutPath(debts: Debts, path: string): Debts {
    debts - (set k | k in debts && k.path == path)
  }

  function More(debts: Debts, k: Stake, n: nat): Debts {
    debts[k := Get(debts, k) + n]
  }

  function Indebted(b: Book, s: nat, p: string, n: nat): Book {
    b.(debts := More(b.debts, Stake(s, p), n),
       spent := if s in b.reserved then b.spent[s := Get(b.spent, s) + n] else b.spent)
  }

  function Evicted(b: Book, p: string): Book {
    b.(recorded := b.recorded - {p}, debts := WithoutPath(b.debts, p))
  }

  function Left(b: Book, s: nat): Book {
    b.(reserved := b.reserved - {s}, spent := b.spent - {s})
  }

  function Joined(b: Book, s: nat, bytes: nat): Book {
    b.(reserved := b.reserved[s := bytes], spent := b.spent[s := 0])
  }

  /** Growth on the path of the measurement since it was taken. */
  function Since(grown: Debts, m: Sizing): Debts {
    map k | k in grown && k.path == m.path && grown[k] > Get(m.base, k) :: grown[k] - Get(m.base, k)
  }

  /** The measured size replaces the row, and only later growth stays unmeasured. */
  function Recorded(b: Book, grown: Debts, m: Sizing): Book {
    b.(recorded := if m.present then b.recorded[m.path := m.bytes] else b.recorded - {m.path},
       debts := WithoutPath(b.debts, m.path) + Since(grown, m))
  }

  /** The row goes; bytes that are still there belong to nobody. */
  function Dropped(b: Book, p: string, bytes: nat): Book {
    b.(recorded := b.recorded - {p}, debts := if bytes == 0 then b.debts else More(b.debts, Stake(NOBODY, p), bytes))
  }

  /** Growth of sessions without a reservation is taken off one path. */
  function Shed(b: Book, p: string): Book {
    b.(debts := b.debts - (set k | k in b.debts && k.path == p && k.session !in b.reserved))
  }

  predicate Settled(b: Book, s: nat) {
    forall k | k in b.debts :: k.session != s
  }

  /** Session numbers are never used twice. */
  predicate Unused(w: World, s: nat) {
    && s != NOBODY && s !in w.live.reserved && Settled(w.live, s)
    && forall k | k in w.grown :: k.session != s
  }

  predicate Alive(w: World, s: nat) {
    s in w.live.reserved && s !in w.dead
  }

  predicate IsHeld(w: World, p: string) {
    exists k | k in w.held :: k.path == p
  }

  /** Entries on disk without a row. */
  function Unknown(w: World): set<string> {
    w.actual.Keys - w.live.recorded.Keys
  }

  predicate IsReconciled(w: World) {
    w.gc.Reconciling? && w.gc.todo == {} && NOBODY !in w.sizing
  }

  /** The guard of a collection that has read everything, before it looks at the request. */
  ghost predicate Passes(gc: Gc) {
    gc.Listed? && (gc.dirty == {} || Sum(gc.book.reserved) > 0)
  }

  /**
   A session grows what it holds, within its reservation.  Entries are measured, marked and forgotten
   by sessions that leave, with or without a lease, by the collector, and by the command line, which
   reconciles the index without the admission lock; a measurement that started from a listing writes
   a row even if the entry has gone.  Reconciling looks at the entries it finds `listed` that are
   marked or unknown, and at those `changed`; it has let go of an entry's lease when it records the
   size.  A row is forgotten when a listing did not find its entry.  A failed deletion strands the
   bytes under another name; its row counts as marked, as reconciling will look at it.
   */
  ghost predicate Enabled(w: World, e: Event, maxBytes: nat) {
    match e
    case Hold(s, _) => Alive(w, s)
    case LetGo(s, _) => Alive(w, s)
    case Grow(s, p, n) =>
      n > 0 && Alive(w, s) && Stake(s, p) in w.held && Get(w.live.spent, s) + n <= w.live.reserved[s]
    case Shrink(p, n) => p in w.actual && n <= w.actual[p]
    case MarkDirty(_) => true
    case Measure(s, _, _) => s != NOBODY && s !in w.sizing
    case Record(s) => s in w.sizing
    case Close(s) => Alive(w, s)
    case Crash(s) => Alive(w, s)
    case StartGc(_, _) => w.gc.Idle?
    case Reconcile(p) => w.gc.Reconciling? && p in w.gc.todo && NOBODY !in w.sizing
    case Forget(_) => true
    case ClearStale(s) => IsReconciled(w) && s in w.dead
    case ReadEntries => IsReconciled(w)
    case ReadReservations => w.gc.EntriesRead?
    case ReadDirty => w.gc.ReservationsRead?
    case ReadCandidates => w.gc.Counted?
    case Evict(p) => w.gc.Listed? && p in w.gc.sizes && !IsHeld(w, p)
    case Strand(p, t) =>
      && w.gc.Listed? && p in w.gc.sizes && !IsHeld(w, p)
      && t != p && t !in w.actual && t !in w.live.recorded
      && forall s | s in w.sizing :: w.sizing[s].path != t
    case GiveUp => true
    case Admit(s, n) => Unused(w, s) && Passes(w.gc) && w.gc.managed + Sum(w.gc.book.reserved) + n <= maxBytes
  }

  function GcIndebted(gc: Gc, s: nat, p: string, n: nat): Gc {
    match gc
    case EntriesRead(b) => EntriesRead(Indebted(b, s, p, n))
    case ReservationsRead(b) => ReservationsRead(Indebted(b, s, p, n))
    case Counted(b, d) => Counted(Indebted(b, s, p, n), d)
    case Listed(b, d, sizes, managed, freed, over) => Listed(Indebted(b, s, p, n), d, sizes, managed, freed, over)
    case _ => gc
  }

  /** What the collection counted for an entry, as a row or within a reservation. */
  ghost function Cover(b: Book, p: string): nat {
    Get(b.recorded, p) + OnPath(Backed(b), p)
  }

  function Minus(n: nat, m: nat): nat {
    if m <= n then n - m else 0
  }

  function Smaller(n: nat, m: nat): nat {
    if m <= n then m else n
  }

  ghost function GcEvicted(gc: Gc, p: string): Gc {
    if gc.Listed? && p in gc.sizes then
      var size, cover := gc.sizes[p], Cover(gc.book, p);
      Listed(Shed(gc.book, p), gc.dirty - {p}, gc.sizes - {p}, Minus(gc.managed, size),
             gc.freed[p := Smaller(size, cover)], gc.overdrawn + Minus(size, cover))
    else gc
  }

  /** A row keeps its size; a new row starts with none. */
  function Marked(w: World, p: string): World {
    w.(live := w.live.(recorded := w.live.recorded[p := Get(w.live.recorded, p)]), dirty := w.dirty + {p})
  }

  function Sizes(w: World, s: nat, p: string, listed: bool): World {
    w.(sizing := w.sizing[s := Sizing(p, listed || p in w.actual, Get(w.actual, p), w.grown)])
  }

  /** What a forgotten row told of bytes that are on disk. */
  function Lost(w: World, p: string): nat {
    Smaller(Get(w.live.recorded, p), Get(w.actual, p))
  }

  /** An entry is measured if its lease is free, and marked otherwise. */
  function Reconciled(w: World, p: string): World {
    var after := if IsHeld(w, p) then Marked(w, p) else Sizes(w, NOBODY, p, true);
    after.(gc := if w.gc.Reconciling? then Reconciling(w.gc.todo - {p}) else w.gc)
  }

  function Stranded(w: World, p: string, t: string): World {
    var bytes := Get(w.actual, p);
    w.(actual := (w.actual - {p})[t := bytes], dirty := w.dirty + {p}, gc := Idle,
       live := w.live.(debts := if bytes == 0 then w.live.debts else More(w.live.debts, Stake(NOBODY, t), bytes)))
  }

  function Raised(w: World, s: nat, p: string, n: nat): World {
    w.(actual := w.actual[p := Get(w.actual, p) + n], live := Indebted(w.live, s, p, n),
       grown := More(w.grown, Stake(s, p), n), gc := GcIndebted(w.gc, s, p, n))
  }

  function Released(held: set<Stake>, s: nat): set<Stake> {
    set k | k in held && k.session != s
  }

  /** The reservation row disappears; reservations already counted stay counted. */
  function Gone(w: World, s: nat): World {
    w.(live := Left(w.live, s), gc := if w.gc.EntriesRead? then EntriesRead(Left(w.gc.book, s)) else w.gc)
  }

  ghost function Next(w: World, e: Event): World {
    match e
    case Hold(s, p) => w.(held := w.held + {Stake(s, p)})
    case LetGo(s, p) => w.(held := w.held - {Stake(s, p)})
    case Grow(s, p, n) => Raised(w, s, p, n)
    case Shrink(p, n) => w.(actual := w.actual[p := Minus(Get(w.actual, p), n)])
    case MarkDirty(p) => Marked(w, p)
    case Measure(s, p, listed) => Sizes(w, s, p, listed)
    case Record(s) =>
      if s in w.sizing then
        w.(live := Recorded(w.live, w.grown, w.sizing[s]), dirty := w.dirty - {w.sizing[s].path}, sizing := w.sizing - {s})
      else w
    case Close(s) => Gone(w, s).(held := Released(w.held, s), sizing := w.sizing - {s})
    case Crash(s) => w.(held := Released(w.held, s), sizing := w.sizing - {s}, dead := w.dead + {s})
    case StartGc(listed, changed) =>
      w.(gc := Reconciling((w.dirty + Unknown(w)) * listed + changed))
    case Reconcile(p) => Reconciled(w, p)
    case Forget(p) => w.(live := Dropped(w.live, p, Lost(w, p)), dirty := w.dirty - {p})
    case ClearStale(s) => Gone(w, s).(dead := w.dead - {s})
    case ReadEntries => w.(gc := EntriesRead(w.live))
    case ReadReservations => if w.gc.EntriesRead? then w.(gc := ReservationsRead(w.gc.book)) else w
    case ReadDirty => if w.gc.ReservationsRead? then w.(gc := Counted(w.gc.book, w.dirty)) else w
    case ReadCandidates =>
      if w.gc.Counted? then
        w.(gc := Listed(w.gc.book, w.gc.dirty, w.live.recorded, Sum(w.gc.book.recorded), map[], 0))
      else w
    case Evict(p) =>
      w.(actual := w.actual - {p}, live := Evicted(w.live, p), dirty := w.dirty - {p}, gc := GcEvicted(w.gc, p))
    case Strand(p, t) => Stranded(w, p, t)
    case GiveUp => w.(gc := Idle, sizing := w.sizing - {NOBODY})
    case Admit(s, n) => w.(live := Joined(w.live, s, n), gc := Idle)
  }

  // ---- The invariant ----

  predicate HasBook(gc: Gc) {
    gc.EntriesRead? || gc.ReservationsRead? || gc.Counted? || gc.Listed?
  }

  /** Disk bytes and what evictions have freed, path by path. */
  function Both(actual: map<string, nat>, freed: map<string, nat>): map<string, nat> {
    map p | p in actual.Keys + freed.Keys :: Get(actual, p) + Get(freed, p)
  }

  /** Every live reservation was counted, with what it has spent by now. */
  ghost predicate Answers(b: Book, live: Book) {
    forall s :: s in live.reserved ==>
      && s in b.reserved && b.reserved[s] == live.reserved[s]
      && Get(b.spent, s) == Get(live.spent, s)
  }

  ghost predicate GcInv(actual: map<string, nat>, live: Book, gc: Gc) {
    match gc
    case EntriesRead(b) => Honest(actual, b) && b.reserved == live.reserved && b.spent == live.spent
    case ReservationsRead(b) => Honest(actual, b) && Answers(b, live)
    case Counted(b, _) => Honest(actual, b) && Answers(b, live)
    case Listed(b, _, sizes, managed, freed, over) =>
      && Honest(Both(actual, freed), b) && Answers(b, live)
      && sizes.Keys !! freed.Keys
      && managed + Sum(freed) + over >= Sum(b.recorded)
    case _ => true
  }

  /** Unmeasured growth is growth, and a session has spent all that it grew. */
  ghost predicate Tracked(w: World) {
    && (forall s :: s in w.live.reserved ==> OfSession(w.grown, s) <= Get(w.live.spent, s))
    && (forall k :: k in w.live.debts && k.session in w.live.reserved ==>
          k in w.grown && w.live.debts[k] <= w.grown[k])
  }

  /** A measurement under way, with what was grown since, covers its entry. */
  ghost predicate SizingCovers(w: World, m: Sizing) {
    && (!m.present ==> m.bytes == 0)
    && (forall k :: k in m.base ==> k in w.grown && m.base[k] <= w.grown[k])
    && Get(w.actual, m.path) <= m.bytes + OnPath(Since(w.grown, m), m.path)
  }

  ghost predicate SizingsCover(w: World) {
    forall s :: s in w.sizing ==> SizingCovers(w, w.sizing[s])
  }

  ghost predicate LiveInv(w: World) {
    Honest(w.actual, w.live) && Tracked(w) && NOBODY !in w.live.reserved
  }

  ghost predicate Inv(w: World) {
    LiveInv(w) && SizingsCover(w) && GcInv(w.actual, w.live, w.gc)
  }

  /** Bytes on disk and bytes that live sessions may still add. */
  ghost function Committed(w: World): nat {
    Sum(w.actual) + Sum(Unspent(w.live))
  }

  // ---- Growth ----

  lemma MoreOnPath(debts: Debts, s: nat, p: string, n: nat, q: string)
    ensures OnPath(More(debts, Stake(s, p), n), q) == OnPath(debts, q) + if q == p then n else 0
  {
    var more := More(debts, Stake(s, p), n);
    if q == p {
      assert PathDebts(more, q) == More(PathDebts(debts, q), Stake(s, p), n);
      assert Get(PathDebts(debts, q), Stake(s, p)) == Get(debts, Stake(s, p));
      SumUpdate(PathDebts(debts, q), Stake(s, p), Get(debts, Stake(s, p)) + n);
    } else {
      assert PathDebts(more, q) == PathDebts(debts, q);
    }
  }

  lemma MoreOfSession(debts: Debts, s: nat, p: string, n: nat, t: nat)
    ensures OfSession(More(debts, Stake(s, p), n), t) == OfSession(debts, t) + if t == s then n else 0
  {
    var more := More(debts, Stake(s, p), n);
    if t == s {
      assert SessionDebts(more, t) == More(SessionDebts(debts, t), Stake(s, p), n);
      assert Get(SessionDebts(debts, t), Stake(s, p)) == Get(debts, Stake(s, p));
      SumUpdate(SessionDebts(debts, t), Stake(s, p), Get(debts, Stake(s, p)) + n);
    } else {
      assert SessionDebts(more, t) == SessionDebts(debts, t);
    }
  }

  lemma GrowKeepsSizes(actual: map<string, nat>, b: Book, s: nat, p: string, n: nat)
    requires SizesCovered(actual, b)
    ensures SizesCovered(actual[p := Get(actual, p) + n], Indebted(b, s, p, n))
  {
    var grown := actual[p := Get(actual, p) + n];
    forall q | q in grown ensures grown[q] <= Get(b.recorded, q) + OnPath(Indebted(b, s, p, n).debts, q) {
      MoreOnPath(b.debts, s, p, n, q);
    }
  }

  lemma GrowKeepsSpending(b: Book, s: nat, p: string, n: nat)
    requires SpendingCovered(b)
    requires s in b.reserved ==> Get(b.spent, s) + n <= b.reserved[s]
    ensures SpendingCovered(Indebted(b, s, p, n))
  {
    var after := Indebted(b, s, p, n);
    forall t | t in after.reserved
      ensures t in after.spent && OfSession(after.debts, t) <= after.spent[t] <= after.reserved[t]
    {
      MoreOfSession(b.debts, s, p, n, t);
    }
  }

  lemma GrowKeepsHonest(actual: map<string, nat>, b: Book, s: nat, p: string, n: nat)
    requires Honest(actual, b)
    requires s in b.reserved ==> Get(b.spent, s) + n <= b.reserved[s]
    ensures Honest(actual[p := Get(actual, p) + n], Indebted(b, s, p, n))
  {
    GrowKeepsSizes(actual, b, s, p, n);
    GrowKeepsSpending(b, s, p, n);
  }

  lemma PathDropped(debts: Debts, p: string, q: string)
    ensures OnPath(WithoutPath(debts, p), q) == if q == p then 0 else OnPath(debts, q)
  {
    if q == p {
      assert PathDebts(WithoutPath(debts, p), q).Keys == {};
    } else {
      assert PathDebts(WithoutPath(debts, p), q) == PathDebts(debts, q);
    }
  }

  lemma SessionShrinks(debts: Debts, p: string, s: nat)
    ensures OfSession(WithoutPath(debts, p), s) <= OfSession(debts, s)
  {
    var less, all := SessionDebts(WithoutPath(debts, p), s), SessionDebts(debts, s);
    var rest := all - less.Keys;
    assert all == less + rest;
    SumDisjoint(less, rest);
  }

  lemma EvictKeepsHonest(actual: map<string, nat>, b: Book, p: string)
    requires Honest(actual, b)
    ensures Honest(actual - {p}, Evicted(b, p))
  {
    forall q ensures OnPath(WithoutPath(b.debts, p), q) == if q == p then 0 else OnPath(b.debts, q) {
      PathDropped(b.debts, p, q);
    }
    forall s | s in b.reserved ensures OfSession(WithoutPath(b.debts, p), s) <= OfSession(b.debts, s) {
      SessionShrinks(b.debts, p, s);
    }
  }

  lemma JoinKeepsHonest(actual: map<string, nat>, b: Book, s: nat, n: nat)
    requires Honest(actual, b) && Settled(b, s)
    ensures Honest(actual, Joined(b, s, n))
  {
    assert SessionDebts(b.debts, s).Keys == {};
  }

  lemma GrowKeepsAnswers(b: Book, live: Book, s: nat, p: string, n: nat)
    requires Answers(b, live) && s in live.reserved
    ensures Answers(Indebted(b, s, p, n), Indebted(live, s, p, n))
  {
  }

  lemma BothGrows(actual: map<string, nat>, freed: map<string, nat>, p: string, n: nat)
    ensures var both := Both(actual, freed);
            Both(actual[p := Get(actual, p) + n], freed) == both[p := Get(both, p) + n]
  {
  }

  lemma GrowKeepsListed(actual: map<string, nat>, live: Book, gc: Gc, s: nat, p: string, n: nat)
    requires GcInv(actual, live, gc) && gc.Listed?
    requires s in live.reserved && Get(live.spent, s) + n <= live.reserved[s]
    ensures GcInv(actual[p := Get(actual, p) + n], Indebted(live, s, p, n), GcIndebted(gc, s, p, n))
  {
    GrowKeepsHonest(Both(actual, gc.freed), gc.book, s, p, n);
    BothGrows(actual, gc.freed, p, n);
    GrowKeepsAnswers(gc.book, live, s, p, n);
  }

  lemma GrowKeepsCounted(actual: map<string, nat>, live: Book, gc: Gc, s: nat, p: string, n: nat)
    requires GcInv(actual, live, gc) && HasBook(gc) && !gc.Listed?
    requires s in live.reserved && Get(live.spent, s) + n <= live.reserved[s]
    ensures GcInv(actual[p := Get(actual, p) + n], Indebted(live, s, p, n), GcIndebted(gc, s, p, n))
  {
    GrowKeepsHonest(actual, gc.book, s, p, n);
    if !gc.EntriesRead? {
      GrowKeepsAnswers(gc.book, live, s, p, n);
    }
  }

  lemma GrowKeepsGc(actual: map<string, nat>, live: Book, gc: Gc, s: nat, p: string, n: nat)
    requires GcInv(actual, live, gc)
    requires s in live.reserved && Get(live.spent, s) + n <= live.reserved[s]
    ensures GcInv(actual[p := Get(actual, p) + n], Indebted(live, s, p, n), GcIndebted(gc, s, p, n))
  {
    if gc.Listed? {
      GrowKeepsListed(actual, live, gc, s, p, n);
    } else if HasBook(gc) {
      GrowKeepsCounted(actual, live, gc, s, p, n);
    }
  }

  lemma GrowKeepsTracked(w: World, s: nat, p: string, n: nat, maxBytes: nat)
    requires Inv(w) && Enabled(w, Grow(s, p, n), maxBytes)
    ensures Tracked(Raised(w, s, p, n))
  {
    forall t | t in w.live.reserved
      ensures OfSession(More(w.grown, Stake(s, p), n), t) <= Get(Indebted(w.live, s, p, n).spent, t)
    {
      MoreOfSession(w.grown, s, p, n, t);
    }
  }

  lemma SinceGrows(grown: Debts, m: Sizing, s: nat, p: string, n: nat)
    requires n > 0 && Get(m.base, Stake(s, p)) <= Get(grown, Stake(s, p))
    ensures Since(More(grown, Stake(s, p), n), m)
         == if p == m.path then More(Since(grown, m), Stake(s, p), n) else Since(grown, m)
  {
  }

  lemma GrowKeepsSizing(w: World, s: nat, p: string, n: nat, m: Sizing)
    requires n > 0 && SizingCovers(w, m)
    ensures SizingCovers(Raised(w, s, p, n), m)
  {
    SinceGrows(w.grown, m, s, p, n);
    MoreOnPath(Since(w.grown, m), s, p, n, m.path);
  }

  lemma GrowKeepsLive(w: World, s: nat, p: string, n: nat, maxBytes: nat)
    requires Inv(w) && Enabled(w, Grow(s, p, n), maxBytes)
    ensures LiveInv(Raised(w, s, p, n))
  {
    GrowKeepsHonest(w.actual, w.live, s, p, n);
    GrowKeepsTracked(w, s, p, n, maxBytes);
  }

  lemma GrowKeepsCollection(w: World, s: nat, p: string, n: nat)
    requires GcInv(w.actual, w.live, w.gc)
    requires s in w.live.reserved && Get(w.live.spent, s) + n <= w.live.reserved[s]
    ensures GcInv(Raised(w, s, p, n).actual, Raised(w, s, p, n).live, Raised(w, s, p, n).gc)
  {
    GcInvMoves(w, s, p, n, Raised(w, s, p, n));
  }

  lemma GcInvMoves(w: World, s: nat, p: string, n: nat, next: World)
    requires GcInv(w.actual, w.live, w.gc)
    requires s in w.live.reserved && Get(w.live.spent, s) + n <= w.live.reserved[s]
    requires next.actual == w.actual[p := Get(w.actual, p) + n]
    requires next.live == Indebted(w.live, s, p, n) && next.gc == GcIndebted(w.gc, s, p, n)
    ensures GcInv(next.actual, next.live, next.gc)
  {
    GrowKeepsGc(w.actual, w.live, w.gc, s, p, n);
  }

  lemma GrowKeepsInv(w: World, s: nat, p: string, n: nat, maxBytes: nat)
    requires Inv(w) && Enabled(w, Grow(s, p, n), maxBytes)
    ensures Inv(Raised(w, s, p, n))
  {
    GrowKeepsLive(w, s, p, n, maxBytes);
    GrowKeepsSizings(w, s, p, n);
    GrowKeepsCollection(w, s, p, n);
  }

  lemma GrowKeepsSizings(w: World, s: nat, p: string, n: nat)
    requires n > 0 && SizingsCover(w)
    ensures SizingsCover(Raised(w, s, p, n))
  {
    forall t | t in w.sizing ensures SizingCovers(Raised(w, s, p, n), w.sizing[t]) {
      GrowKeepsSizing(w, s, p, n, w.sizing[t]);
    }
  }

  // ---- Measurements ----

  lemma SinceOnly(grown: Debts, m: Sizing, debts: Debts, q: string)
    ensures OnPath(WithoutPath(debts, m.path) + Since(grown, m), q)
         == if q == m.path then OnPath(Since(grown, m), q) else OnPath(debts, q)
  {
    var after := WithoutPath(debts, m.path) + Since(grown, m);
    if q == m.path {
      assert PathDebts(after, q) == PathDebts(Since(grown, m), q);
    } else {
      assert PathDebts(after, q) == PathDebts(debts, q);
    }
  }

  lemma TrackedIsSpent(w: World, debts: Debts, s: nat)
    requires Tracked(w) && s in w.live.reserved
    requires forall k :: k in debts && k.session == s ==> k in w.grown && debts[k] <= w.grown[k]
    ensures OfSession(debts, s) <= Get(w.live.spent, s)
  {
    SumMonotone(SessionDebts(debts, s), SessionDebts(w.grown, s));
  }

  lemma RecordKeepsTracked(w: World, m: Sizing)
    requires Tracked(w)
    ensures Tracked(w.(live := Recorded(w.live, w.grown, m)))
  {
  }

  lemma RecordKeepsSizes(w: World, m: Sizing)
    requires SizesCovered(w.actual, w.live) && SizingCovers(w, m)
    ensures SizesCovered(w.actual, Recorded(w.live, w.grown, m))
  {
    var after := Recorded(w.live, w.grown, m);
    forall q | q in w.actual ensures w.actual[q] <= Get(after.recorded, q) + OnPath(after.debts, q) {
      SinceOnly(w.grown, m, w.live.debts, q);
    }
  }

  lemma RecordKeepsLive(w: World, m: Sizing)
    requires LiveInv(w) && SizingCovers(w, m)
    ensures LiveInv(w.(live := Recorded(w.live, w.grown, m)))
  {
    var after := Recorded(w.live, w.grown, m);
    RecordKeepsSizes(w, m);
    RecordKeepsTracked(w, m);
    forall s | s in after.reserved ensures OfSession(after.debts, s) <= Get(after.spent, s) {
      TrackedIsSpent(w, after.debts, s);
    }
  }

  /** A collection's book does not see what happens to rows. */
  lemma GcIgnoresRows(actual: map<string, nat>, live: Book, after: Book, gc: Gc)
    requires GcInv(actual, live, gc) && after.reserved == live.reserved && after.spent == live.spent
    ensures GcInv(actual, after, gc)
  {
  }

  lemma SizingsStay(w: World, after: World)
    requires SizingsCover(w) && after.actual == w.actual && after.grown == w.grown
    requires forall s :: s in after.sizing ==>
      s in w.sizing && after.sizing[s] == w.sizing[s]
    ensures SizingsCover(after)
  {
  }

  lemma RecordKeepsInv(w: World, s: nat)
    requires Inv(w) && s in w.sizing
    ensures Inv(Next(w, Record(s)))
  {
    var m := w.sizing[s];
    RecordKeepsLive(w, m);
    GcIgnoresRows(w.actual, w.live, Recorded(w.live, w.grown, m), w.gc);
    SizingsStay(w, Next(w, Record(s)));
  }

  lemma MarkKeepsInv(w: World, p: string)
    requires Inv(w)
    ensures Inv(Marked(w, p))
  {
    GcIgnoresRows(w.actual, w.live, Marked(w, p).live, w.gc);
    SizingsStay(w, Marked(w, p));
  }

  lemma SizesKeepsSizings(w: World, s: nat, p: string, listed: bool)
    requires SizingsCover(w)
    ensures SizingsCover(Sizes(w, s, p, listed))
  {
    var next := Sizes(w, s, p, listed);
    assert SizingCovers(next, next.sizing[s]);
    forall t | t in next.sizing && t != s ensures SizingCovers(next, next.sizing[t]) {
      assert SizingCovers(w, w.sizing[t]);
    }
  }

  lemma MeasureKeepsInv(w: World, s: nat, p: string, listed: bool)
    requires Inv(w)
    ensures Inv(Sizes(w, s, p, listed))
  {
    SizesKeepsSizings(w, s, p, listed);
  }

  // ---- Rows without an entry, and bytes without a row ----

  lemma MoreCovers(actual: map<string, nat>, b: Book, p: string, n: nat)
    requires SizesCovered(actual, b) && Get(actual, p) <= OnPath(b.debts, p) + n
    ensures SizesCovered(actual, b.(recorded := b.recorded - {p}, debts := More(b.debts, Stake(NOBODY, p), n)))
  {
    var after := b.(recorded := b.recorded - {p}, debts := More(b.debts, Stake(NOBODY, p), n));
    forall q | q in actual ensures actual[q] <= Get(after.recorded, q) + OnPath(after.debts, q) {
      MoreOnPath(b.debts, NOBODY, p, n, q);
    }
  }

  lemma MoreForNobody(b: Book, p: string, n: nat)
    requires SpendingCovered(b) && NOBODY !in b.reserved
    ensures SpendingCovered(b.(debts := More(b.debts, Stake(NOBODY, p), n)))
  {
    forall s | s in b.reserved ensures OfSession(More(b.debts, Stake(NOBODY, p), n), s) == OfSession(b.debts, s) {
      MoreOfSession(b.debts, NOBODY, p, n, s);
    }
  }

  lemma DropKeepsLive(w: World, p: string)
    requires LiveInv(w)
    ensures LiveInv(w.(live := Dropped(w.live, p, Lost(w, p))))
  {
    var n := Lost(w, p);
    if p in w.actual {
      assert w.actual[p] <= Get(w.live.recorded, p) + OnPath(w.live.debts, p);
    }
    if n > 0 {
      MoreCovers(w.actual, w.live, p, n);
      MoreForNobody(w.live, p, n);
    }
  }

  // ---- Evictions ----

  lemma ShedOnPath(b: Book, p: string, q: string)
    ensures OnPath(Shed(b, p).debts, q) == if q == p then OnPath(Backed(b), q) else OnPath(b.debts, q)
  {
    if q == p {
      assert PathDebts(Shed(b, p).debts, q) == PathDebts(Backed(b), q);
    } else {
      assert PathDebts(Shed(b, p).debts, q) == PathDebts(b.debts, q);
    }
  }

  lemma ShedKeepsSpending(b: Book, p: string)
    requires SpendingCovered(b)
    ensures SpendingCovered(Shed(b, p))
  {
    forall s | s in b.reserved ensures SessionDebts(Shed(b, p).debts, s) == SessionDebts(b.debts, s) {
    }
  }

  /** What was freed of the entry lies within its cover; other entries are as before. */
  lemma EvictionKeepsSizes(actual: map<string, nat>, freed: map<string, nat>, b: Book, p: string, size: nat)
    requires SizesCovered(Both(actual, freed), b)
    ensures SizesCovered(Both(actual - {p}, freed[p := Smaller(size, Cover(b, p))]), Shed(b, p))
  {
    var before, after := Both(actual, freed), Both(actual - {p}, freed[p := Smaller(size, Cover(b, p))]);
    forall q | q in after ensures after[q] <= Get(b.recorded, q) + OnPath(Shed(b, p).debts, q) {
      ShedOnPath(b, p, q);
      if q != p {
        assert q in before && after[q] == before[q];
      }
    }
  }

  lemma EvictionKeepsAccount(managed: nat, freed: map<string, nat>, over: nat, total: nat, p: string, size: nat, cover: nat)
    requires managed + Sum(freed) + over >= total && p !in freed
    ensures Minus(managed, size) + Sum(freed[p := Smaller(size, cover)]) + (over + Minus(size, cover)) >= total
  {
    SumUpdate(freed, p, Smaller(size, cover));
  }

  lemma EvictKeepsGc(actual: map<string, nat>, live: Book, gc: Gc, p: string)
    requires GcInv(actual, live, gc) && gc.Listed? && p in gc.sizes
    ensures GcInv(actual - {p}, Evicted(live, p), GcEvicted(gc, p))
  {
    EvictionKeepsSizes(actual, gc.freed, gc.book, p, gc.sizes[p]);
    ShedKeepsSpending(gc.book, p);
    EvictionKeepsAccount(gc.managed, gc.freed, gc.overdrawn, Sum(gc.book.recorded), p, gc.sizes[p], Cover(gc.book, p));
  }

  lemma RemovalIsCovered(w: World, p: string, m: Sizing)
    requires SizingCovers(w, m)
    ensures SizingCovers(w.(actual := w.actual - {p}), m)
  {
  }

  lemma EvictKeepsSizings(w: World, p: string)
    requires SizingsCover(w)
    ensures SizingsCover(Next(w, Evict(p)))
  {
    forall s | s in w.sizing ensures SizingCovers(Next(w, Evict(p)), w.sizing[s]) {
      RemovalIsCovered(w, p, w.sizing[s]);
    }
  }

  lemma EvictKeepsInv(w: World, p: string, maxBytes: nat)
    requires Inv(w) && Enabled(w, Evict(p), maxBytes)
    ensures Inv(Next(w, Evict(p)))
  {
    EvictKeepsHonest(w.actual, w.live, p);
    EvictKeepsGc(w.actual, w.live, w.gc, p);
    EvictKeepsSizings(w, p);
  }

  lemma StrandKeepsLive(w: World, p: string, t: string, maxBytes: nat)
    requires LiveInv(w) && Enabled(w, Strand(p, t), maxBytes)
    ensures LiveInv(Stranded(w, p, t))
  {
    var n := Get(w.actual, p);
    var moved := (w.actual - {p})[t := n];
    if n > 0 {
      MoreForNobody(w.live, t, n);
    }
    forall q | q in moved ensures moved[q] <= Get(w.live.recorded, q) + OnPath(Stranded(w, p, t).live.debts, q) {
      MoreOnPath(w.live.debts, NOBODY, t, n, q);
    }
  }

  lemma StrandKeepsSizings(w: World, p: string, t: string)
    requires SizingsCover(w) && forall s :: s in w.sizing ==> w.sizing[s].path != t
    ensures SizingsCover(Stranded(w, p, t))
  {
    forall s | s in w.sizing ensures SizingCovers(Stranded(w, p, t), w.sizing[s]) {
      RemovalIsCovered(w, p, w.sizing[s]);
    }
  }

  lemma StrandKeepsInv(w: World, p: string, t: string, maxBytes: nat)
    requires Inv(w) && Enabled(w, Strand(p, t), maxBytes)
    ensures Inv(Next(w, Strand(p, t)))
  {
    StrandKeepsLive(w, p, t, maxBytes);
    StrandKeepsSizings(w, p, t);
  }

  lemma ForgetKeepsInv(w: World, p: string)
    requires Inv(w)
    ensures Inv(Next(w, Forget(p)))
  {
    DropKeepsLive(w, p);
    GcIgnoresRows(w.actual, w.live, Dropped(w.live, p, Lost(w, p)), w.gc);
    SizingsStay(w, Next(w, Forget(p)));
  }

  // ---- Sessions and readings ----

  lemma LessIsCovered(actual: map<string, nat>, fewer: map<string, nat>, b: Book)
    requires SizesCovered(actual, b)
    requires forall p :: p in fewer ==> p in actual && fewer[p] <= actual[p]
    ensures SizesCovered(fewer, b)
  {
    forall p | p in fewer ensures fewer[p] <= Get(b.recorded, p) + OnPath(b.debts, p) {
      assert actual[p] <= Get(b.recorded, p) + OnPath(b.debts, p);
    }
  }

  lemma ShrinkKeepsGc(actual: map<string, nat>, live: Book, gc: Gc, p: string, n: nat)
    requires GcInv(actual, live, gc) && p in actual
    ensures GcInv(actual[p := Minus(actual[p], n)], live, gc)
  {
    var fewer := actual[p := Minus(actual[p], n)];
    if gc.Listed? {
      LessIsCovered(Both(actual, gc.freed), Both(fewer, gc.freed), gc.book);
    } else if HasBook(gc) {
      LessIsCovered(actual, fewer, gc.book);
    }
  }

  lemma ShrinkKeepsSizing(w: World, p: string, n: nat, m: Sizing)
    requires SizingCovers(w, m)
    ensures SizingCovers(w.(actual := w.actual[p := Minus(Get(w.actual, p), n)]), m)
  {
  }

  lemma ShrinkKeepsSizings(w: World, p: string, n: nat)
    requires SizingsCover(w)
    ensures SizingsCover(Next(w, Shrink(p, n)))
  {
    forall s | s in w.sizing ensures SizingCovers(Next(w, Shrink(p, n)), w.sizing[s]) {
      ShrinkKeepsSizing(w, p, n, w.sizing[s]);
    }
  }

  lemma ShrinkKeepsInv(w: World, p: string, n: nat)
    requires Inv(w) && p in w.actual
    ensures Inv(Next(w, Shrink(p, n)))
  {
    LessIsCovered(w.actual, Next(w, Shrink(p, n)).actual, w.live);
    ShrinkKeepsGc(w.actual, w.live, w.gc, p, n);
    ShrinkKeepsSizings(w, p, n);
  }

  lemma LeavingKeepsLive(w: World, s: nat)
    requires LiveInv(w)
    ensures LiveInv(w.(live := Left(w.live, s)))
  {
  }

  lemma LeavingKeepsGc(w: World, s: nat)
    requires GcInv(w.actual, w.live, w.gc)
    ensures GcInv(w.actual, Left(w.live, s), Gone(w, s).gc)
  {
  }

  lemma LeavingKeepsInv(w: World, s: nat, e: Event)
    requires Inv(w) && (e == Close(s) || e == ClearStale(s))
    ensures Inv(Next(w, e))
  {
    LeavingKeepsLive(w, s);
    LeavingKeepsGc(w, s);
    SizingsStay(w, Next(w, e));
  }

  lemma ReadingKeepsGc(w: World, e: Event, maxBytes: nat)
    requires LiveInv(w) && GcInv(w.actual, w.live, w.gc) && Enabled(w, e, maxBytes)
    requires e.StartGc? || e.ReadEntries? || e.ReadReservations? || e.ReadDirty? || e.GiveUp?
    ensures GcInv(w.actual, w.live, Next(w, e).gc)
  {
  }

  lemma CandidatesKeepGc(w: World)
    requires GcInv(w.actual, w.live, w.gc) && w.gc.Counted?
    ensures GcInv(w.actual, w.live, Next(w, ReadCandidates).gc)
  {
    assert Both(w.actual, map[]) == w.actual;
  }

  lemma JoinKeepsLive(w: World, s: nat, n: nat)
    requires LiveInv(w) && Unused(w, s)
    ensures LiveInv(w.(live := Joined(w.live, s, n)))
  {
    JoinKeepsHonest(w.actual, w.live, s, n);
    assert SessionDebts(w.grown, s).Keys == {};
  }

  lemma AdmitKeepsInv(w: World, s: nat, n: nat, maxBytes: nat)
    requires Inv(w) && Enabled(w, Admit(s, n), maxBytes)
    ensures Inv(Next(w, Admit(s, n)))
  {
    JoinKeepsLive(w, s, n);
    SizingsStay(w, Next(w, Admit(s, n)));
  }

  lemma ReadingKeepsInv(w: World, e: Event, maxBytes: nat)
    requires Inv(w) && Enabled(w, e, maxBytes)
    requires e.StartGc? || e.ReadEntries? || e.ReadReservations? || e.ReadDirty? || e.ReadCandidates? || e.GiveUp?
    ensures Inv(Next(w, e))
  {
    if e.ReadCandidates? {
      CandidatesKeepGc(w);
    } else {
      ReadingKeepsGc(w, e, maxBytes);
    }
    SizingsStay(w, Next(w, e));
  }

  lemma LeasesKeepInv(w: World, e: Event, maxBytes: nat)
    requires Inv(w) && Enabled(w, e, maxBytes) && (e.Hold? || e.LetGo? || e.Crash?)
    ensures Inv(Next(w, e))
  {
    SizingsStay(w, Next(w, e));
  }

  lemma SessionKeepsInv(w: World, e: Event, maxBytes: nat)
    requires Inv(w) && Enabled(w, e, maxBytes)
    requires e.Grow? || e.Shrink? || e.Measure? || e.Record? || e.Close?
    ensures Inv(Next(w, e))
  {
    match e
    case Grow(s, p, n) => GrowKeepsInv(w, s, p, n, maxBytes);
    case Shrink(p, n) => ShrinkKeepsInv(w, p, n);
    case Measure(s, p, listed) => MeasureKeepsInv(w, s, p, listed);
    case Record(s) => RecordKeepsInv(w, s);
    case Close(s) => LeavingKeepsInv(w, s, e);
  }

  lemma CollectorKeepsInv(w: World, e: Event, maxBytes: nat)
    requires Inv(w) && Enabled(w, e, maxBytes)
    requires e.MarkDirty? || e.ClearStale? || e.Reconcile? || e.Forget? || e.Evict? || e.Strand? || e.Admit?
    ensures Inv(Next(w, e))
  {
    match e
    case MarkDirty(p) => MarkKeepsInv(w, p);
    case ClearStale(s) => LeavingKeepsInv(w, s, e);
    case Reconcile(p) => ReconcileKeepsInv(w, p);
    case Forget(p) => ForgetKeepsInv(w, p);
    case Evict(p) => EvictKeepsInv(w, p, maxBytes);
    case Strand(p, t) => StrandKeepsInv(w, p, t, maxBytes);
    case Admit(s, n) => AdmitKeepsInv(w, s, n, maxBytes);
  }

  lemma ReconcileKeepsInv(w: World, p: string)
    requires Inv(w) && w.gc.Reconciling?
    ensures Inv(Next(w, Reconcile(p)))
  {
    MarkKeepsInv(w, p);
    MeasureKeepsInv(w, NOBODY, p, true);
    SizingsStay(if IsHeld(w, p) then Marked(w, p) else Sizes(w, NOBODY, p, true), Next(w, Reconcile(p)));
  }

  /** Every step keeps recorded sizes honest and every live reservation accounted for. */
  lemma NextKeepsInv(w: World, e: Event, maxBytes: nat)
    requires Inv(w) && Enabled(w, e, maxBytes)
    ensures Inv(Next(w, e))
  {
    if e.Grow? || e.Shrink? || e.Measure? || e.Record? || e.Close? {
      SessionKeepsInv(w, e, maxBytes);
    } else if e.Hold? || e.LetGo? || e.Crash? {
      LeasesKeepInv(w, e, maxBytes);
    } else if e.StartGc? || e.ReadEntries? || e.ReadReservations? || e.ReadDirty? || e.ReadCandidates? || e.GiveUp? {
      ReadingKeepsInv(w, e, maxBytes);
    } else {
      CollectorKeepsInv(w, e, maxBytes);
    }
  }
}
