/**
 Runs of the reservation protocol that do over-commit.

 There is one for each way in which `CacheReservations.NeverOverCommitted` and the laws beside it can
 be missed.  Between the readings of a collection: a departure, or a measurement, that takes growth
 out of sight, and an eviction that deducts a size which the collection had not counted.  Before
 them: a crash whose growth the collection cannot measure, growth of an entry that nobody has marked
 or whose mark the collector overwrites, a measurement that is recorded after a younger one, and a
 row that is forgotten although its entry is there.  Each starts from a sound cache with a limit of
 10 bytes, and ends with 13, 15 or 20 committed.
 */
module CacheOvercommits {
  import opened CacheProtocol
  import opened CacheRecovery
  import opened CacheReservations
  import opened Sums

  lemma {:induction false} RunStarts(w: World, e: Event, next: World, rest: seq<Event>)
    requires Enabled(w, e, 10) && next == Next(w, e) && Run(next, rest, 10)
    ensures Run(w, [e] + rest, 10) && After(w, [e] + rest) == After(next, rest)
  {
    assert ([e] + rest)[1..] == rest;
  }

  lemma SumOfOne<K>(k: K, n: nat)
    ensures Sum(map[k := n]) == n
  {
    SumUpdate(map[], k, n);
    assert map[][k := n] == map[k := n];
  }

  lemma SumOfTwo<K>(k: K, n: nat, l: K, m: nat)
    requires k != l
    ensures Sum(map[k := n, l := m]) == n + m
  {
    SumOfOne(k, n);
    SumUpdate(map[k := n], l, m);
    assert map[k := n][l := m] == map[k := n, l := m];
  }

  // ---- Pieces of a run ----

  function Admitting(s: nat, n: nat): seq<Event> {
    [ReadDirty] + ([ReadCandidates] + ([Admit(s, n)] + []))
  }

  function Counting(s: nat, n: nat): seq<Event> {
    [ReadReservations] + Admitting(s, n)
  }

  function Readings(s: nat, n: nat): seq<Event> {
    [ReadEntries] + Counting(s, n)
  }

  function Measuring(s: nat, p: string, rest: seq<Event>): seq<Event> {
    [Measure(s, p, false)] + ([Record(s)] + rest)
  }

  /** What the book and the marks must leave for `n` further bytes. */
  ghost predicate Leaves(w: World, b: Book, s: nat, n: nat) {
    && Unused(w, s)
    && (w.dirty == {} || Sum(b.reserved) > 0)
    && Sum(b.recorded) + Sum(b.reserved) + n <= 10
  }

  function Admitted(w: World, s: nat, n: nat): World {
    w.(live := Joined(w.live, s, n), gc := Idle)
  }

  ghost function ListedWith(b: Book, dirty: set<string>, sizes: map<string, nat>): Gc {
    Listed(b, dirty, sizes, Sum(b.recorded), map[], 0)
  }

  lemma AdmittingRuns(w: World, b: Book, s: nat, n: nat)
    requires w.gc == ReservationsRead(b) && Leaves(w, b, s, n)
    ensures Run(w, Admitting(s, n), 10) && After(w, Admitting(s, n)) == Admitted(w, s, n)
  {
    var w1 := w.(gc := Counted(b, w.dirty));
    var w2 := w.(gc := ListedWith(b, w.dirty, w.live.recorded));
    RunStarts(w2, Admit(s, n), Admitted(w, s, n), []);
    RunStarts(w1, ReadCandidates, w2, [Admit(s, n)] + []);
    RunStarts(w, ReadDirty, w1, [ReadCandidates] + ([Admit(s, n)] + []));
  }

  lemma CountingRuns(w: World, b: Book, s: nat, n: nat)
    requires w.gc == EntriesRead(b) && Leaves(w, b, s, n)
    ensures Run(w, Counting(s, n), 10) && After(w, Counting(s, n)) == Admitted(w, s, n)
  {
    var w1 := w.(gc := ReservationsRead(b));
    AdmittingRuns(w1, b, s, n);
    RunStarts(w, ReadReservations, w1, Admitting(s, n));
  }

  lemma ReadingsRun(w: World, s: nat, n: nat)
    requires IsReconciled(w) && Leaves(w, w.live, s, n)
    ensures Run(w, Readings(s, n), 10) && After(w, Readings(s, n)) == Admitted(w, s, n)
  {
    var w1 := w.(gc := EntriesRead(w.live));
    CountingRuns(w1, w.live, s, n);
    RunStarts(w, ReadEntries, w1, Counting(s, n));
  }

  function Measured(b: Book, p: string, bytes: nat): Book {
    b.(recorded := b.recorded[p := bytes], debts := WithoutPath(b.debts, p))
  }

  /** The entry has been measured and recorded. */
  function Sized(w: World, p: string): World {
    w.(live := Measured(w.live, p, Get(w.actual, p)), dirty := w.dirty - {p})
  }

  lemma RecordSizes(w: World, s: nat, p: string)
    requires s !in w.sizing && p in w.actual
    ensures Next(Next(w, Measure(s, p, false)), Record(s)) == Sized(w, p)
  {
    var m, sized := Sizing(p, true, w.actual[p], w.grown), Next(Next(w, Measure(s, p, false)), Record(s));
    assert Since(w.grown, m).Keys == {};
    assert WithoutPath(w.live.debts, p) + Since(w.grown, m) == WithoutPath(w.live.debts, p);
    assert sized.live == Sized(w, p).live && sized.sizing == w.sizing;
  }

  /** A measurement that nothing disturbs. */
  lemma MeasuringRuns(w: World, s: nat, p: string, rest: seq<Event>)
    requires s != NOBODY && s !in w.sizing && p in w.actual && Run(Sized(w, p), rest, 10)
    ensures Run(w, Measuring(s, p, rest), 10) && After(w, Measuring(s, p, rest)) == After(Sized(w, p), rest)
  {
    RecordSizes(w, s, p);
    RunStarts(Next(w, Measure(s, p, false)), Record(s), Sized(w, p), rest);
    RunStarts(w, Measure(s, p, false), Next(w, Measure(s, p, false)), [Record(s)] + rest);
  }

  /** A collection with nothing left to reconcile. */
  function Swept(w: World): World {
    w.(gc := Reconciling({}))
  }

  /** Nothing is marked and nothing is unknown, so there is nothing to reconcile. */
  lemma CleanStart(w: World, listed: set<string>, rest: seq<Event>)
    requires w.gc == Idle && w.dirty == {} && Unknown(w) == {} && Run(Swept(w), rest, 10)
    ensures Run(w, [StartGc(listed, {})] + rest, 10)
    ensures After(w, [StartGc(listed, {})] + rest) == After(Swept(w), rest)
  {
    assert (w.dirty + Unknown(w)) * listed + {} == {};
    RunStarts(w, StartGc(listed, {}), Swept(w), rest);
  }

  /** The one marked entry is held, so reconciling leaves it as it is. */
  lemma HeldStart(w: World, listed: set<string>, rest: seq<Event>)
    requires w.gc == Idle && w.dirty == {"p"} && Unknown(w) == {} && IsHeld(w, "p") && "p" in w.live.recorded
    requires "p" in listed && NOBODY !in w.sizing && Run(Swept(w), rest, 10)
    ensures Run(w, [StartGc(listed, {})] + ([Reconcile("p")] + rest), 10)
    ensures After(w, [StartGc(listed, {})] + ([Reconcile("p")] + rest)) == After(Swept(w), rest)
  {
    var w1 := w.(gc := Reconciling({"p"}));
    assert (w.dirty + Unknown(w)) * listed + {} == {"p"};
    assert Marked(w1, "p") == w1;
    RunStarts(w1, Reconcile("p"), Swept(w), rest);
    RunStarts(w, StartGc(listed, {}), w1, [Reconcile("p")] + rest);
  }

  /** A sound start: at rest, every unmeasured byte within a reservation, and the limit kept. */
  ghost predicate IsSound(w: World) {
    Inv(w) && AtRest(w) && NoOrphans(w.live) && Committed(w) <= 10
  }

  // ---- A session leaves between the first two readings ----

  function EmptyWorld(): World {
    World(map[], Book(map[], map[], map[], map[]), {}, {}, {}, map[], map[], Idle)
  }

  function FirstAdmission(): seq<Event> {
    [StartGc({}, {})] + Readings(1, 10)
  }

  /** Session 1 has reserved all 10 bytes. */
  function Admitted10(): World {
    World(map[], Book(map[], map[], map[1 := 10], map[1 := 0]), {}, {}, {}, map[], map[], Idle)
  }

  lemma FirstAdmissionRuns()
    ensures Run(EmptyWorld(), FirstAdmission(), 10)
    ensures After(EmptyWorld(), FirstAdmission()) == Admitted10()
  {
    ReadingsRun(Swept(EmptyWorld()), 1, 10);
    CleanStart(EmptyWorld(), {}, Readings(1, 10));
  }

  function Debts10(): Debts {
    map[Stake(1, "p") := 10]
  }

  /** It has put them on disk, in the marked entry "p". */
  function Grown(): World {
    World(map["p" := 10], Book(map["p" := 0], Debts10(), map[1 := 10], map[1 := 10]),
          {"p"}, {Stake(1, "p")}, {}, map[], Debts10(), Idle)
  }

  function FirstGrowth(): seq<Event> {
    [Hold(1, "p")] + ([MarkDirty("p")] + ([Grow(1, "p", 10)] + []))
  }

  lemma FirstGrowthRuns()
    ensures Run(Admitted10(), FirstGrowth(), 10) && After(Admitted10(), FirstGrowth()) == Grown()
  {
    var w0 := Admitted10();
    var w1 := w0.(held := {Stake(1, "p")});
    var w2 := w1.(dirty := {"p"}, live := Book(map["p" := 0], map[], map[1 := 10], map[1 := 0]));
    RunStarts(w2, Grow(1, "p", 10), Grown(), []);
    RunStarts(w1, MarkDirty("p"), w2, [Grow(1, "p", 10)] + []);
    RunStarts(w0, Hold(1, "p"), w1, [MarkDirty("p")] + ([Grow(1, "p", 10)] + []));
  }

  lemma GrownIsReached()
    ensures Run(EmptyWorld(), FirstAdmission(), 10)
    ensures Run(After(EmptyWorld(), FirstAdmission()), FirstGrowth(), 10)
    ensures After(After(EmptyWorld(), FirstAdmission()), FirstGrowth()) == Grown()
  {
    FirstAdmissionRuns();
    FirstGrowthRuns();
  }

  /** The session measures and closes between the first two readings of the next collection. */
  function Slipping(): seq<Event> {
    [StartGc({"p"}, {})] + ([Reconcile("p")] + ([ReadEntries] + Measuring(1, "p", [Close(1)] + Counting(2, 10))))
  }

  function Measured10(): Book {
    Book(map["p" := 10], map[], map[], map[])
  }

  /** The entries were read before the measurement, the reservations will be after the close. */
  function Missed(): World {
    World(map["p" := 10], Measured10(), {}, {}, {}, map[], Debts10(),
          EntriesRead(Book(map["p" := 0], Debts10(), map[], map[])))
  }

  lemma SlippingEnds()
    ensures Next(Sized(Grown().(gc := EntriesRead(Grown().live)), "p"), Close(1)) == Missed()
  {
    var sized := Sized(Grown().(gc := EntriesRead(Grown().live)), "p");
    assert sized.live == Book(map["p" := 10], map[], map[1 := 10], map[1 := 10]);
    assert Left(sized.live, 1) == Measured10() && Left(Grown().live, 1) == Missed().gc.book;
    assert Released(sized.held, 1) == {};
  }

  lemma SessionSlips(rest: seq<Event>)
    requires Run(Missed(), rest, 10)
    ensures Run(Swept(Grown()), [ReadEntries] + Measuring(1, "p", [Close(1)] + rest), 10)
    ensures After(Swept(Grown()), [ReadEntries] + Measuring(1, "p", [Close(1)] + rest)) == After(Missed(), rest)
  {
    var w := Grown().(gc := EntriesRead(Grown().live));
    SlippingEnds();
    RunStarts(Sized(w, "p"), Close(1), Missed(), rest);
    MeasuringRuns(w, 1, "p", [Close(1)] + rest);
    RunStarts(Swept(Grown()), ReadEntries, w, Measuring(1, "p", [Close(1)] + rest));
  }

  lemma MissedAdmits()
    ensures Run(Missed(), Counting(2, 10), 10)
    ensures Committed(After(Missed(), Counting(2, 10))) == 20
  {
    SumOfOne("p", 0);
    SumOfOne("p", 10);
    CountingRuns(Missed(), Missed().gc.book, 2, 10);
    assert Unspent(Measured10()).Keys == {};
    JoinReserves(Measured10(), 2, 10);
  }

  lemma ClosingBetweenReadingsOvercommits()
    ensures Run(Grown(), Slipping(), 10)
    ensures Committed(After(Grown(), Slipping())) == 20
  {
    MissedAdmits();
    SessionSlips(Counting(2, 10));
    HeldStart(Grown(), {"p"}, [ReadEntries] + Measuring(1, "p", [Close(1)] + Counting(2, 10)));
  }

  // ---- A session dies over an entry that is shared ----

  function Debts5(): Debts {
    map[Stake(1, "p") := 5]
  }

  /** Two live sessions; the first has grown the marked entry "p" by its whole reservation. */
  function Ahead(): Book {
    Book(map["p" := 0], Debts5(), map[1 := 5, 2 := 5], map[1 := 5, 2 := 0])
  }

  function Busy(held: set<Stake>): World {
    World(map["p" := 5], Ahead(), {"p"}, held, {}, map[], Debts5(), Idle)
  }

  /** Both hold the entry. */
  function Sharing(): World {
    Busy({Stake(1, "p"), Stake(2, "p")})
  }

  lemma FirstOwesAll()
    ensures PathDebts(Debts5(), "p") == Debts5() && SessionDebts(Debts5(), 1) == Debts5()
    ensures SessionDebts(Debts5(), 2).Keys == {} && Sum(Debts5()) == 5
  {
    SumOfOne(Stake(1, "p"), 5);
  }

  lemma AheadCommits()
    ensures Sum(map["p" := 5]) + Sum(Unspent(Ahead())) == 10
  {
    SumOfOne("p", 5);
    assert Unspent(Ahead()) == map[1 := 0, 2 := 5];
    SumOfTwo<nat>(1, 0, 2, 5);
  }

  lemma BusyIsHonest(held: set<Stake>)
    ensures Inv(Busy(held))
  {
    FirstOwesAll();
  }

  /** Whoever holds the entry, the start of the runs below is sound. */
  lemma BusyIsSound(held: set<Stake>)
    ensures IsSound(Busy(held))
  {
    BusyIsHonest(held);
    AheadCommits();
  }

  /** What the first session leaves once its reservation is cleared. */
  function Orphaned(): Book {
    Book(map["p" := 0], Debts5(), map[2 := 5], map[2 := 0])
  }

  function Cleared(held: set<Stake>): World {
    World(map["p" := 5], Orphaned(), {"p"}, held, {}, map[], Debts5(), Reconciling({}))
  }

  lemma OrphanedLeavesRoom(w: World)
    requires Unused(w, 3)
    ensures Leaves(w, Orphaned(), 3, 5)
  {
    SumOfOne("p", 0);
    SumOfOne<nat>(2, 5);
  }

  /** The first session dies, the collection cannot measure the entry, and the reservation goes. */
  function Dying(listed: set<string>, rest: seq<Event>): seq<Event> {
    [Crash(1)] + ([StartGc(listed, {})] + ([Reconcile("p")] + ([ClearStale(1)] + rest)))
  }

  /** The second session goes on holding the one marked entry. */
  lemma DyingRuns(w: World, listed: set<string>, cleared: World, rest: seq<Event>)
    requires w.gc == Idle && w.dirty == {"p"} && Unknown(w) == {} && "p" in w.live.recorded && "p" in listed
    requires Alive(w, 1) && Stake(2, "p") in w.held && w.sizing == map[]
    requires cleared == Next(Swept(Next(w, Crash(1))), ClearStale(1)) && Run(cleared, rest, 10)
    ensures Run(w, Dying(listed, rest), 10) && After(w, Dying(listed, rest)) == After(cleared, rest)
  {
    var dead := Next(w, Crash(1));
    RunStarts(Swept(dead), ClearStale(1), cleared, rest);
    assert Stake(2, "p") in dead.held;
    HeldStart(dead, listed, [ClearStale(1)] + rest);
    RunStarts(w, Crash(1), dead, [StartGc(listed, {})] + ([Reconcile("p")] + ([ClearStale(1)] + rest)));
  }

  lemma SharerIsCleared()
    ensures Next(Swept(Next(Sharing(), Crash(1))), ClearStale(1)) == Cleared({Stake(2, "p")})
  {
    var dead := Swept(Next(Sharing(), Crash(1)));
    assert dead.held == {Stake(2, "p")} && dead.dead == {1};
    var cleared := Next(dead, ClearStale(1));
    assert cleared.live == Orphaned() && cleared.dead == {};
  }

  lemma SharerDies(rest: seq<Event>)
    requires Run(Cleared({Stake(2, "p")}), rest, 10)
    ensures Run(Sharing(), Dying({"p"}, rest), 10)
    ensures After(Sharing(), Dying({"p"}, rest)) == After(Cleared({Stake(2, "p")}), rest)
  {
    SharerIsCleared();
    DyingRuns(Sharing(), {"p"}, Cleared({Stake(2, "p")}), rest);
  }

  lemma AdmissionOverOrphans(w: World)
    requires w.actual == map["p" := 5] && w.live in {Orphaned(), Late()}
    ensures Committed(Admitted(w, 3, 5)) == 15
  {
    SumOfOne("p", 5);
    assert Unspent(w.live) == map[2 := 5];
    SumOfOne<nat>(2, 5);
    JoinReserves(w.live, 3, 5);
  }

  /** The collection sees the mark and lets it pass, as something is reserved. */
  lemma ClearedAdmits(held: set<Stake>)
    ensures Run(Cleared(held), Readings(3, 5), 10)
    ensures Committed(After(Cleared(held), Readings(3, 5))) == 15
  {
    OrphanedLeavesRoom(Cleared(held));
    ReadingsRun(Cleared(held), 3, 5);
    AdmissionOverOrphans(Cleared(held));
  }

  lemma CrashOfOneSharerOvercommits()
    ensures Run(Sharing(), Dying({"p"}, Readings(3, 5)), 10)
    ensures Committed(After(Sharing(), Dying({"p"}, Readings(3, 5)))) == 15
  {
    ClearedAdmits({Stake(2, "p")});
    SharerDies(Readings(3, 5));
  }

  /** The entry once the second session has measured it. */
  function Late(): Book {
    Book(map["p" := 5], map[], map[2 := 5], map[2 := 0])
  }

  function MeasuredLate(gc: Gc): World {
    World(map["p" := 5], Late(), {}, {Stake(2, "p")}, {}, map[], Debts5(), gc)
  }

  lemma MeasuringTakesMark(gc: Gc, rest: seq<Event>)
    requires gc == EntriesRead(Orphaned()) || gc == ReservationsRead(Orphaned())
    requires Run(MeasuredLate(gc), rest, 10)
    ensures Run(Cleared({Stake(2, "p")}).(gc := gc), Measuring(2, "p", rest), 10)
    ensures After(Cleared({Stake(2, "p")}).(gc := gc), Measuring(2, "p", rest)) == After(MeasuredLate(gc), rest)
  {
    var w := Cleared({Stake(2, "p")}).(gc := gc);
    assert Measured(Orphaned(), "p", 5) == Late();
    assert Sized(w, "p") == MeasuredLate(gc);
    MeasuringRuns(w, 2, "p", rest);
  }

  /** The second session measures the entry after the entries and before the reservations are read. */
  function MeasuringFirst(): seq<Event> {
    [ReadEntries] + Measuring(2, "p", Counting(3, 5))
  }

  lemma MeasuringBetweenReadingsOvercommits()
    ensures Run(Sharing(), Dying({"p"}, MeasuringFirst()), 10)
    ensures Committed(After(Sharing(), Dying({"p"}, MeasuringFirst()))) == 15
  {
    var w := Cleared({Stake(2, "p")});
    var read := EntriesRead(Orphaned());
    OrphanedLeavesRoom(MeasuredLate(read));
    CountingRuns(MeasuredLate(read), Orphaned(), 3, 5);
    AdmissionOverOrphans(MeasuredLate(read));
    MeasuringTakesMark(read, Counting(3, 5));
    RunStarts(w, ReadEntries, w.(gc := read), Measuring(2, "p", Counting(3, 5)));
    SharerDies(MeasuringFirst());
  }

  /** It measures the entry after the reservations and before the dirty marks are read. */
  function MeasuringSecond(): seq<Event> {
    [ReadEntries] + ([ReadReservations] + Measuring(2, "p", Admitting(3, 5)))
  }

  lemma MarkIsMissed()
    ensures Run(Cleared({Stake(2, "p")}), MeasuringSecond(), 10)
    ensures Committed(After(Cleared({Stake(2, "p")}), MeasuringSecond())) == 15
  {
    var w := Cleared({Stake(2, "p")});
    var read := ReservationsRead(Orphaned());
    OrphanedLeavesRoom(MeasuredLate(read));
    AdmittingRuns(MeasuredLate(read), Orphaned(), 3, 5);
    AdmissionOverOrphans(MeasuredLate(read));
    MeasuringTakesMark(read, Admitting(3, 5));
    var entries := w.(gc := EntriesRead(Orphaned()));
    RunStarts(entries, ReadReservations, w.(gc := read), Measuring(2, "p", Admitting(3, 5)));
    RunStarts(w, ReadEntries, entries, [ReadReservations] + Measuring(2, "p", Admitting(3, 5)));
  }

  lemma MeasuringBeforeMarksAreReadOvercommits()
    ensures Run(Sharing(), Dying({"p"}, MeasuringSecond()), 10)
    ensures Committed(After(Sharing(), Dying({"p"}, MeasuringSecond()))) == 15
  {
    MarkIsMissed();
    SharerDies(MeasuringSecond());
  }

  // ---- A session dies while the collection reconciles ----

  /** Nobody shares the entry, but its session dies after it was passed over as held. */
  function DyingLate(): seq<Event> {
    [StartGc({"p"}, {})] + ([Reconcile("p")] + ([Crash(1)] + ([ClearStale(1)] + Readings(3, 5))))
  }

  lemma HolderIsCleared()
    ensures Next(Next(Swept(Busy({Stake(1, "p")})), Crash(1)), ClearStale(1)) == Cleared({})
  {
    var dead := Next(Swept(Busy({Stake(1, "p")})), Crash(1));
    assert dead.held == {} && dead.dead == {1};
    var cleared := Next(dead, ClearStale(1));
    assert cleared.live == Orphaned() && cleared.dead == {};
  }

  lemma HolderDiesLate(rest: seq<Event>)
    requires Run(Cleared({}), rest, 10)
    ensures Run(Swept(Busy({Stake(1, "p")})), [Crash(1)] + ([ClearStale(1)] + rest), 10)
    ensures After(Swept(Busy({Stake(1, "p")})), [Crash(1)] + ([ClearStale(1)] + rest)) == After(Cleared({}), rest)
  {
    var w := Swept(Busy({Stake(1, "p")}));
    HolderIsCleared();
    RunStarts(Next(w, Crash(1)), ClearStale(1), Cleared({}), rest);
    RunStarts(w, Crash(1), Next(w, Crash(1)), [ClearStale(1)] + rest);
  }

  lemma CrashDuringReconciliationOvercommits()
    ensures Run(Busy({Stake(1, "p")}), DyingLate(), 10)
    ensures Committed(After(Busy({Stake(1, "p")}), DyingLate())) == 15
  {
    ClearedAdmits({});
    HolderDiesLate(Readings(3, 5));
    assert Stake(1, "p") in Busy({Stake(1, "p")}).held;
    HeldStart(Busy({Stake(1, "p")}), {"p"}, [Crash(1)] + ([ClearStale(1)] + Readings(3, 5)));
  }

  // ---- A session grows an entry that is not marked ----

  /** Session 2 alone holds the known entry "p", and no mark is on it. */
  function Unmarked(): World {
    World(map["p" := 0], Book(map["p" := 0], map[], map[2 := 5], map[2 := 0]), {}, {Stake(2, "p")}, {},
          map[], map[], Idle)
  }

  /** It grows the entry and dies; the next collection has nothing to reconcile and sees no mark. */
  function GrowingUnmarked(): seq<Event> {
    [Grow(2, "p", 5)] + ([Crash(2)] + ([StartGc({"p"}, {})] + ([ClearStale(2)] + Readings(3, 10))))
  }

  function SecondsDebts(): Debts {
    map[Stake(2, "p") := 5]
  }

  /** Growth that no row, reservation or mark tells of. */
  function Unseen(): World {
    World(map["p" := 5], Book(map["p" := 0], SecondsDebts(), map[], map[]), {}, {}, {},
          map[], SecondsDebts(), Reconciling({}))
  }

  lemma UnseenAdmits()
    ensures Run(Unseen(), Readings(3, 10), 10)
    ensures Committed(After(Unseen(), Readings(3, 10))) == 15
  {
    SumOfOne("p", 0);
    SumOfOne("p", 5);
    ReadingsRun(Unseen(), 3, 10);
    assert Unspent(Unseen().live).Keys == {};
    JoinReserves(Unseen().live, 3, 10);
  }

  /** The session has grown the entry and died. */
  function Abandoned(): World {
    World(map["p" := 5], Book(map["p" := 0], SecondsDebts(), map[2 := 5], map[2 := 5]), {}, {}, {2},
          map[], SecondsDebts(), Idle)
  }

  /** The session has grown the entry. */
  function Lengthened(): World {
    World(map["p" := 5], Book(map["p" := 0], SecondsDebts(), map[2 := 5], map[2 := 5]), {}, {Stake(2, "p")}, {},
          map[], SecondsDebts(), Idle)
  }

  lemma LengthenedIsReached()
    ensures Next(Unmarked(), Grow(2, "p", 5)) == Lengthened()
  {
    var grown := Next(Unmarked(), Grow(2, "p", 5));
    assert grown.actual == Lengthened().actual && grown.grown == Lengthened().grown;
    assert grown.live == Lengthened().live;
  }

  lemma AbandonedIsReached()
    ensures Next(Lengthened(), Crash(2)) == Abandoned()
  {
    assert Released(Lengthened().held, 2) == {} && Lengthened().sizing - {2} == Lengthened().sizing;
  }

  lemma AbandonedIsCleared()
    ensures Next(Swept(Abandoned()), ClearStale(2)) == Unseen()
  {
    assert Left(Abandoned().live, 2) == Unseen().live && Swept(Abandoned()).gc == Unseen().gc;
  }

  lemma UnseenIsReached(rest: seq<Event>)
    requires Run(Unseen(), rest, 10)
    ensures var run := [Grow(2, "p", 5)] + ([Crash(2)] + ([StartGc({"p"}, {})] + ([ClearStale(2)] + rest)));
            Run(Unmarked(), run, 10) && After(Unmarked(), run) == After(Unseen(), rest)
  {
    AbandonedIsCleared();
    RunStarts(Swept(Abandoned()), ClearStale(2), Unseen(), rest);
    CleanStart(Abandoned(), {"p"}, [ClearStale(2)] + rest);
    AbandonedIsReached();
    LengthenedIsReached();
    RunStarts(Lengthened(), Crash(2), Abandoned(), [StartGc({"p"}, {})] + ([ClearStale(2)] + rest));
    RunStarts(Unmarked(), Grow(2, "p", 5), Lengthened(), [Crash(2)] + ([StartGc({"p"}, {})] + ([ClearStale(2)] + rest)));
  }

  lemma UnmarkedGrowthOvercommits()
    ensures Run(Unmarked(), GrowingUnmarked(), 10)
    ensures Committed(After(Unmarked(), GrowingUnmarked())) == 15
  {
    UnseenAdmits();
    UnseenIsReached(Readings(3, 10));
  }

  /** Two live sessions hold the marked entry "p", and neither has grown it. */
  function Paired(): World {
    World(map["p" := 0], Book(map["p" := 0], map[], map[1 := 5, 2 := 5], map[1 := 0, 2 := 0]),
          {"p"}, {Stake(1, "p"), Stake(2, "p")}, {}, map[], map[], Idle)
  }

  lemma PairedIsHonest()
    ensures Inv(Paired())
  {
    var none: Debts := map[];
    assert SessionDebts(none, 1).Keys == {} && SessionDebts(none, 2).Keys == {};
  }

  lemma PairedCommits()
    ensures Committed(Paired()) == 10
  {
    SumOfOne("p", 0);
    assert Unspent(Paired().live) == map[1 := 5, 2 := 5];
    SumOfTwo<nat>(1, 5, 2, 5);
  }

  lemma PairedIsSound()
    ensures IsSound(Paired())
  {
    PairedIsHonest();
    PairedCommits();
  }

  /** The first closes and takes the mark along, which leaves the second with an unmarked entry. */
  lemma SharerTakesMarkAlong(rest: seq<Event>)
    requires Run(Unmarked(), rest, 10)
    ensures Run(Paired(), Measuring(1, "p", [Close(1)] + rest), 10)
    ensures After(Paired(), Measuring(1, "p", [Close(1)] + rest)) == After(Unmarked(), rest)
  {
    FirstLeavesUnmarked();
    RunStarts(Sized(Paired(), "p"), Close(1), Unmarked(), rest);
    MeasuringRuns(Paired(), 1, "p", [Close(1)] + rest);
  }

  lemma FirstLeavesUnmarked()
    ensures Next(Sized(Paired(), "p"), Close(1)) == Unmarked()
  {
    var sized := Sized(Paired(), "p");
    assert sized.live == Paired().live && sized.dirty == {};
    assert Left(sized.live, 1) == Unmarked().live && Released(sized.held, 1) == {Stake(2, "p")};
  }

  lemma GrowingACleanedEntryOvercommits()
    ensures Run(Paired(), Measuring(1, "p", [Close(1)] + GrowingUnmarked()), 10)
    ensures Committed(After(Paired(), Measuring(1, "p", [Close(1)] + GrowingUnmarked()))) == 15
  {
    UnmarkedGrowthOvercommits();
    SharerTakesMarkAlong(GrowingUnmarked());
  }

  // ---- The collector records a size after it has let go of the entry ----

  /** Nobody holds the entry, and session 2 is about to. */
  function Waiting(): World {
    Unmarked().(held := {})
  }

  lemma WaitingIsHonest()
    ensures Inv(Waiting())
  {
    var none: Debts := map[];
    assert SessionDebts(none, 2).Keys == {};
  }

  lemma WaitingIsSound()
    ensures IsSound(Waiting())
  {
    WaitingIsHonest();
    SumOfOne("p", 0);
    assert Unspent(Waiting().live) == map[2 := 5];
    SumOfOne<nat>(2, 5);
  }

  /** The collector measures the changed entry; the session takes hold of it and marks it. */
  function Overwriting(rest: seq<Event>): seq<Event> {
    [StartGc({"p"}, {"p"})]
    + ([Reconcile("p")] + ([Hold(2, "p")] + ([MarkDirty("p")] + ([Record(NOBODY)] + ([GiveUp] + rest)))))
  }

  /** The mark is there, and so is the measurement that will take it away. */
  function Crossed(): World {
    Unmarked().(dirty := {"p"}, sizing := map[NOBODY := OldSizing()], gc := Reconciling({}))
  }

  lemma CrossedIsReached()
    ensures var started := Next(Waiting(), StartGc({"p"}, {"p"}));
            Next(Next(Next(started, Reconcile("p")), Hold(2, "p")), MarkDirty("p")) == Crossed()
  {
    var w1 := Waiting().(gc := Reconciling({"p"}));
    assert (Waiting().dirty + Unknown(Waiting())) * {"p"} + {"p"} == {"p"};
    assert Next(Waiting(), StartGc({"p"}, {"p"})) == w1;
    assert !IsHeld(w1, "p") && w1.gc.todo - {"p"} == {};
    assert Sizes(w1, NOBODY, "p", true).sizing == map[NOBODY := OldSizing()];
    assert Reconciled(w1, "p") == Crossed().(dirty := {}, held := {});
    assert Marked(Crossed().(dirty := {}), "p") == Crossed();
  }

  lemma MarkIsOverwritten()
    ensures Next(Next(Crossed(), Record(NOBODY)), GiveUp) == Unmarked()
  {
    var none: Debts := map[];
    assert Since(none, OldSizing()).Keys == {};
    assert Recorded(Crossed().live, none, OldSizing()) == Unmarked().live;
  }

  lemma CrossedRuns(rest: seq<Event>)
    requires Run(Unmarked(), rest, 10)
    ensures Run(Crossed(), [Record(NOBODY)] + ([GiveUp] + rest), 10)
    ensures After(Crossed(), [Record(NOBODY)] + ([GiveUp] + rest)) == After(Unmarked(), rest)
  {
    var w := Next(Crossed(), Record(NOBODY));
    MarkIsOverwritten();
    RunStarts(w, GiveUp, Unmarked(), rest);
    RunStarts(Crossed(), Record(NOBODY), w, [GiveUp] + rest);
  }

  lemma WaitingRuns(rest: seq<Event>)
    requires Run(Crossed(), rest, 10)
    ensures var run := [StartGc({"p"}, {"p"})] + ([Reconcile("p")] + ([Hold(2, "p")] + ([MarkDirty("p")] + rest)));
            Run(Waiting(), run, 10) && After(Waiting(), run) == After(Crossed(), rest)
  {
    var w1 := Next(Waiting(), StartGc({"p"}, {"p"}));
    var w2 := Next(w1, Reconcile("p"));
    var w3 := Next(w2, Hold(2, "p"));
    CrossedIsReached();
    RunStarts(w3, MarkDirty("p"), Crossed(), rest);
    RunStarts(w2, Hold(2, "p"), w3, [MarkDirty("p")] + rest);
    RunStarts(w1, Reconcile("p"), w2, [Hold(2, "p")] + ([MarkDirty("p")] + rest));
    RunStarts(Waiting(), StartGc({"p"}, {"p"}), w1, [Reconcile("p")] + ([Hold(2, "p")] + ([MarkDirty("p")] + rest)));
  }

  lemma OverwrittenMarkOvercommits()
    ensures Run(Waiting(), Overwriting(GrowingUnmarked()), 10)
    ensures Committed(After(Waiting(), Overwriting(GrowingUnmarked()))) == 15
  {
    UnmarkedGrowthOvercommits();
    CrossedRuns(GrowingUnmarked());
    WaitingRuns([Record(NOBODY)] + ([GiveUp] + GrowingUnmarked()));
  }

  // ---- An older measurement is recorded after a younger one ----

  /** The first has measured the empty entry; the second grows it, measures it, records and closes. */
  function Overtaking(rest: seq<Event>): seq<Event> {
    [Measure(1, "p", false)] + ([Grow(2, "p", 5)] + Measuring(2, "p", [Close(2)] + rest))
  }

  function OldSizing(): Sizing {
    Sizing("p", true, 0, map[])
  }

  /** The row is right, and the first session is about to put the old size in its place. */
  function Overtaken(): World {
    World(map["p" := 5], Book(map["p" := 5], map[], map[1 := 5], map[1 := 0]), {}, {Stake(1, "p")}, {},
          map[1 := OldSizing()], SecondsDebts(), Idle)
  }

  /** The first has measured, and the second has grown the entry since. */
  function Older(): World {
    Paired().(actual := map["p" := 5], grown := SecondsDebts(), sizing := map[1 := OldSizing()],
              live := Book(map["p" := 0], SecondsDebts(), map[1 := 5, 2 := 5], map[1 := 0, 2 := 5]))
  }

  lemma OlderIsReached()
    ensures Next(Next(Paired(), Measure(1, "p", false)), Grow(2, "p", 5)) == Older()
  {
    var before := Paired().(sizing := map[1 := OldSizing()]);
    assert Next(Paired(), Measure(1, "p", false)) == before;
    assert Raised(before, 2, "p", 5).live == Older().live;
    assert Raised(before, 2, "p", 5) == Older();
  }

  lemma OlderIsOvertaken()
    ensures Next(Sized(Older(), "p"), Close(2)) == Overtaken()
  {
    var sized := Sized(Older(), "p");
    assert sized.live == Book(map["p" := 5], map[], map[1 := 5, 2 := 5], map[1 := 0, 2 := 5]);
    assert Left(sized.live, 2) == Overtaken().live && Released(sized.held, 2) == {Stake(1, "p")};
  }

  lemma SecondLeavesFirst(rest: seq<Event>)
    requires Run(Overtaken(), rest, 10)
    ensures Run(Older(), Measuring(2, "p", [Close(2)] + rest), 10)
    ensures After(Older(), Measuring(2, "p", [Close(2)] + rest)) == After(Overtaken(), rest)
  {
    OlderIsOvertaken();
    RunStarts(Sized(Older(), "p"), Close(2), Overtaken(), rest);
    MeasuringRuns(Older(), 2, "p", [Close(2)] + rest);
  }

  lemma OlderRuns(later: seq<Event>)
    requires Run(Older(), later, 10)
    ensures Run(Paired(), [Measure(1, "p", false)] + ([Grow(2, "p", 5)] + later), 10)
    ensures After(Paired(), [Measure(1, "p", false)] + ([Grow(2, "p", 5)] + later)) == After(Older(), later)
  {
    var w := Next(Paired(), Measure(1, "p", false));
    OlderIsReached();
    RunStarts(w, Grow(2, "p", 5), Older(), later);
    RunStarts(Paired(), Measure(1, "p", false), w, [Grow(2, "p", 5)] + later);
  }

  lemma SecondOvertakes(rest: seq<Event>)
    requires Run(Overtaken(), rest, 10)
    ensures Run(Paired(), Overtaking(rest), 10) && After(Paired(), Overtaking(rest)) == After(Overtaken(), rest)
  {
    SecondLeavesFirst(rest);
    OlderRuns(Measuring(2, "p", [Close(2)] + rest));
  }

  /** The first records and closes, and the growth of the second is on nobody's account. */
  function Rewritten(): World {
    Overtaken().(live := Book(map["p" := 0], SecondsDebts(), map[1 := 5], map[1 := 0]), sizing := map[])
  }

  lemma OldSizeIsRecorded()
    ensures Next(Overtaken(), Record(1)) == Rewritten()
  {
    assert Since(SecondsDebts(), OldSizing()) == SecondsDebts();
    assert Recorded(Overtaken().live, SecondsDebts(), OldSizing()) == Rewritten().live;
    assert Overtaken().sizing - {1} == map[];
  }

  lemma FirstLeavesUnseen()
    ensures Next(Rewritten(), Close(1)) == Unseen().(gc := Idle)
  {
    assert Left(Rewritten().live, 1) == Unseen().live && Released(Rewritten().held, 1) == {};
    assert Rewritten().sizing - {1} == map[];
  }

  lemma FirstRecordsLate(rest: seq<Event>)
    requires Run(Unseen(), rest, 10)
    ensures Run(Overtaken(), [Record(1)] + ([Close(1)] + ([StartGc({"p"}, {})] + rest)), 10)
    ensures After(Overtaken(), [Record(1)] + ([Close(1)] + ([StartGc({"p"}, {})] + rest))) == After(Unseen(), rest)
  {
    var w := Unseen().(gc := Idle);
    assert w.actual.Keys == {"p"} && w.live.recorded.Keys == {"p"};
    assert Swept(w) == Unseen() && Unknown(w) == {};
    CleanStart(w, {"p"}, rest);
    FirstLeavesUnseen();
    RunStarts(Rewritten(), Close(1), w, [StartGc({"p"}, {})] + rest);
    OldSizeIsRecorded();
    RunStarts(Overtaken(), Record(1), Rewritten(), [Close(1)] + ([StartGc({"p"}, {})] + rest));
  }

  function RecordingLate(): seq<Event> {
    Overtaking([Record(1)] + ([Close(1)] + ([StartGc({"p"}, {})] + Readings(3, 10))))
  }

  lemma OvertakenMeasurementOvercommits()
    ensures Run(Paired(), RecordingLate(), 10)
    ensures Committed(After(Paired(), RecordingLate())) == 15
  {
    UnseenAdmits();
    FirstRecordsLate(Readings(3, 10));
    SecondOvertakes([Record(1)] + ([Close(1)] + ([StartGc({"p"}, {})] + Readings(3, 10))));
  }

  // ---- A row is forgotten although its entry is there ----

  /** Session 1 makes, measures and leaves an entry after the collection has listed the directories. */
  function Forgetting(rest: seq<Event>): seq<Event> {
    [StartGc({}, {})] + ([Hold(1, "p")] + ([Grow(1, "p", 10)] + Measuring(1, "p", [Close(1)] + ([Forget("p")] + rest))))
  }

  /** The bytes are there, and no row tells of them. */
  function Forgotten(): World {
    World(map["p" := 10], Book(map[], map[Stake(NOBODY, "p") := 10], map[], map[]), {}, {}, {},
          map[], Debts10(), Reconciling({}))
  }

  /** The entry is on disk, and the collection has not seen it. */
  function Made(): World {
    World(map["p" := 10], Book(map[], Debts10(), map[1 := 10], map[1 := 10]), {}, {Stake(1, "p")}, {},
          map[], Debts10(), Reconciling({}))
  }

  lemma EntryIsMade()
    ensures Next(Next(Swept(Admitted10()), Hold(1, "p")), Grow(1, "p", 10)) == Made()
  {
    assert Next(Next(Swept(Admitted10()), Hold(1, "p")), Grow(1, "p", 10)).live == Made().live;
  }

  lemma EntryIsLeft()
    ensures Next(Sized(Made(), "p"), Close(1)) == Forgotten().(live := Measured10())
  {
    var sized := Sized(Made(), "p");
    assert sized.live == Book(map["p" := 10], map[], map[1 := 10], map[1 := 10]);
    assert Left(sized.live, 1) == Measured10() && Released(sized.held, 1) == {};
  }

  lemma LeftIsForgotten(rest: seq<Event>)
    requires Run(Forgotten(), rest, 10)
    ensures Run(Made(), Measuring(1, "p", [Close(1)] + ([Forget("p")] + rest)), 10)
    ensures After(Made(), Measuring(1, "p", [Close(1)] + ([Forget("p")] + rest))) == After(Forgotten(), rest)
  {
    var left := Forgotten().(live := Measured10());
    assert Measured10().recorded - {"p"} == map[];
    RunStarts(left, Forget("p"), Forgotten(), rest);
    EntryIsLeft();
    RunStarts(Sized(Made(), "p"), Close(1), left, [Forget("p")] + rest);
    MeasuringRuns(Made(), 1, "p", [Close(1)] + ([Forget("p")] + rest));
  }

  lemma RowIsForgotten(rest: seq<Event>)
    requires Run(Forgotten(), rest, 10)
    ensures Run(Admitted10(), Forgetting(rest), 10)
    ensures After(Admitted10(), Forgetting(rest)) == After(Forgotten(), rest)
  {
    var later := Measuring(1, "p", [Close(1)] + ([Forget("p")] + rest));
    var held := Next(Swept(Admitted10()), Hold(1, "p"));
    LeftIsForgotten(rest);
    EntryIsMade();
    RunStarts(held, Grow(1, "p", 10), Made(), later);
    RunStarts(Swept(Admitted10()), Hold(1, "p"), held, [Grow(1, "p", 10)] + later);
    CleanStart(Admitted10(), {}, [Hold(1, "p")] + ([Grow(1, "p", 10)] + later));
  }

  lemma ForgottenAdmits()
    ensures Run(Forgotten(), Readings(2, 10), 10)
    ensures Committed(After(Forgotten(), Readings(2, 10))) == 20
  {
    SumOfOne("p", 10);
    ReadingsRun(Forgotten(), 2, 10);
    assert Unspent(Forgotten().live).Keys == {};
    JoinReserves(Forgotten().live, 2, 10);
  }

  /** The start is that of the first admission to an empty cache. */
  lemma ForgottenRowOvercommits()
    ensures Run(Admitted10(), Forgetting(Readings(2, 10)), 10)
    ensures Committed(After(Admitted10(), Forgetting(Readings(2, 10)))) == 20
  {
    ForgottenAdmits();
    RowIsForgotten(Readings(2, 10));
  }

  // ---- An eviction deducts what was measured after the counting ----

  /** Two entries; session 1 has grown the marked "p" by its reservation, and session 2 shares it. */
  function Joint(): World {
    World(map["p" := 5, "q" := 4], JointBook(), {"p"}, {Stake(1, "p"), Stake(2, "p")}, {}, map[], Debts5(), Idle)
  }

  function JointBook(): Book {
    Book(map["p" := 0, "q" := 4], Debts5(), map[1 := 5, 2 := 1], map[1 := 5, 2 := 0])
  }

  lemma JointUnspent()
    ensures Sum(Unspent(JointBook())) == 1
  {
    assert Unspent(JointBook()) == map[1 := 0, 2 := 1];
    SumOfTwo<nat>(1, 0, 2, 1);
  }

  lemma JointCommits()
    ensures Committed(Joint()) == 10
  {
    SumOfTwo("p", 5, "q", 4);
    JointUnspent();
  }

  lemma JointIsHonest()
    ensures Inv(Joint())
  {
    FirstOwesAll();
    assert PathDebts(Debts5(), "q").Keys == {};
  }

  lemma JointIsSound()
    ensures IsSound(Joint())
  {
    JointIsHonest();
    JointCommits();
  }

  /** What the collection reads, once session 1 has died and its reservation has gone. */
  function Orphan(): Book {
    Book(map["p" := 0, "q" := 4], Debts5(), map[2 := 1], map[2 := 0])
  }

  function OrphanWorld(gc: Gc): World {
    World(map["p" := 5, "q" := 4], Orphan(), {"p"}, {Stake(2, "p")}, {}, map[], Debts5(), gc)
  }

  /** Session 1 has died, and the collection has passed over "p". */
  function Bereft(): World {
    World(map["p" := 5, "q" := 4], JointBook(), {"p"}, {Stake(2, "p")}, {1}, map[], Debts5(), Reconciling({}))
  }

  lemma FirstIsGone()
    ensures Swept(Next(Joint(), Crash(1))) == Bereft()
  {
    assert Released(Joint().held, 1) == {Stake(2, "p")} && Joint().sizing - {1} == Joint().sizing;
  }

  lemma FirstIsCleared()
    ensures Next(Swept(Next(Joint(), Crash(1))), ClearStale(1)) == OrphanWorld(Reconciling({}))
  {
    FirstIsGone();
    assert Left(JointBook(), 1) == Orphan() && Bereft().dead - {1} == {};
  }

  lemma FirstDies(rest: seq<Event>)
    requires Run(OrphanWorld(Reconciling({})), rest, 10)
    ensures Run(Joint(), Dying({"p", "q"}, rest), 10)
    ensures After(Joint(), Dying({"p", "q"}, rest)) == After(OrphanWorld(Reconciling({})), rest)
  {
    FirstIsCleared();
    DyingRuns(Joint(), {"p", "q"}, OrphanWorld(Reconciling({})), rest);
  }

  lemma OrphanIsCounted(rest: seq<Event>)
    requires Run(OrphanWorld(Counted(Orphan(), {"p"})), rest, 10)
    ensures var w, run := OrphanWorld(Reconciling({})), [ReadEntries] + ([ReadReservations] + ([ReadDirty] + rest));
            Run(w, run, 10) && After(w, run) == After(OrphanWorld(Counted(Orphan(), {"p"})), rest)
  {
    var w0 := OrphanWorld(Reconciling({}));
    var w1, w2 := w0.(gc := EntriesRead(Orphan())), w0.(gc := ReservationsRead(Orphan()));
    RunStarts(w2, ReadDirty, OrphanWorld(Counted(Orphan(), {"p"})), rest);
    RunStarts(w1, ReadReservations, w2, [ReadDirty] + rest);
    RunStarts(w0, ReadEntries, w1, [ReadReservations] + ([ReadDirty] + rest));
  }

  /** Session 2 has measured "p" and left, before the candidates are read. */
  function MeasuredAll(gc: Gc): World {
    World(map["p" := 5, "q" := 4], Book(map["p" := 5, "q" := 4], map[], map[], map[]), {}, {}, {}, map[], Debts5(), gc)
  }

  lemma SecondLeaves(gc: Gc)
    requires gc == Counted(Orphan(), {"p"})
    ensures Next(Sized(OrphanWorld(gc), "p"), Close(2)) == MeasuredAll(gc)
  {
    var sized := Sized(OrphanWorld(gc), "p");
    assert sized.live == Book(map["p" := 5, "q" := 4], map[], map[2 := 1], map[2 := 0]);
    assert Left(sized.live, 2) == MeasuredAll(gc).live && Released(sized.held, 2) == {};
  }

  lemma OrphanIsMeasured(rest: seq<Event>)
    requires Run(MeasuredAll(Counted(Orphan(), {"p"})), rest, 10)
    ensures var w, run := OrphanWorld(Counted(Orphan(), {"p"})), Measuring(2, "p", [Close(2)] + rest);
            Run(w, run, 10) && After(w, run) == After(MeasuredAll(Counted(Orphan(), {"p"})), rest)
  {
    var w := OrphanWorld(Counted(Orphan(), {"p"}));
    SecondLeaves(w.gc);
    RunStarts(Sized(w, "p"), Close(2), MeasuredAll(w.gc), rest);
    MeasuringRuns(w, 2, "p", [Close(2)] + rest);
  }

  /** Five bytes have been deducted, of the four that were counted. */
  function Overdrawn(): World {
    World(map["q" := 4], Book(map["q" := 4], map[], map[], map[]), {}, {}, {}, map[], Debts5(),
          Listed(Book(map["p" := 0, "q" := 4], map[], map[2 := 1], map[2 := 0]), {}, map["q" := 4],
                 0, map["p" := 0], 5))
  }

  lemma NothingWasCovered()
    ensures Cover(Orphan(), "p") == 0 && Sum(Orphan().recorded) == 4
    ensures Shed(Orphan(), "p") == Overdrawn().gc.book
  {
    assert PathDebts(Backed(Orphan()), "p").Keys == {};
    SumOfTwo("p", 0, "q", 4);
  }

  lemma EvictionOverdraws()
    ensures Next(MeasuredAll(ListedWith(Orphan(), {"p"}, MeasuredAll(Idle).live.recorded)), Evict("p")) == Overdrawn()
  {
    NothingWasCovered();
    var w := MeasuredAll(ListedWith(Orphan(), {"p"}, MeasuredAll(Idle).live.recorded));
    assert w.actual - {"p"} == Overdrawn().actual && w.gc.sizes - {"p"} == map["q" := 4];
    assert Evicted(w.live, "p") == Overdrawn().live;
    assert GcEvicted(w.gc, "p") == Overdrawn().gc;
  }

  lemma OrphanIsEvicted(rest: seq<Event>)
    requires Run(Overdrawn(), rest, 10)
    ensures var w, run := MeasuredAll(Counted(Orphan(), {"p"})), [ReadCandidates] + ([Evict("p")] + rest);
            Run(w, run, 10) && After(w, run) == After(Overdrawn(), rest)
  {
    var w := MeasuredAll(ListedWith(Orphan(), {"p"}, MeasuredAll(Idle).live.recorded));
    EvictionOverdraws();
    RunStarts(w, Evict("p"), Overdrawn(), rest);
    RunStarts(MeasuredAll(Counted(Orphan(), {"p"})), ReadCandidates, w, [Evict("p")] + rest);
  }

  lemma OverdrawnAdmits()
    ensures Run(Overdrawn(), [Admit(3, 9)] + [], 10)
    ensures Committed(After(Overdrawn(), [Admit(3, 9)] + [])) == 13
  {
    SumOfOne<nat>(2, 1);
    SumOfOne("q", 4);
    RunStarts(Overdrawn(), Admit(3, 9), Admitted(Overdrawn(), 3, 9), []);
    assert Unspent(Overdrawn().live).Keys == {};
    JoinReserves(Overdrawn().live, 3, 9);
  }

  function Evicting(): seq<Event> {
    [ReadCandidates] + ([Evict("p")] + ([Admit(3, 9)] + []))
  }

  function CountingFirst(): seq<Event> {
    [ReadEntries] + ([ReadReservations] + ([ReadDirty] + Measuring(2, "p", [Close(2)] + Evicting())))
  }

  /** The size was measured after the counting, and the eviction deducts it from other entries. */
  lemma EvictingAMeasuredOrphanOvercommits()
    ensures Run(Joint(), Dying({"p", "q"}, CountingFirst()), 10)
    ensures Committed(After(Joint(), Dying({"p", "q"}, CountingFirst()))) == 13
  {
    OverdrawnAdmits();
    OrphanIsEvicted([Admit(3, 9)] + []);
    OrphanIsMeasured(Evicting());
    OrphanIsCounted(Measuring(2, "p", [Close(2)] + Evicting()));
    FirstDies(CountingFirst());
  }
}
