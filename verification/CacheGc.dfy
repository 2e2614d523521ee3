/**
 Garbage collection of the managed cache (`_garbage_collect_cache_locked` in `cache.py`) over the
 rows of `cache_index.py`: a greedy eviction loop with its own running account of the bytes.
 */
module CacheGc {
  import opened Options
  import opened Ordering
  import opened Sorting

  datatype Kind = Trash | Temporary | Build | Depot | Download | LakeSystem

  datatype EntryState = Ready | Dirty | Deleting

  datatype Entry = Entry(path: string, name: string, kind: Kind, bytes: nat, lastUsed: int, lease: string,
                         state: EntryState)

  datatype Reservation = Reservation(bytes: nat, lock: string)

  datatype Policy = Policy(maxBytes: int, minFree: int)

  /** The byte fields of `CacheUsage`; trash counts as temporary. */
  datatype Field = DependencyBytes | BuildBytes | DownloadBytes | LakeSystemBytes | TemporaryBytes

  datatype Usage = Usage(managed: int, free: int, dependency: int, builds: int, downloads: int, lakeSystem: int,
                         temporary: int, reserved: int)

  function FieldOf(kind: Kind): Field {
    match kind
    case Depot => DependencyBytes
    case Build => BuildBytes
    case Download => DownloadBytes
    case LakeSystem => LakeSystemBytes
    case Temporary => TemporaryBytes
    case Trash => TemporaryBytes
  }

  function Part(u: Usage, f: Field): int {
    match f
    case DependencyBytes => u.dependency
    case BuildBytes => u.builds
    case DownloadBytes => u.downloads
    case LakeSystemBytes => u.lakeSystem
    case TemporaryBytes => u.temporary
  }

  function WithPart(u: Usage, f: Field, v: int): Usage {
    match f
    case DependencyBytes => u.(dependency := v)
    case BuildBytes => u.(builds := v)
    case DownloadBytes => u.(downloads := v)
    case LakeSystemBytes => u.(lakeSystem := v)
    case TemporaryBytes => u.(temporary := v)
  }

  function AtLeastZero(v: int): int {
    if v > 0 then v else 0
  }

  /** Both sides of `_usage_after_removal`; `free` is the disk reading after the deletion. */
  function AfterRemoval(u: Usage, e: Entry, free: int): Usage {
    var f := FieldOf(e.kind);
    WithPart(u.(managed := AtLeastZero(u.managed - e.bytes), free := free), f, AtLeastZero(Part(u, f) - e.bytes))
  }

  // ---- Sums of recorded bytes ----

  ghost function Total(es: seq<Entry>): nat {
    if es == [] then 0 else Total(es[..|es| - 1]) + es[|es| - 1].bytes
  }

  ghost function FieldTotal(es: seq<Entry>, f: Field): nat {
    if es == [] then 0
    else FieldTotal(es[..|es| - 1], f) + if FieldOf(es[|es| - 1].kind) == f then es[|es| - 1].bytes else 0
  }

  lemma TotalsAppend(es: seq<Entry>, e: Entry)
    ensures Total(es + [e]) == Total(es) + e.bytes
    ensures forall f :: FieldTotal(es + [e], f) == FieldTotal(es, f) + if FieldOf(e.kind) == f then e.bytes else 0
  {
    assert (es + [e])[..|es|] == es;
  }

  lemma {:induction false} TotalIsSumOfFields(es: seq<Entry>)
    ensures Total(es) == FieldTotal(es, DependencyBytes) + FieldTotal(es, BuildBytes) + FieldTotal(es, DownloadBytes)
                         + FieldTotal(es, LakeSystemBytes) + FieldTotal(es, TemporaryBytes)
  {
    if es == [] {
    } else {
      TotalIsSumOfFields(es[..|es| - 1]);
    }
  }

  lemma {:induction false} TotalsWithout(es: seq<Entry>, j: nat)
    requires j < |es|
    ensures Total(es) == Total(es[..j] + es[j + 1..]) + es[j].bytes
    ensures forall f :: FieldTotal(es, f) ==
              FieldTotal(es[..j] + es[j + 1..], f) + if FieldOf(es[j].kind) == f then es[j].bytes else 0
    decreases |es|
  {
    var k := |es| - 1;
    var init, last := es[..k], es[k];
    assert es == init + [last];
    TotalsAppend(init, last);
    if j < k {
      TotalsWithout(init, j);
      TotalsAppend(init[..j] + init[j + 1..], last);
      assert es[..j] + es[j + 1..] == (init[..j] + init[j + 1..]) + [last];
    } else {
      assert es[..j] + es[j + 1..] == init;
    }
  }

  /** Totals do not depend on the order of the rows. */
  lemma {:induction false} TotalsOfPermutation(a: seq<Entry>, b: seq<Entry>)
    requires multiset(a) == multiset(b)
    ensures Total(a) == Total(b) && forall f :: FieldTotal(a, f) == FieldTotal(b, f)
    decreases |a|
  {
    if a == [] {
      assert |multiset(b)| == |b|;
    } else {
      var k := |a| - 1;
      assert a == a[..k] + [a[k]];
      assert a[k] in multiset(b);
      var j :| 0 <= j < |b| && b[j] == a[k];
      var rest := b[..j] + b[j + 1..];
      assert b == b[..j] + [b[j]] + b[j + 1..];
      assert multiset(b) == multiset(rest) + multiset{b[j]};
      assert multiset(a) == multiset(a[..k]) + multiset{a[k]};
      MultisetCancel(multiset(a[..k]), multiset(rest), a[k]);
      TotalsOfPermutation(a[..k], rest);
      TotalsWithout(b, j);
      TotalsAppend(a[..k], a[k]);
    }
  }

  lemma MultisetCancel(a: multiset<Entry>, b: multiset<Entry>, x: Entry)
    requires a + multiset{x} == b + multiset{x}
    ensures a == b
  {
    assert (a + multiset{x}) - multiset{x} == a;
    assert (b + multiset{x}) - multiset{x} == b;
  }

  // ---- The account ----

  /** `u` is the account of all `rows` after the eviction of `removed`. */
  ghost predicate Accounts(u: Usage, rows: seq<Entry>, removed: seq<Entry>) {
    && u.managed == Total(rows) - Total(removed)
    && forall f :: Part(u, f) == FieldTotal(rows, f) - FieldTotal(removed, f)
  }

  /** `managed_bytes` is the sum of its parts. */
  ghost predicate Balanced(u: Usage) {
    u.managed == u.dependency + u.builds + u.downloads + u.lakeSystem + u.temporary
  }

  lemma AccountsAreBalanced(u: Usage, rows: seq<Entry>, removed: seq<Entry>)
    requires Accounts(u, rows, removed)
    ensures Balanced(u)
  {
    TotalIsSumOfFields(rows);
    TotalIsSumOfFields(removed);
    assert Part(u, DependencyBytes) == u.dependency && Part(u, BuildBytes) == u.builds
        && Part(u, DownloadBytes) == u.downloads && Part(u, LakeSystemBytes) == u.lakeSystem
        && Part(u, TemporaryBytes) == u.temporary;
  }

  /** Recorded bytes of one kind. */
  ghost function KindTotal(es: seq<Entry>, kind: Kind): nat {
    if es == [] then 0
    else KindTotal(es[..|es| - 1], kind) + if es[|es| - 1].kind == kind then es[|es| - 1].bytes else 0
  }

  /** Each field of the usage has its kinds; trash counts as temporary. */
  ghost predicate CountsKinds(u: Usage, rows: seq<Entry>) {
    && u.dependency == KindTotal(rows, Depot) && u.builds == KindTotal(rows, Build)
    && u.downloads == KindTotal(rows, Download) && u.lakeSystem == KindTotal(rows, LakeSystem)
    && u.temporary == KindTotal(rows, Temporary) + KindTotal(rows, Trash)
  }

  lemma {:induction false} FieldsAreKinds(rows: seq<Entry>)
    ensures FieldTotal(rows, DependencyBytes) == KindTotal(rows, Depot)
    ensures FieldTotal(rows, BuildBytes) == KindTotal(rows, Build)
    ensures FieldTotal(rows, DownloadBytes) == KindTotal(rows, Download)
    ensures FieldTotal(rows, LakeSystemBytes) == KindTotal(rows, LakeSystem)
    ensures FieldTotal(rows, TemporaryBytes) == KindTotal(rows, Temporary) + KindTotal(rows, Trash)
  {
    if rows == [] {
    } else {
      FieldsAreKinds(rows[..|rows| - 1]);
    }
  }

  lemma AccountsCountKinds(u: Usage, rows: seq<Entry>)
    requires Accounts(u, rows, [])
    ensures CountsKinds(u, rows)
  {
    FieldsAreKinds(rows);
    assert Part(u, DependencyBytes) == FieldTotal(rows, DependencyBytes) - FieldTotal([], DependencyBytes);
    assert Part(u, BuildBytes) == FieldTotal(rows, BuildBytes) - FieldTotal([], BuildBytes);
    assert Part(u, DownloadBytes) == FieldTotal(rows, DownloadBytes) - FieldTotal([], DownloadBytes);
    assert Part(u, LakeSystemBytes) == FieldTotal(rows, LakeSystemBytes) - FieldTotal([], LakeSystemBytes);
    assert Part(u, TemporaryBytes) == FieldTotal(rows, TemporaryBytes) - FieldTotal([], TemporaryBytes);
  }

  /** `cache_usage`: the loop over the rows that fills the per-kind totals. */
  method UsageOf(rows: seq<Entry>, free: int, reserved: int) returns (u: Usage)
    ensures Accounts(u, rows, []) && u.free == free && u.reserved == reserved && Balanced(u)
    ensures CountsKinds(u, rows)
  {
    u := Usage(0, free, 0, 0, 0, 0, 0, reserved);
    for i := 0 to |rows|
      invariant forall f :: Part(u, f) == FieldTotal(rows[..i], f)
      invariant u.free == free && u.reserved == reserved
    {
      assert rows[..i + 1] == rows[..i] + [rows[i]];
      TotalsAppend(rows[..i], rows[i]);
      var f := FieldOf(rows[i].kind);
      u := WithPart(u, f, Part(u, f) + rows[i].bytes);
    }
    assert rows[..|rows|] == rows;
    assert Part(u, DependencyBytes) == u.dependency && Part(u, BuildBytes) == u.builds
        && Part(u, DownloadBytes) == u.downloads && Part(u, LakeSystemBytes) == u.lakeSystem
        && Part(u, TemporaryBytes) == u.temporary;
    TotalIsSumOfFields(rows);
    u := u.(managed := u.dependency + u.builds + u.downloads + u.lakeSystem + u.temporary);
    forall f ensures Part(u, f) == FieldTotal(rows, f) - FieldTotal([], f) {
    }
    AccountsCountKinds(u, rows);
  }

  // ---- Safety limits ----

  predicate WithinLimits(policy: Policy, reserve: int, managed: int, free: int, reserved: int) {
    managed + (reserve + reserved) <= policy.maxBytes && free - (reserve + reserved) >= policy.minFree
  }

  /** `safe`: the limits hold, and no byte count is in doubt unless reservations cover it. */
  predicate Safe(policy: Policy, reserve: int, u: Usage, dirty: set<string>) {
    && (dirty == {} || u.reserved > 0)
    && WithinLimits(policy, reserve, u.managed, u.free, u.reserved)
  }

  /** The early refusal of a strict collection. */
  predicate Hopeless(policy: Policy, reserve: int, u: Usage) {
    || reserve + u.reserved > policy.maxBytes
    || u.free + u.managed - (reserve + u.reserved) < policy.minFree
  }

  /** The limits after evicting `evicted` and keeping `kept`, each row freeing its recorded bytes. */
  ghost predicate Rescues(policy: Policy, reserve: int, u: Usage, rows: seq<Entry>, kept: seq<Entry>, evicted: seq<Entry>) {
    && multiset(kept + evicted) == multiset(rows)
    && WithinLimits(policy, reserve, Total(kept), u.free + Total(evicted), u.reserved)
  }

  /** The refusal fires exactly when no set of evictions could succeed. */
  lemma RefusalIsExact(policy: Policy, reserve: int, u: Usage, rows: seq<Entry>)
    requires Accounts(u, rows, [])
    ensures Hopeless(policy, reserve, u) <==>
            forall kept, evicted :: !Rescues(policy, reserve, u, rows, kept, evicted)
  {
    forall kept, evicted | Rescues(policy, reserve, u, rows, kept, evicted)
      ensures !Hopeless(policy, reserve, u)
    {
      TotalsOfPermutation(kept + evicted, rows);
      TotalsConcat(kept, evicted);
    }
    if !Hopeless(policy, reserve, u) {
      assert [] + rows == rows;
      assert Rescues(policy, reserve, u, rows, [], rows);
    }
  }

  lemma {:induction false} TotalsConcat(a: seq<Entry>, b: seq<Entry>)
    ensures Total(a + b) == Total(a) + Total(b)
    decreases |b|
  {
    if b == [] {
      assert a + b == a;
    } else {
      var k := |b| - 1;
      TotalsConcat(a, b[..k]);
      assert a + b == (a + b[..k]) + [b[k]];
      TotalsAppend(a + b[..k], b[k]);
    }
  }

  // ---- The limits, written out ----

  /** No byte count is in doubt unless something is reserved, and there is room for all that is asked. */
  ghost predicate KeepsLimits(g: Setting, u: Usage, dirty: set<string>) {
    && (dirty == {} || u.reserved > 0)
    && u.managed + g.reserve + u.reserved <= g.policy.maxBytes
    && u.free - g.reserve - u.reserved >= g.policy.minFree
  }

  lemma SafeKeepsLimits(g: Setting, u: Usage, dirty: set<string>)
    ensures Safe(g.policy, g.reserve, u, dirty) <==> KeepsLimits(g, u, dirty)
  {
  }

  /** No entry was evicted while the limits were kept. */
  ghost predicate NothingInVain(g: Setting, before: Usage, dirty: set<string>, removed: seq<Entry>, free: nat -> int) {
    forall k :: 0 <= k < |removed| ==>
      !KeepsLimits(g, UsageAlong(before, removed[..k], free), DirtyAlong(dirty, removed[..k]))
  }

  lemma UnsafeIsNotInVain(g: Setting, before: Usage, dirty: set<string>, removed: seq<Entry>, free: nat -> int)
    requires EvictedWhileUnsafe(g, before, dirty, removed, free)
    ensures NothingInVain(g, before, dirty, removed, free)
  {
    forall k | 0 <= k < |removed|
      ensures !KeepsLimits(g, UsageAlong(before, removed[..k], free), DirtyAlong(dirty, removed[..k]))
    {
      assert !SafeAfter(g, before, dirty, removed[..k], free);
    }
  }

  /** The marks that were seen, without those of the evicted entries. */
  ghost predicate MarksLeft(seen: map<string, Entry>, p: Progress) {
    forall q :: q in p.dirty <==> q in seen && seen[q].state == Dirty && forall e :: e in p.removed ==> e.path != q
  }

  /** Even with everything gone there would be no room. */
  ghost predicate BeyondHope(g: Setting, u: Usage) {
    || g.reserve + u.reserved > g.policy.maxBytes
    || u.free + u.managed - g.reserve - u.reserved < g.policy.minFree
  }

  // ---- The eviction loop ----

  /** What the loop carries: its account, the dirty paths, and the two result lists. */
  datatype Progress = Progress(current: Usage, dirty: set<string>, removed: seq<Entry>, skipped: seq<Entry>)

  /** Entries that nobody protects and whose lease can be taken exclusively. */
  predicate Evictable(e: Entry, protected: set<string>, busy: set<string>) {
    e.path !in protected && e.lease !in busy
  }

  function Chosen(rows: seq<Entry>, protected: set<string>, busy: set<string>): seq<Entry> {
    if rows == [] then []
    else
      var k := |rows| - 1;
      Chosen(rows[..k], protected, busy) + if Evictable(rows[k], protected, busy) then [rows[k]] else []
  }

  function PassedOver(rows: seq<Entry>, protected: set<string>, busy: set<string>): seq<Entry> {
    if rows == [] then []
    else
      var k := |rows| - 1;
      PassedOver(rows[..k], protected, busy)
      + if rows[k].path !in protected && rows[k].lease in busy then [rows[k]] else []
  }

  /** The account along the evictions; `free(k)` is the disk reading after the k-th deletion. */
  function UsageAlong(before: Usage, removed: seq<Entry>, free: nat -> int): Usage {
    if removed == [] then before
    else
      var k := |removed| - 1;
      AfterRemoval(UsageAlong(before, removed[..k], free), removed[k], free(k))
  }

  function DirtyAlong(dirty: set<string>, removed: seq<Entry>): set<string> {
    dirty - set e | e in removed :: e.path
  }

  // ---- Sizes that the candidates give ----

  lemma {:induction false} PartStaysNatural(before: Usage, removed: seq<Entry>, free: nat -> int, f: Field)
    requires Part(before, f) >= 0
    ensures Part(UsageAlong(before, removed, free), f) >= 0
    decreases |removed|
  {
    if removed == [] {
    } else {
      PartStaysNatural(before, removed[..|removed| - 1], free, f);
    }
  }

  lemma FittingStep(before: Usage, rows: seq<Entry>, removed: seq<Entry>, e: Entry, free: nat -> int)
    requires Accounts(UsageAlong(before, removed, free), rows, removed)
    requires Fits(removed + [e], rows)
    ensures Accounts(UsageAlong(before, removed + [e], free), rows, removed + [e])
  {
    var u := UsageAlong(before, removed, free);
    AlongAppend(before, {}, removed, e, free);
    TotalsAppend(removed, e);
    FitsAltogether(removed + [e], rows);
    var after := AfterRemoval(u, e, free(|removed|));
    forall f ensures Part(after, f) == FieldTotal(rows, f) - FieldTotal(removed + [e], f) {
      assert Part(u, f) == FieldTotal(rows, f) - FieldTotal(removed, f);
      assert FieldTotal(removed + [e], f) <= FieldTotal(rows, f);
    }
    assert Part(u, FieldOf(e.kind)) == FieldTotal(rows, FieldOf(e.kind)) - FieldTotal(removed, FieldOf(e.kind));
  }

  /** In every field, the deductions are at most what was counted. */
  ghost predicate Fits(removed: seq<Entry>, rows: seq<Entry>) {
    forall f :: FieldTotal(removed, f) <= FieldTotal(rows, f)
  }

  lemma FitsAltogether(removed: seq<Entry>, rows: seq<Entry>)
    requires Fits(removed, rows)
    ensures Total(removed) <= Total(rows)
  {
    TotalIsSumOfFields(removed);
    TotalIsSumOfFields(rows);
    assert FieldTotal(removed, DependencyBytes) <= FieldTotal(rows, DependencyBytes);
    assert FieldTotal(removed, BuildBytes) <= FieldTotal(rows, BuildBytes);
    assert FieldTotal(removed, DownloadBytes) <= FieldTotal(rows, DownloadBytes);
    assert FieldTotal(removed, LakeSystemBytes) <= FieldTotal(rows, LakeSystemBytes);
    assert FieldTotal(removed, TemporaryBytes) <= FieldTotal(rows, TemporaryBytes);
  }

  lemma {:induction false} FittingKeepsAccount(before: Usage, rows: seq<Entry>, removed: seq<Entry>, free: nat -> int)
    requires Accounts(before, rows, []) && Fits(removed, rows)
    ensures Accounts(UsageAlong(before, removed, free), rows, removed)
    decreases |removed|
  {
    if removed == [] {
    } else {
      var k := |removed| - 1;
      var init, last := removed[..k], removed[k];
      assert removed == init + [last];
      TotalsAppend(init, last);
      forall f ensures FieldTotal(init, f) <= FieldTotal(rows, f) {
        assert FieldTotal(removed, f) <= FieldTotal(rows, f);
      }
      FittingKeepsAccount(before, rows, init, free);
      FittingStep(before, rows, init, last, free);
    }
  }

  /**
   The evicted rows come from a later reading than the usage, so their sizes may be others.  The
   account is exact, no clamp having bitten, if and only if no field loses more than was counted for it.
   */
  lemma AccountIsExactlyKept(before: Usage, rows: seq<Entry>, removed: seq<Entry>, free: nat -> int)
    requires Accounts(before, rows, [])
    ensures Accounts(UsageAlong(before, removed, free), rows, removed) <==> Fits(removed, rows)
  {
    if Fits(removed, rows) {
      FittingKeepsAccount(before, rows, removed, free);
    }
    if Accounts(UsageAlong(before, removed, free), rows, removed) {
      forall f ensures FieldTotal(removed, f) <= FieldTotal(rows, f) {
        assert Part(before, f) == FieldTotal(rows, f) - FieldTotal([], f);
        PartStaysNatural(before, removed, free, f);
        assert Part(UsageAlong(before, removed, free), f) == FieldTotal(rows, f) - FieldTotal(removed, f);
      }
    }
  }

  /** What the usage reading counted for a candidate. */
  function CountedFor(entries: map<string, Entry>, e: Entry): nat {
    if e.path in entries && entries[e.path].kind == e.kind then entries[e.path].bytes else 0
  }

  ghost predicate HasRows(rows: seq<Entry>, entries: map<string, Entry>) {
    forall p :: p in entries ==> entries[p].path == p && entries[p] in rows
  }

  /** No evicted row is recorded larger among the candidates than in the usage reading. */
  ghost predicate NoneLarger(removed: seq<Entry>, entries: map<string, Entry>) {
    && (forall i :: 0 <= i < |removed| ==> removed[i].bytes <= CountedFor(entries, removed[i]))
    && (forall i, j :: 0 <= i < j < |removed| ==> removed[i].path != removed[j].path)
  }

  lemma WithoutRow(rows: seq<Entry>, entries: map<string, Entry>, j: nat)
    requires HasRows(rows, entries) && j < |rows|
    ensures HasRows(rows[..j] + rows[j + 1..], entries - {rows[j].path})
  {
    assert rows == rows[..j] + [rows[j]] + rows[j + 1..];
  }

  lemma {:induction false} NoneLargerFits(rows: seq<Entry>, entries: map<string, Entry>, removed: seq<Entry>)
    requires HasRows(rows, entries) && NoneLarger(removed, entries)
    ensures Fits(removed, rows)
    decreases |removed|
  {
    if removed == [] {
    } else {
      var k := |removed| - 1;
      var init, last := removed[..k], removed[k];
      assert removed == init + [last];
      TotalsAppend(init, last);
      if last.bytes == 0 {
        NoneLargerFits(rows, entries, init);
        AddedFits(init, rows, last, 0, rows);
      } else {
        var j :| 0 <= j < |rows| && rows[j] == entries[last.path];
        var rest := rows[..j] + rows[j + 1..];
        WithoutRow(rows, entries, j);
        OthersNotLarger(init, last, entries);
        NoneLargerFits(rest, entries - {last.path}, init);
        TotalsWithout(rows, j);
        AddedFits(init, rest, last, rows[j].bytes, rows);
      }
    }
  }

  lemma OthersNotLarger(init: seq<Entry>, last: Entry, entries: map<string, Entry>)
    requires NoneLarger(init + [last], entries)
    ensures NoneLarger(init, entries - {last.path})
  {
    forall i | 0 <= i < |init| ensures init[i].bytes <= CountedFor(entries - {last.path}, init[i]) {
      assert (init + [last])[i] == init[i] && (init + [last])[|init|] == last;
    }
    forall i, j | 0 <= i < j < |init| ensures init[i].path != init[j].path {
      assert (init + [last])[i] == init[i] && (init + [last])[j] == init[j];
    }
  }

  lemma AddedFits(init: seq<Entry>, rest: seq<Entry>, last: Entry, counted: nat, rows: seq<Entry>)
    requires Fits(init, rest) && last.bytes <= counted
    requires forall f :: FieldTotal(rows, f) == FieldTotal(rest, f) + if FieldOf(last.kind) == f then counted else 0
    ensures Fits(init + [last], rows)
  {
    TotalsAppend(init, last);
    forall f ensures FieldTotal(init + [last], f) <= FieldTotal(rows, f) {
      assert FieldTotal(init, f) <= FieldTotal(rest, f);
    }
  }

  /** The clamps stay idle when no evicted row was recorded larger in the candidates than in the usage. */
  lemma LaterSizesKeepAccount(before: Usage, rows: seq<Entry>, entries: map<string, Entry>, removed: seq<Entry>,
                              free: nat -> int)
    requires HasRows(rows, entries) && Accounts(before, rows, []) && NoneLarger(removed, entries)
    ensures var after := UsageAlong(before, removed, free);
            Balanced(after) && before.managed - after.managed == Total(removed) <= Total(rows)
  {
    NoneLargerFits(rows, entries, removed);
    FitsAltogether(removed, rows);
    FittingKeepsAccount(before, rows, removed, free);
    AccountsAreBalanced(UsageAlong(before, removed, free), rows, removed);
  }

  /** A build counted with 0 bytes and evicted with 5 takes the 4 bytes of a depot off the account. */
  lemma LargerSizeUnbalances(free: nat -> int)
    ensures var before := Usage(4, 0, 4, 0, 0, 0, 0, 0);
            var build := Entry("b", "b", Build, 5, 0, "b", Dirty);
            var depot := Entry("d", "d", Depot, 4, 0, "d", Ready);
            && Accounts(before, [build.(bytes := 0), depot], []) && Balanced(before)
            && UsageAlong(before, [build], free).managed == 0 && !Balanced(UsageAlong(before, [build], free))
  {
    var build := Entry("b", "b", Build, 0, 0, "b", Dirty);
    var depot := Entry("d", "d", Depot, 4, 0, "d", Ready);
    TotalsAppend([], build);
    TotalsAppend([build], depot);
    assert [] + [build] == [build] && [build] + [depot] == [build, depot];
  }

  /** What surrounds one collection: policy, request, protected paths, other processes' leases. */
  datatype Setting = Setting(policy: Policy, reserve: int, protected: set<string>, busy: set<string>)

  ghost predicate SafeAfter(g: Setting, before: Usage, dirty: set<string>, removed: seq<Entry>, free: nat -> int) {
    Safe(g.policy, g.reserve, UsageAlong(before, removed, free), DirtyAlong(dirty, removed))
  }

  /** Every eviction so far happened in an unsafe state. */
  ghost predicate EvictedWhileUnsafe(g: Setting, before: Usage, dirty: set<string>, removed: seq<Entry>, free: nat -> int) {
    forall k :: 0 <= k < |removed| ==> !SafeAfter(g, before, dirty, removed[..k], free)
  }

  /** The loop has dealt with exactly the first `i` candidates. */
  ghost predicate DealtWith(g: Setting, before: Usage, dirty: set<string>, rows: seq<Entry>, i: nat, free: nat -> int, p: Progress)
    requires i <= |rows|
  {
    && p.removed == Chosen(rows[..i], g.protected, g.busy)
    && p.skipped == PassedOver(rows[..i], g.protected, g.busy)
    && p.current == UsageAlong(before, p.removed, free)
    && p.dirty == DirtyAlong(dirty, p.removed)
    && p.current.reserved == before.reserved
    && EvictedWhileUnsafe(g, before, dirty, p.removed, free)
  }

  function Dealt(g: Setting, p: Progress, e: Entry, free: nat -> int): Progress {
    if e.path in g.protected then p
    else if e.lease in g.busy then p.(skipped := p.skipped + [e])
    else Progress(AfterRemoval(p.current, e, free(|p.removed|)), p.dirty - {e.path}, p.removed + [e], p.skipped)
  }

  lemma EvictionStaysUnsafe(g: Setting, before: Usage, dirty: set<string>, removed: seq<Entry>, e: Entry, free: nat -> int)
    requires EvictedWhileUnsafe(g, before, dirty, removed, free) && !SafeAfter(g, before, dirty, removed, free)
    ensures EvictedWhileUnsafe(g, before, dirty, removed + [e], free)
  {
    forall k | 0 <= k < |removed + [e]| ensures !SafeAfter(g, before, dirty, (removed + [e])[..k], free) {
      if k < |removed| {
        assert (removed + [e])[..k] == removed[..k];
      } else {
        assert (removed + [e])[..k] == removed;
      }
    }
  }

  lemma AlongAppend(before: Usage, dirty: set<string>, removed: seq<Entry>, e: Entry, free: nat -> int)
    ensures UsageAlong(before, removed + [e], free) == AfterRemoval(UsageAlong(before, removed, free), e, free(|removed|))
    ensures DirtyAlong(dirty, removed + [e]) == DirtyAlong(dirty, removed) - {e.path}
  {
    assert (removed + [e])[..|removed|] == removed;
    assert forall x :: x in removed + [e] <==> x in removed || x == e;
  }

  lemma ListsAppend(rows: seq<Entry>, i: nat, protected: set<string>, busy: set<string>)
    requires i < |rows|
    ensures Chosen(rows[..i + 1], protected, busy)
         == Chosen(rows[..i], protected, busy) + if Evictable(rows[i], protected, busy) then [rows[i]] else []
    ensures PassedOver(rows[..i + 1], protected, busy)
         == PassedOver(rows[..i], protected, busy)
            + if rows[i].path !in protected && rows[i].lease in busy then [rows[i]] else []
  {
    assert rows[..i + 1][..i] == rows[..i];
  }

  lemma EvictOne(g: Setting, before: Usage, dirty: set<string>, rows: seq<Entry>, i: nat, free: nat -> int, p: Progress)
    requires i < |rows| && DealtWith(g, before, dirty, rows, i, free, p)
    requires !Safe(g.policy, g.reserve, p.current, p.dirty) && Evictable(rows[i], g.protected, g.busy)
    ensures DealtWith(g, before, dirty, rows, i + 1, free, Dealt(g, p, rows[i], free))
  {
    ListsAppend(rows, i, g.protected, g.busy);
    AlongAppend(before, dirty, p.removed, rows[i], free);
    EvictionStaysUnsafe(g, before, dirty, p.removed, rows[i], free);
  }

  lemma PassOne(g: Setting, before: Usage, dirty: set<string>, rows: seq<Entry>, i: nat, free: nat -> int, p: Progress)
    requires i < |rows| && DealtWith(g, before, dirty, rows, i, free, p) && !Evictable(rows[i], g.protected, g.busy)
    ensures DealtWith(g, before, dirty, rows, i + 1, free, Dealt(g, p, rows[i], free))
  {
    ListsAppend(rows, i, g.protected, g.busy);
  }

  lemma DealWithOne(g: Setting, before: Usage, dirty: set<string>, rows: seq<Entry>, i: nat, free: nat -> int, p: Progress)
    requires i < |rows| && DealtWith(g, before, dirty, rows, i, free, p)
    requires !Safe(g.policy, g.reserve, p.current, p.dirty)
    ensures DealtWith(g, before, dirty, rows, i + 1, free, Dealt(g, p, rows[i], free))
  {
    if Evictable(rows[i], g.protected, g.busy) {
      EvictOne(g, before, dirty, rows, i, free, p);
    } else {
      PassOne(g, before, dirty, rows, i, free, p);
    }
  }

  datatype Outcome =
    | Collected(before: Usage, after: Usage, removed: seq<Entry>, skipped: seq<Entry>)
    | Refused
    | Unsatisfied
    | TimedOut
    | DeletionFailed(path: string)

  function Rank(kind: Kind): int {
    match kind
    case Trash => 0
    case Temporary => 1
    case Build => 2
    case Depot => 3
    case Download => 4
    case LakeSystem => 5
  }

  function KindName(kind: Kind): string {
    match kind
    case Trash => "trash"
    case Temporary => "temporary"
    case Build => "build"
    case Depot => "depot"
    case Download => "download"
    case LakeSystem => "lake-system"
  }

  function LabelOf(e: Entry): string {
    KindName(e.kind) + ":" + e.name
  }

  /** The eviction order: kind, least recently used, label. */
  predicate EvictsNoLater(a: Entry, b: Entry) {
    || Rank(a.kind) < Rank(b.kind)
    || (Rank(a.kind) == Rank(b.kind)
        && (a.lastUsed < b.lastUsed || (a.lastUsed == b.lastUsed && AtMost(LabelOf(a), LabelOf(b)))))
  }

  function EvictionOrder(): (Entry, Entry) -> bool {
    (a, b) => EvictsNoLater(a, b)
  }

  lemma EvictionOrderIsPreorder()
    ensures TotalPreorder(EvictionOrder())
  {
    forall a, b ensures EvictsNoLater(a, b) || EvictsNoLater(b, a) {
      LessTotal(LabelOf(a), LabelOf(b));
    }
    forall a, b, c | EvictsNoLater(a, b) && EvictsNoLater(b, c) ensures EvictsNoLater(a, c) {
      if Less(LabelOf(a), LabelOf(b)) && Less(LabelOf(b), LabelOf(c)) {
        LessTransitive(LabelOf(a), LabelOf(b), LabelOf(c));
      }
    }
  }

  predicate KeyedByPath(entries: map<string, Entry>) {
    forall p | p in entries :: entries[p].path == p
  }

  /** Trash goes first, then temporary trees, builds, depots, downloads and the Lake caches. */
  ghost predicate GoesBefore(a: Kind, b: Kind) {
    match b
    case Trash => a in {Trash}
    case Temporary => a in {Trash, Temporary}
    case Build => a in {Trash, Temporary, Build}
    case Depot => a in {Trash, Temporary, Build, Depot}
    case Download => a in {Trash, Temporary, Build, Depot, Download}
    case LakeSystem => true
  }

  ghost predicate KindsAscend(rows: seq<Entry>) {
    forall i, j :: 0 <= i < j < |rows| ==> GoesBefore(rows[i].kind, rows[j].kind)
  }

  /** Within a kind, what was used longest ago goes first, then by name. */
  ghost predicate OldestFirst(rows: seq<Entry>) {
    forall i, j :: 0 <= i < j < |rows| && rows[i].kind == rows[j].kind ==>
      || rows[i].lastUsed < rows[j].lastUsed
      || (rows[i].lastUsed == rows[j].lastUsed && (rows[i].name == rows[j].name || Less(rows[i].name, rows[j].name)))
  }

  lemma {:induction false} PrefixIsIgnored(p: string, a: string, b: string)
    ensures Less(p + a, p + b) <==> Less(a, b)
  {
    if p == "" {
      assert p + a == a && p + b == b;
    } else {
      assert (p + a)[1..] == p[1..] + a && (p + b)[1..] == p[1..] + b;
      PrefixIsIgnored(p[1..], a, b);
    }
  }

  lemma OrderIsByKind(rows: seq<Entry>)
    requires SortedBy(EvictionOrder(), rows)
    ensures KindsAscend(rows) && OldestFirst(rows)
  {
    forall i, j | 0 <= i < j < |rows| ensures EvictsNoLater(rows[i], rows[j]) {
      assert EvictionOrder()(rows[i], rows[j]);
    }
    forall i, j | 0 <= i < j < |rows| && rows[i].kind == rows[j].kind && rows[i].lastUsed == rows[j].lastUsed
      ensures rows[i].name == rows[j].name || Less(rows[i].name, rows[j].name)
    {
      var prefix := KindName(rows[i].kind) + ":";
      assert LabelOf(rows[i]) == prefix + rows[i].name && LabelOf(rows[j]) == prefix + rows[j].name;
      PrefixIsIgnored(prefix, rows[i].name, rows[j].name);
      assert LabelOf(rows[i])[|prefix|..] == rows[i].name && LabelOf(rows[j])[|prefix|..] == rows[j].name;
    }
  }

  // ---- Who is evicted, who is passed over, who is spared ----

  ghost predicate Before(rows: seq<Entry>, cut: nat, e: Entry)
    requires cut <= |rows|
  {
    exists i :: 0 <= i < cut && rows[i] == e
  }

  /** Of the candidates before the cut: the free ones went, the active ones are listed, the protected ones are neither. */
  ghost predicate SortsOut(g: Setting, rows: seq<Entry>, cut: nat, p: Progress)
    requires cut <= |rows|
  {
    && (forall e :: e in p.removed <==> Before(rows, cut, e) && e.path !in g.protected && e.lease !in g.busy)
    && (forall e :: e in p.skipped <==> Before(rows, cut, e) && e.path !in g.protected && e.lease in g.busy)
  }

  /** A protected entry, and one whose lease is held, keeps its row as it is. */
  ghost predicate Spares(g: Setting, before: map<string, Entry>, after: map<string, Entry>) {
    forall p :: p in before && (p in g.protected || before[p].lease in g.busy) ==> p in after && after[p] == before[p]
  }

  lemma {:induction false} ListsSortOut(g: Setting, rows: seq<Entry>, cut: nat, e: Entry)
    requires cut <= |rows|
    ensures e in Chosen(rows[..cut], g.protected, g.busy) <==>
              Before(rows, cut, e) && e.path !in g.protected && e.lease !in g.busy
    ensures e in PassedOver(rows[..cut], g.protected, g.busy) <==>
              Before(rows, cut, e) && e.path !in g.protected && e.lease in g.busy
    decreases cut
  {
    if cut == 0 {
    } else {
      ListsSortOut(g, rows, cut - 1, e);
      ListsAppend(rows, cut - 1, g.protected, g.busy);
      assert Before(rows, cut, e) <==> Before(rows, cut - 1, e) || rows[cut - 1] == e;
    }
  }

  lemma DealingSortsOut(g: Setting, before: Usage, dirty: set<string>, rows: seq<Entry>, cut: nat, free: nat -> int, p: Progress)
    requires cut <= |rows| && DealtWith(g, before, dirty, rows, cut, free, p)
    ensures SortsOut(g, rows, cut, p)
  {
    forall e ensures e in p.removed <==> Before(rows, cut, e) && e.path !in g.protected && e.lease !in g.busy {
      ListsSortOut(g, rows, cut, e);
    }
    forall e ensures e in p.skipped <==> Before(rows, cut, e) && e.path !in g.protected && e.lease in g.busy {
      ListsSortOut(g, rows, cut, e);
    }
  }

  lemma RemovalSpares(g: Setting, rows: seq<Entry>, cut: nat, p: Progress, start: map<string, Entry>)
    requires cut <= |rows| && ListsRows(rows, start) && SortsOut(g, rows, cut, p)
    ensures Spares(g, start, start - PathsOf(p.removed))
  {
    forall e | e in p.removed ensures e.path in start && start[e.path] == e {
      assert e in rows;
    }
  }

  /** After a failure only the row whose deletion failed differs. */
  ghost predicate Aborted(before: map<string, Entry>, after: map<string, Entry>, failure: Outcome) {
    match failure
    case TimedOut => after == before
    case DeletionFailed(path) => path in before && after == before[path := before[path].(state := Deleting)]
    case _ => false
  }

  lemma FailureSpares(g: Setting, rows: seq<Entry>, cut: nat, start: map<string, Entry>, now: map<string, Entry>,
                      after: map<string, Entry>, failure: Outcome)
    requires ListsRows(rows, start) && Spares(g, start, now) && Aborted(now, after, failure)
    requires failure.DeletionFailed? ==>
      && cut < |rows| && failure.path == rows[cut].path
      && rows[cut].path !in g.protected && rows[cut].lease !in g.busy
    ensures Spares(g, start, after)
  {
    if failure.DeletionFailed? {
      assert rows[cut] in rows;
    }
  }

  /** The rows of the index, each path once. */
  ghost predicate ListsRows(rows: seq<Entry>, entries: map<string, Entry>) {
    && (forall e :: e in rows ==> e.path in entries && entries[e.path] == e)
    && (forall p :: p in entries ==> entries[p] in rows)
    && (forall i, j :: 0 <= i < j < |rows| ==> rows[i].path != rows[j].path)
  }

  /** The table read in path order. */
  function RowsByPath(entries: map<string, Entry>): (rows: seq<Entry>)
    requires KeyedByPath(entries)
    ensures ListsRows(rows, entries)
  {
    var paths := Sorted(entries.Keys);
    SortedHasNoDuplicates(paths);
    var rows := seq(|paths|, i requires 0 <= i < |paths| => entries[paths[i]]);
    RowsAreListed(entries, paths, rows);
    rows
  }

  lemma RowsAreListed(entries: map<string, Entry>, paths: seq<string>, rows: seq<Entry>)
    requires KeyedByPath(entries)
    requires (forall p :: p in paths <==> p in entries) && NoDuplicates(paths)
    requires |rows| == |paths| && forall i :: 0 <= i < |rows| ==> rows[i] == entries[paths[i]]
    ensures ListsRows(rows, entries)
  {
    forall p | p in entries ensures entries[p] in rows {
      var i :| 0 <= i < |paths| && paths[i] == p;
      assert rows[i] == entries[p];
    }
    forall i, j | 0 <= i < j < |rows| ensures rows[i].path != rows[j].path {
      assert paths[i] != paths[j];
    }
  }

  class CacheIndex {
    var entries: map<string, Entry>
    var reservations: map<string, Reservation>

    constructor ()
      ensures entries == map[] && reservations == map[]
    {
      entries, reservations := map[], map[];
    }

    ghost predicate Valid()
      reads this
    {
      KeyedByPath(entries)
    }

    method UpsertEntry(e: Entry)
      requires Valid()
      modifies this`entries
      ensures Valid() && entries == old(entries)[e.path := e]
    {
      entries := entries[e.path := e];
    }

    /** The entry may grow; its known byte count stays, and is zero if there was none. */
    method MarkDirty(path: string, name: string, kind: Kind, lease: string, now: int)
      requires Valid()
      modifies this`entries
      ensures Valid() && entries.Keys == old(entries).Keys + {path}
      ensures entries[path] == Entry(path, name, kind, if path in old(entries) then old(entries)[path].bytes else 0,
                                     now, lease, Dirty)
      ensures forall p :: p in old(entries) && p != path ==> entries[p] == old(entries)[p]
    {
      var known := if path in entries then entries[path].bytes else 0;
      entries := entries[path := Entry(path, name, kind, known, now, lease, Dirty)];
    }

    method MarkDeleting(path: string)
      requires Valid()
      modifies this`entries
      ensures Valid()
      ensures entries == if path in old(entries) then old(entries)[path := old(entries)[path].(state := Deleting)]
                         else old(entries)
    {
      if path in entries {
        entries := entries[path := entries[path].(state := Deleting)];
      }
    }

    method RemoveEntry(path: string)
      requires Valid()
      modifies this`entries
      ensures Valid() && entries == old(entries) - {path}
    {
      entries := entries - {path};
    }

    /** Eviction candidates: every row, in eviction order. */
    method Candidates() returns (rows: seq<Entry>)
      requires Valid()
      ensures ListsRows(rows, entries)
      ensures SortedBy(EvictionOrder(), rows) && KindsAscend(rows) && OldestFirst(rows)
    {
      var unsorted := RowsByPath(entries);
      EvictionOrderIsPreorder();
      rows := Sort(EvictionOrder(), unsorted);
      SameRows(unsorted, rows, entries);
      OrderIsByKind(rows);
    }

    /** One candidate in an unsafe state: leave it, note it as active, or evict it. */
    method DealWith(g: Setting, e: Entry, free: nat -> int, stuck: set<string>, p: Progress)
      returns (next: Progress, failed: bool)
      requires Valid() && e.path in entries
      modifies this`entries
      ensures Valid()
      ensures failed <==> Evictable(e, g.protected, g.busy) && e.path in stuck
      ensures failed ==> entries == old(entries)[e.path := old(entries)[e.path].(state := Deleting)]
      ensures e.path in g.protected ==> !failed && next == p && entries == old(entries)
      ensures e.path !in g.protected && e.lease in g.busy ==>
                !failed && next == p.(skipped := p.skipped + [e]) && entries == old(entries)
      ensures e.path !in g.protected && e.lease !in g.busy && e.path !in stuck ==>
                && !failed && entries == old(entries) - {e.path}
                && next.removed == p.removed + [e] && next.skipped == p.skipped && next.dirty == p.dirty - {e.path}
                && next.current.managed == (if p.current.managed > e.bytes then p.current.managed - e.bytes else 0)
                && next.current.free == free(|p.removed|) && next.current.reserved == p.current.reserved
      ensures failed <==> e.path !in g.protected && e.lease !in g.busy && e.path in stuck
      ensures !failed ==> next == Dealt(g, p, e, free)
      ensures !failed ==> entries == if Evictable(e, g.protected, g.busy) then old(entries) - {e.path} else old(entries)
    {
      next, failed := p, false;
      if e.path in g.protected {
        return;
      }
      if e.lease in g.busy {
        next := p.(skipped := p.skipped + [e]);
        return;
      }
      MarkDeleting(e.path);
      if e.path in stuck {
        failed := true;
        return;
      }
      RemoveEntry(e.path);
      assert entries == old(entries) - {e.path};
      next := Progress(AfterRemoval(p.current, e, free(|p.removed|)), p.dirty - {e.path}, p.removed + [e], p.skipped);
    }

    /** One trip through the loop body, in an unsafe state. */
    method EvictNext(g: Setting, rows: seq<Entry>, i: nat, ghost start: map<string, Entry>, ghost before: Usage,
                     ghost marked: set<string>, free: nat -> int, late: nat, stuck: set<string>, p: Progress)
      returns (next: Progress, failure: Option<Outcome>)
      requires Valid() && i < |rows| && ListsRows(rows, start)
      requires DealtWith(g, before, marked, rows, i, free, p)
      requires !Safe(g.policy, g.reserve, p.current, p.dirty)
      requires entries == start - PathsOf(p.removed)
      modifies this`entries
      ensures Valid()
      ensures failure.Some? ==>
                && next == p && Interrupts(g, rows, i, late, stuck, failure.value)
                && Aborted(old(entries), entries, failure.value)
                && (failure.value.DeletionFailed? ==> rows[i].path !in g.protected && rows[i].lease !in g.busy)
      ensures failure.None? ==>
                && DealtWith(g, before, marked, rows, i + 1, free, next)
                && entries == start - PathsOf(next.removed)
    {
      if i >= late {
        return p, Some(TimedOut);
      }
      assert rows[i].path in entries by {
        StillListed(rows, i, g, start);
      }
      DealWithOne(g, before, marked, rows, i, free, p);
      var failed;
      next, failed := DealWith(g, rows[i], free, stuck, p);
      if failed {
        return p, Some(DeletionFailed(rows[i].path));
      }
      EntriesShrink(start, p.removed, rows[i]);
      failure := None;
    }

    method EvictionLoop(g: Setting, rows: seq<Entry>, before: Usage, marked: set<string>, free: nat -> int,
                        late: nat, stuck: set<string>)
      returns (p: Progress, failure: Option<Outcome>, ghost cut: nat)
      requires Valid() && ListsRows(rows, entries)
      modifies this`entries
      ensures Valid() && cut <= |rows|
      ensures DealtWith(g, before, marked, rows, cut, free, p)
      ensures failure.Some? ==>
                Interrupts(g, rows, cut, late, stuck, failure.value) && !Safe(g.policy, g.reserve, p.current, p.dirty)
      ensures failure.None? ==>
                && (cut == |rows| || Safe(g.policy, g.reserve, p.current, p.dirty))
                && entries == old(entries) - PathsOf(p.removed)
      ensures SortsOut(g, rows, cut, p) && Spares(g, old(entries), entries)
    {
      ghost var start := entries;
      p := Progress(before, marked, [], []);
      failure := None;
      StartsDealing(g, before, marked, rows, free);
      assert entries == start - PathsOf([]);
      var i := 0;
      while i < |rows| && failure.None? && !Safe(g.policy, g.reserve, p.current, p.dirty)
        invariant i <= |rows| && Valid()
        invariant DealtWith(g, before, marked, rows, i, free, p)
        invariant failure.None? ==> entries == start - PathsOf(p.removed)
        invariant failure.Some? ==>
          Interrupts(g, rows, i, late, stuck, failure.value) && !Safe(g.policy, g.reserve, p.current, p.dirty)
        invariant Spares(g, start, entries)
        decreases failure.None?, |rows| - i
      {
        ghost var now := entries;
        p, failure := EvictNext(g, rows, i, start, before, marked, free, late, stuck, p);
        if failure.None? {
          i := i + 1;
          DealingSortsOut(g, before, marked, rows, i, free, p);
          RemovalSpares(g, rows, i, p, start);
        } else {
          FailureSpares(g, rows, i, start, now, entries, failure.value);
        }
      }
      cut := i;
      DealingSortsOut(g, before, marked, rows, cut, free, p);
    }

    /**
     The collection, from the reconciled index on.  Other processes write the index while it reads:
     `counted` is the index as the usage was read from it, `seen` as the dirty paths were, and the
     object's own entries are the ones that the candidates come from.  `freeNow` is the disk reading at the start and
     `free(k)` the one after deletion number `k`; `late` is the candidate at which the deadline has
     passed and `stuck` the paths whose deletion fails.  `plan` tells the proof what happened.
     */
    method CollectGarbage(g: Setting, strict: bool, counted: map<string, Entry>, seen: map<string, Entry>,
                          reserved: nat, freeNow: int, free: nat -> int, late: nat, stuck: set<string>)
      returns (outcome: Outcome, ghost plan: Plan)
      requires Valid() && KeyedByPath(counted)
      modifies this`entries
      ensures Valid() && Plans(plan, old(entries), counted, reserved, freeNow)
      ensures outcome.Refused? <==> strict && Hopeless(g.policy, g.reserve, plan.before)
      ensures outcome.Refused? ==> entries == old(entries)
      ensures !outcome.Refused? ==>
                DealtWith(g, plan.before, DirtyPaths(seen), plan.rows, plan.cut, free, plan.end)
      ensures outcome.TimedOut? || outcome.DeletionFailed? ==>
                && Interrupts(g, plan.rows, plan.cut, late, stuck, outcome)
                && !Safe(g.policy, g.reserve, plan.end.current, plan.end.dirty)
      ensures outcome.Unsatisfied? ==>
                strict && plan.cut == |plan.rows| && !Safe(g.policy, g.reserve, plan.end.current, plan.end.dirty)
      ensures outcome.Collected? ==>
                && IsCollection(g, plan, outcome)
                && (strict ==> Safe(g.policy, g.reserve, plan.end.current, plan.end.dirty))
      ensures outcome.Collected? && NoneLarger(plan.end.removed, counted) ==> IsBalanced(plan)
      ensures outcome.Collected? || outcome.Unsatisfied? ==> entries == old(entries) - PathsOf(plan.end.removed)
      ensures Spares(g, old(entries), entries)
      ensures !outcome.Refused? ==> SortsOut(g, plan.rows, plan.cut, plan.end)
      ensures outcome.Refused? <==> strict && BeyondHope(g, plan.before)
      ensures strict && outcome.Collected? ==> KeepsLimits(g, plan.end.current, plan.end.dirty)
      ensures outcome.Collected? && plan.cut < |plan.rows| ==> KeepsLimits(g, plan.end.current, plan.end.dirty)
      ensures outcome.Unsatisfied? || outcome.TimedOut? || outcome.DeletionFailed? ==>
                !KeepsLimits(g, plan.end.current, plan.end.dirty)
      ensures !outcome.Refused? ==>
                MarksLeft(seen, plan.end) && NothingInVain(g, plan.before, DirtyPaths(seen), plan.end.removed, free)
      ensures CountsKinds(plan.before, RowsByPath(counted))
    {
      var before := UsageOf(RowsByPath(counted), freeNow, reserved);
      var marked := DirtyPaths(seen);
      var candidates := Candidates();
      plan := Plan(candidates, before, 0, Progress(before, marked, [], []));
      if strict && Hopeless(g.policy, g.reserve, before) {
        return Refused, plan;
      }
      var p, failure, stop := EvictionLoop(g, candidates, before, marked, free, late, stuck);
      plan := plan.(cut := stop, end := p);
      UnsafeIsNotInVain(g, before, marked, p.removed, free);
      if failure.Some? {
        return failure.value, plan;
      }
      if strict && !Safe(g.policy, g.reserve, p.current, p.dirty) {
        return Unsatisfied, plan;
      }
      outcome := Collected(before, p.current, p.removed, p.skipped);
      if NoneLarger(p.removed, counted) {
        LaterSizesKeepAccount(before, RowsByPath(counted), counted, p.removed, free);
      }
    }
  }

  lemma StartsDealing(g: Setting, before: Usage, dirty: set<string>, rows: seq<Entry>, free: nat -> int)
    ensures DealtWith(g, before, dirty, rows, 0, free, Progress(before, dirty, [], []))
  {
    assert rows[..0] == [];
    assert DirtyAlong(dirty, []) == dirty;
  }

  lemma EntriesShrink(start: map<string, Entry>, removed: seq<Entry>, e: Entry)
    ensures start - PathsOf(removed + [e]) == start - PathsOf(removed) - {e.path}
  {
    PathsGrow(removed, e);
  }

  lemma PathsGrow(removed: seq<Entry>, e: Entry)
    ensures PathsOf(removed + [e]) == PathsOf(removed) + {e.path}
  {
    assert forall x :: x in removed + [e] <==> x in removed || x == e;
  }

  lemma {:induction false} ChosenComeFromRows(rows: seq<Entry>, protected: set<string>, busy: set<string>)
    ensures forall e :: e in Chosen(rows, protected, busy) ==> e in rows
  {
    if rows == [] {
    } else {
      ChosenComeFromRows(rows[..|rows| - 1], protected, busy);
    }
  }

  lemma {:induction false} ChosenAreDistinct(rows: seq<Entry>, protected: set<string>, busy: set<string>)
    requires forall i, j :: 0 <= i < j < |rows| ==> rows[i].path != rows[j].path
    ensures forall i, j :: 0 <= i < j < |Chosen(rows, protected, busy)| ==>
              Chosen(rows, protected, busy)[i].path != Chosen(rows, protected, busy)[j].path
    decreases |rows|
  {
    if rows == [] {
    } else {
      var k := |rows| - 1;
      ChosenAreDistinct(rows[..k], protected, busy);
      ChosenComeFromRows(rows[..k], protected, busy);
      forall e | e in Chosen(rows[..k], protected, busy) ensures e.path != rows[k].path {
        var i :| 0 <= i < k && rows[..k][i] == e;
        assert rows[i].path != rows[k].path;
      }
    }
  }

  /** If nobody writes the index in between, no evicted row is larger than it was counted. */
  lemma UnchangedIndexIsNoneLarger(rows: seq<Entry>, entries: map<string, Entry>, i: nat, g: Setting)
    requires ListsRows(rows, entries) && i <= |rows|
    ensures NoneLarger(Chosen(rows[..i], g.protected, g.busy), entries)
  {
    ChosenComeFromRows(rows[..i], g.protected, g.busy);
    ChosenAreDistinct(rows[..i], g.protected, g.busy);
    forall e | e in Chosen(rows[..i], g.protected, g.busy) ensures e.bytes <= CountedFor(entries, e) {
      assert e in rows;
    }
  }

  /** A candidate not dealt with yet is still in the index. */
  lemma StillListed(rows: seq<Entry>, i: nat, g: Setting, entries: map<string, Entry>)
    requires i < |rows| && ListsRows(rows, entries)
    ensures rows[i].path in entries - PathsOf(Chosen(rows[..i], g.protected, g.busy))
  {
    ChosenComeFromRows(rows[..i], g.protected, g.busy);
    forall e | e in Chosen(rows[..i], g.protected, g.busy) ensures e.path != rows[i].path {
      var j :| 0 <= j < i && rows[..i][j] == e;
      assert rows[j].path != rows[i].path;
    }
    assert rows[i] in rows;
  }

  lemma SameRows(unsorted: seq<Entry>, rows: seq<Entry>, entries: map<string, Entry>)
    requires ListsRows(unsorted, entries) && multiset(unsorted) == multiset(rows)
    ensures ListsRows(rows, entries)
  {
    forall e ensures e in rows <==> e in unsorted {
      assert e in multiset(rows) <==> e in multiset(unsorted);
    }
    DistinctCountsOnce(unsorted);
    forall i, j | 0 <= i < j < |rows| ensures rows[i].path != rows[j].path {
      assert rows[i] in rows && rows[j] in rows;
      if rows[i] == rows[j] {
        RepeatedCountsTwice(rows, i, j);
      }
    }
  }

  function DirtyPaths(entries: map<string, Entry>): set<string> {
    set q | q in entries && entries[q].state == Dirty
  }

  ghost function PathsOf(rows: seq<Entry>): set<string> {
    set e | e in rows :: e.path
  }

  /** The candidates, the account at the start, how far the loop came, and what it carried then. */
  datatype Plan = Plan(rows: seq<Entry>, before: Usage, cut: nat, end: Progress)

  ghost predicate Plans(plan: Plan, entries: map<string, Entry>, counted: map<string, Entry>, reserved: nat, freeNow: int)
    requires KeyedByPath(counted)
  {
    && ListsRows(plan.rows, entries) && SortedBy(EvictionOrder(), plan.rows)
    && plan.cut <= |plan.rows|
    && Accounts(plan.before, RowsByPath(counted), []) && Balanced(plan.before)
    && plan.before.free == freeNow && plan.before.reserved == reserved
  }

  /** The deadline passed, or the deletion of the next evictable candidate failed. */
  ghost predicate Interrupts(g: Setting, rows: seq<Entry>, cut: nat, late: nat, stuck: set<string>, failure: Outcome) {
    && cut < |rows|
    && match failure
       case TimedOut => late <= cut
       case DeletionFailed(path) =>
         cut < late && path == rows[cut].path && path in stuck && Evictable(rows[cut], g.protected, g.busy)
       case _ => false
  }

  /** A finished collection reports what the loop carried, up to the first safe state or the last candidate. */
  ghost predicate IsCollection(g: Setting, plan: Plan, outcome: Outcome) {
    && outcome == Collected(plan.before, plan.end.current, plan.end.removed, plan.end.skipped)
    && (plan.cut == |plan.rows| || Safe(g.policy, g.reserve, plan.end.current, plan.end.dirty))
  }

  /** The bytes reported free are those of the evicted rows, and the parts add up. */
  ghost predicate IsBalanced(plan: Plan) {
    && Balanced(plan.end.current)
    && plan.before.managed - plan.end.current.managed == Total(plan.end.removed)
  }
}
