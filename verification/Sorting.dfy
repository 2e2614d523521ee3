/**
 Python's `sorted(items, key=...)`: a stable sort by a total preorder on keys.

 Insertion gives the specification: an item goes behind everything that is not greater, so items
 with equal keys keep their order.  The laws say that sorting keeps the items with their
 multiplicities and puts them in order.
 */
module Sorting {

  ghost predicate TotalPreorder<T(!new)>(atMost: (T, T) -> bool) {
    && (forall a, b :: atMost(a, b) || atMost(b, a))
    && (forall a, b, c :: atMost(a, b) && atMost(b, c) ==> atMost(a, c))
  }

  ghost predicate SortedBy<T>(atMost: (T, T) -> bool, q: seq<T>) {
    forall i, j :: 0 <= i < j < |q| ==> atMost(q[i], q[j])
  }

  /** Insert behind everything that is not greater. */
  function Insert<T>(atMost: (T, T) -> bool, x: T, q: seq<T>): seq<T> {
    if q == [] || !atMost(q[0], x) then [x] + q else [q[0]] + Insert(atMost, x, q[1..])
  }

  lemma {:induction false} InsertKeepsItems<T>(atMost: (T, T) -> bool, x: T, q: seq<T>)
    ensures multiset(Insert(atMost, x, q)) == multiset(q) + multiset{x}
  {
    if q == [] {
    } else {
      assert q == [q[0]] + q[1..];
      if atMost(q[0], x) {
        InsertKeepsItems(atMost, x, q[1..]);
      }
    }
  }

  lemma PrependSorted<T(!new)>(atMost: (T, T) -> bool, x: T, q: seq<T>)
    requires SortedBy(atMost, q) && forall y :: y in q ==> atMost(x, y)
    ensures SortedBy(atMost, [x] + q)
  {
  }

  lemma {:induction false} InsertSorts<T(!new)>(atMost: (T, T) -> bool, x: T, q: seq<T>)
    requires TotalPreorder(atMost) && SortedBy(atMost, q)
    ensures SortedBy(atMost, Insert(atMost, x, q))
  {
    if q == [] {
    } else if !atMost(q[0], x) {
      forall y | y in q ensures atMost(x, y) {
        assert atMost(x, q[0]);
        var k :| 0 <= k < |q| && q[k] == y;
        if k > 0 {
          assert atMost(q[0], q[k]);
        }
      }
      PrependSorted(atMost, x, q);
    } else {
      var rest := Insert(atMost, x, q[1..]);
      InsertSorts(atMost, x, q[1..]);
      InsertKeepsItems(atMost, x, q[1..]);
      forall y | y in rest ensures atMost(q[0], y) {
        assert y in multiset(rest);
      }
      PrependSorted(atMost, q[0], rest);
    }
  }

  method Sort<T(!new)>(atMost: (T, T) -> bool, items: seq<T>) returns (r: seq<T>)
    requires TotalPreorder(atMost)
    ensures multiset(r) == multiset(items) && SortedBy(atMost, r)
  {
    r := [];
    for i := 0 to |items|
      invariant multiset(r) == multiset(items[..i]) && SortedBy(atMost, r)
    {
      assert items[..i + 1] == items[..i] + [items[i]];
      InsertKeepsItems(atMost, items[i], r);
      InsertSorts(atMost, items[i], r);
      r := Insert(atMost, items[i], r);
    }
    assert items[..|items|] == items;
  }

  /** Without repetition, each item is counted once. */
  lemma {:induction false} DistinctCountsOnce<T>(q: seq<T>)
    requires forall i, j :: 0 <= i < j < |q| ==> q[i] != q[j]
    ensures forall x :: multiset(q)[x] <= 1
  {
    if q == [] {
    } else {
      DistinctCountsOnce(q[1..]);
      assert q == [q[0]] + q[1..];
      assert q[0] !in q[1..];
    }
  }

  lemma RepeatedCountsTwice<T>(q: seq<T>, i: nat, j: nat)
    requires i < j < |q| && q[i] == q[j]
    ensures multiset(q)[q[i]] >= 2
  {
    assert q == q[..j] + [q[j]] + q[j + 1..];
    assert q[i] in q[..j];
  }
}
