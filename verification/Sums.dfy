/**
 Sums of the values of a finite map.

 The cache keeps one byte total for each kind of entry and one reservation for each session.
 Its laws are about such sums when a map gains, changes or loses an entry, is split in two, or
 is broken up by a classification of its keys into one part for each kind.
 */
module Sums {

  function Get<K>(m: map<K, nat>, k: K): nat {
    if k in m then m[k] else 0
  }

  ghost function Sum<K>(m: map<K, nat>): nat {
    if m.Keys == {} then 0
    else
      var k :| k in m.Keys;
      m[k] + Sum(m - {k})
  }

  /** The order of summation does not matter. */
  lemma {:induction false} SumPicks<K>(m: map<K, nat>, k: K)
    requires k in m
    ensures Sum(m) == m[k] + Sum(m - {k})
    decreases |m|
  {
    var first :| first in m.Keys && Sum(m) == m[first] + Sum(m - {first});
    if first != k {
      SumPicks(m - {first}, k);
      SumPicks(m - {k}, first);
      assert m - {first} - {k} == m - {k} - {first};
    }
  }

  lemma SumDrop<K>(m: map<K, nat>, k: K)
    ensures Sum(m) == Get(m, k) + Sum(m - {k})
  {
    if k in m {
      SumPicks(m, k);
    } else {
      assert m - {k} == m;
    }
  }

  lemma SumUpdate<K>(m: map<K, nat>, k: K, v: nat)
    ensures Sum(m[k := v]) == Sum(m) - Get(m, k) + v
  {
    SumDrop(m, k);
    SumDrop(m[k := v], k);
    assert m[k := v] - {k} == m - {k};
  }

  /** The part of `m` whose keys map to `x`. */
  ghost function Fibre<K, X>(m: map<K, nat>, f: K -> X, x: X): map<K, nat> {
    map k | k in m && f(k) == x :: m[k]
  }

  ghost function Outside<K, X>(m: map<K, nat>, f: K -> X, x: X): map<K, nat> {
    map k | k in m && f(k) != x :: m[k]
  }

  lemma JoinLess<K>(a: map<K, nat>, b: map<K, nat>, k: K)
    requires k in a && k !in b
    ensures k in a + b && (a + b)[k] == a[k]
    ensures (a + b) - {k} == (a - {k}) + b
  {
  }

  lemma {:induction false} SumDisjoint<K>(a: map<K, nat>, b: map<K, nat>)
    requires a.Keys !! b.Keys
    ensures Sum(a + b) == Sum(a) + Sum(b)
    decreases |a|
  {
    if a.Keys == {} {
      assert a + b == b;
    } else {
      var k :| k in a.Keys;
      var rest := a - {k};
      SumPicks(a, k);
      SumDisjoint(rest, b);
      JoinLess(a, b, k);
      SumPicks(a + b, k);
    }
  }

  lemma SumSplits<K, X>(m: map<K, nat>, f: K -> X, x: X)
    ensures Sum(m) == Sum(Fibre(m, f, x)) + Sum(Outside(m, f, x))
  {
    assert m == Fibre(m, f, x) + Outside(m, f, x);
    SumDisjoint(Fibre(m, f, x), Outside(m, f, x));
  }

  lemma FibreOutside<K, X>(m: map<K, nat>, f: K -> X, x: X, y: X)
    ensures Fibre(Outside(m, f, x), f, y) == if x == y then map[] else Fibre(m, f, y)
  {
  }

  /** Fibrewise bounds add up: `a` is covered key by key by `b` and the fibres of `m`. */
  lemma {:induction false} FibresCover<K, X>(a: map<X, nat>, b: map<X, nat>, m: map<K, nat>, f: K -> X)
    requires forall x :: x in a ==> a[x] <= Get(b, x) + Sum(Fibre(m, f, x))
    ensures Sum(a) <= Sum(b) + Sum(m)
    decreases |a|
  {
    if a.Keys == {} {
    } else {
      var x :| x in a.Keys;
      SumPicks(a, x);
      SumDrop(b, x);
      SumSplits(m, f, x);
      forall y | y in a - {x} ensures (a - {x})[y] <= Get(b - {x}, y) + Sum(Fibre(Outside(m, f, x), f, y)) {
        FibreOutside(m, f, x, y);
      }
      FibresCover(a - {x}, b - {x}, Outside(m, f, x), f);
    }
  }

  /** Fibres bounded by `b` add up to at most `b`, when every key lands in `b`. */
  lemma {:induction false} FibresFit<K, X>(m: map<K, nat>, f: K -> X, b: map<X, nat>)
    requires forall k :: k in m ==> f(k) in b
    requires forall x :: x in b ==> Sum(Fibre(m, f, x)) <= b[x]
    ensures Sum(m) <= Sum(b)
    decreases |b|
  {
    if b.Keys == {} {
      assert m.Keys == {};
    } else {
      var x :| x in b.Keys;
      SumPicks(b, x);
      SumSplits(m, f, x);
      forall y | y in b - {x} ensures Sum(Fibre(Outside(m, f, x), f, y)) <= (b - {x})[y] {
        FibreOutside(m, f, x, y);
      }
      FibresFit(Outside(m, f, x), f, b - {x});
    }
  }

  lemma {:induction false} SumMonotone<K>(a: map<K, nat>, b: map<K, nat>)
    requires forall k :: k in a ==> k in b && a[k] <= b[k]
    ensures Sum(a) <= Sum(b)
    decreases |a|
  {
    if a.Keys == {} {
    } else {
      var k :| k in a.Keys;
      SumPicks(a, k);
      SumPicks(b, k);
      SumMonotone(a - {k}, b - {k});
    }
  }

  ghost predicate Added<K>(a: map<K, nat>, b: map<K, nat>, c: map<K, nat>) {
    c.Keys == a.Keys + b.Keys && forall k <- c :: c[k] == Get(a, k) + Get(b, k)
  }

  lemma AddedRest<K>(a: map<K, nat>, b: map<K, nat>, c: map<K, nat>, k: K)
    requires Added(a, b, c)
    ensures Added(a - {k}, b - {k}, c - {k})
  {
  }

  /** Adding two maps key by key adds their sums. */
  lemma {:induction false} SumAdds<K>(a: map<K, nat>, b: map<K, nat>, c: map<K, nat>)
    requires Added(a, b, c)
    ensures Sum(c) == Sum(a) + Sum(b)
    decreases |c|
  {
    if c.Keys == {} {
      assert a.Keys == {} && b.Keys == {};
    } else {
      var k :| k in c.Keys;
      AddedRest(a, b, c, k);
      SumAdds(a - {k}, b - {k}, c - {k});
      assert c[k] == Get(a, k) + Get(b, k);
      SumDrop(a, k);
      SumDrop(b, k);
      SumPicks(c, k);
    }
  }
}
