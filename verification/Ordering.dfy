/**
 Python's order on strings and on tuples of strings.

 Python compares strings by code point and tuples of strings element by element, and the
 repository leans on both: every `sorted(...)` over claim ids is such an order.  This module
 fixes the two orders and the sorted enumeration of a finite set.
 */
module Ordering {

  /** `a < b` for Python strings. */
  predicate Less(a: string, b: string)
  {
    if b == "" then false
    else if a == "" then true
    else if a[0] != b[0] then a[0] < b[0]
    else Less(a[1..], b[1..])
  }

  /** At `k` the strings part: the one ends there, or has the smaller character. */
  ghost predicate PartsAt(a: string, b: string, k: nat) {
    k <= |a| && k < |b| && a[..k] == b[..k] && (k == |a| || a[k] < b[k])
  }

  /** The order of code points, a proper prefix first. */
  lemma {:induction false} LessMeans(a: string, b: string)
    ensures Less(a, b) <==> exists k: nat :: PartsAt(a, b, k)
  {
    if b == "" {
    } else if a == "" {
      assert PartsAt(a, b, 0);
    } else if a[0] != b[0] {
      assert a[0] < b[0] ==> PartsAt(a, b, 0);
      assert forall k: nat :: PartsAt(a, b, k) && k > 0 ==> a[..k][0] == b[..k][0];
    } else {
      LessMeans(a[1..], b[1..]);
      if k: nat :| PartsAt(a[1..], b[1..], k) {
        assert a[..k + 1] == [a[0]] + a[1..][..k] && b[..k + 1] == [b[0]] + b[1..][..k];
        assert PartsAt(a, b, k + 1);
      }
      if k: nat :| PartsAt(a, b, k) {
        assert k > 0 && a[1..][..k - 1] == a[..k][1..] && b[1..][..k - 1] == b[..k][1..];
        assert PartsAt(a[1..], b[1..], k - 1);
      }
    }
  }

  predicate AtMost(a: string, b: string) {
    a == b || Less(a, b)
  }

  lemma {:induction false} LessTotal(a: string, b: string)
    ensures a == b || Less(a, b) || Less(b, a)
  {
    if a != "" && b != "" && a[0] == b[0] {
      LessTotal(a[1..], b[1..]);
      assert a == [a[0]] + a[1..] && b == [b[0]] + b[1..];
    }
  }

  lemma {:induction false} LessTransitive(a: string, b: string, c: string)
    requires Less(a, b) && Less(b, c)
    ensures Less(a, c)
  {
    if a != "" && a[0] == b[0] && b[0] == c[0] {
      LessTransitive(a[1..], b[1..], c[1..]);
    }
  }

  lemma {:induction false} LessIrreflexive(a: string)
    ensures !Less(a, a)
  {
    if a == "" {
    } else {
      LessIrreflexive(a[1..]);
    }
  }

  lemma LessAsymmetric(a: string, b: string)
    requires Less(a, b)
    ensures !Less(b, a) && a != b
  {
    LessIrreflexive(a);
    if Less(b, a) {
      LessTransitive(a, b, a);
    }
  }

  predicate IsLeast(m: string, s: set<string>) {
    m in s && forall x :: x in s ==> AtMost(m, x)
  }

  lemma {:induction false} LeastExists(s: set<string>)
    requires s != {}
    ensures exists m :: IsLeast(m, s)
    decreases |s|
  {
    var x :| x in s;
    var rest := s - {x};
    assert forall y :: y in s <==> y == x || y in rest;
    if rest == {} {
      assert IsLeast(x, s);
    } else {
      LeastExists(rest);
      var m :| IsLeast(m, rest);
      LessTotal(x, m);
      if Less(x, m) {
        forall y | y in s ensures AtMost(x, y) {
          if y in rest && y != m {
            LessTransitive(x, m, y);
          }
        }
        assert IsLeast(x, s);
      } else {
        assert IsLeast(m, s);
      }
    }
  }

  lemma LeastUnique(m: string, n: string, s: set<string>)
    requires IsLeast(m, s) && IsLeast(n, s)
    ensures m == n
  {
    if m != n {
      LessAsymmetric(m, n);
    }
  }

  function Least(s: set<string>): (m: string)
    requires s != {}
    ensures IsLeast(m, s)
  {
    LeastExists(s);
    assert forall m, n :: IsLeast(m, s) && IsLeast(n, s) ==> m == n by {
      forall m, n | IsLeast(m, s) && IsLeast(n, s) ensures m == n {
        LeastUnique(m, n, s);
      }
    }
    var m :| m in s && IsLeast(m, s);
    m
  }

  /** Strictly increasing, hence free of duplicates. */
  ghost predicate StrictlySorted(q: seq<string>) {
    forall i, j :: 0 <= i < j < |q| ==> Less(q[i], q[j])
  }

  ghost predicate NoDuplicates<T>(q: seq<T>) {
    forall i, j :: 0 <= i < j < |q| ==> q[i] != q[j]
  }

  lemma LeastFirst(s: set<string>, m: string, rest: seq<string>)
    requires IsLeast(m, s) && StrictlySorted(rest) && forall x :: x in rest <==> x in s - {m}
    ensures StrictlySorted([m] + rest) && forall x :: x in [m] + rest <==> x in s
  {
    forall j | 0 <= j < |rest| ensures Less(m, rest[j]) {
      assert rest[j] in s - {m};
    }
  }

  /** Python's `sorted(s)` for a set of strings. */
  function Sorted(s: set<string>): (q: seq<string>)
    ensures StrictlySorted(q)
    ensures forall x :: x in q <==> x in s
    ensures |q| == |s|
    decreases |s|
  {
    if s == {} then []
    else
      var m := Least(s);
      var rest := Sorted(s - {m});
      LeastFirst(s, m, rest);
      [m] + rest
  }

  lemma SortedHasNoDuplicates(q: seq<string>)
    requires StrictlySorted(q)
    ensures NoDuplicates(q)
  {
    forall i, j | 0 <= i < j < |q| ensures q[i] != q[j] {
      LessIrreflexive(q[i]);
    }
  }

  /** Python's `<` on tuples of strings. */
  predicate LexLess(a: seq<string>, b: seq<string>)
  {
    if b == [] then false
    else if a == [] then true
    else if a[0] != b[0] then Less(a[0], b[0])
    else LexLess(a[1..], b[1..])
  }

  ghost predicate TuplesPartAt(a: seq<string>, b: seq<string>, k: nat) {
    k <= |a| && k < |b| && a[..k] == b[..k] && (k == |a| || Less(a[k], b[k]))
  }

  /** Element by element, a proper prefix first. */
  lemma {:induction false} LexMeans(a: seq<string>, b: seq<string>)
    ensures LexLess(a, b) <==> exists k: nat :: TuplesPartAt(a, b, k)
  {
    if b == [] {
    } else if a == [] {
      assert TuplesPartAt(a, b, 0);
    } else if a[0] != b[0] {
      assert Less(a[0], b[0]) ==> TuplesPartAt(a, b, 0);
      assert forall k: nat :: TuplesPartAt(a, b, k) && k > 0 ==> a[..k][0] == b[..k][0];
    } else {
      LexMeans(a[1..], b[1..]);
      LessIrreflexive(a[0]);
      if k: nat :| TuplesPartAt(a[1..], b[1..], k) {
        assert a[..k + 1] == [a[0]] + a[1..][..k] && b[..k + 1] == [b[0]] + b[1..][..k];
        assert TuplesPartAt(a, b, k + 1);
      }
      if k: nat :| TuplesPartAt(a, b, k) {
        assert k > 0 && a[1..][..k - 1] == a[..k][1..] && b[1..][..k - 1] == b[..k][1..];
        assert TuplesPartAt(a[1..], b[1..], k - 1);
      }
    }
  }

  lemma {:induction false} LexTotal(a: seq<string>, b: seq<string>)
    ensures a == b || LexLess(a, b) || LexLess(b, a)
  {
    if a != [] && b != [] {
      if a[0] == b[0] {
        LexTotal(a[1..], b[1..]);
        assert a == [a[0]] + a[1..] && b == [b[0]] + b[1..];
      } else {
        LessTotal(a[0], b[0]);
      }
    }
  }

  lemma {:induction false} LexTransitive(a: seq<string>, b: seq<string>, c: seq<string>)
    requires LexLess(a, b) && LexLess(b, c)
    ensures LexLess(a, c)
  {
    if a == [] {
    } else {
      if a[0] == b[0] && b[0] == c[0] {
        LexTransitive(a[1..], b[1..], c[1..]);
      } else if a[0] != b[0] && b[0] != c[0] {
        LessTransitive(a[0], b[0], c[0]);
        LessAsymmetric(a[0], c[0]);
      }
    }
  }

  lemma {:induction false} LexIrreflexive(a: seq<string>)
    ensures !LexLess(a, a)
  {
    if a == [] {
    } else {
      LexIrreflexive(a[1..]);
    }
  }

  /** Shorter first, then lexicographic: the order in which `_paths` ranks paths. */
  predicate ShortLess(a: seq<string>, b: seq<string>) {
    |a| < |b| || (|a| == |b| && LexLess(a, b))
  }

  predicate ShortAtMost(a: seq<string>, b: seq<string>) {
    a == b || ShortLess(a, b)
  }

  lemma ShortTransitive(a: seq<string>, b: seq<string>, c: seq<string>)
    requires ShortAtMost(a, b) && ShortAtMost(b, c)
    ensures ShortAtMost(a, c)
    ensures ShortLess(a, b) || ShortLess(b, c) ==> ShortLess(a, c)
  {
    if a != b && b != c && |a| == |c| {
      LexTransitive(a, b, c);
    }
  }

  lemma ShortIrreflexive(a: seq<string>, b: seq<string>)
    requires ShortLess(a, b)
    ensures a != b && !ShortLess(b, a)
  {
    LexIrreflexive(a);
    if |a| == |b| && LexLess(b, a) {
      LexTransitive(a, b, a);
    }
  }

  /** Extending both of two differently ranked paths by one claim keeps their rank. */
  lemma {:induction false} LexExtend(a: seq<string>, b: seq<string>, x: string, y: string)
    requires |a| == |b|
    ensures LexLess(a, b) ==> LexLess(a + [x], b + [y])
    ensures a == b && Less(x, y) ==> LexLess(a + [x], b + [y])
  {
    LessIrreflexive(x);
    if a == [] {
    } else {
      assert (a + [x])[1..] == a[1..] + [x];
      assert (b + [y])[1..] == b[1..] + [y];
      LexExtend(a[1..], b[1..], x, y);
    }
  }

  lemma ShortExtend(a: seq<string>, b: seq<string>, x: string, y: string)
    ensures ShortLess(a, b) ==> ShortLess(a + [x], b + [y])
    ensures a == b && Less(x, y) ==> ShortLess(a + [x], b + [y])
  {
    if |a| == |b| {
      LexExtend(a, b, x, y);
    }
  }
}
