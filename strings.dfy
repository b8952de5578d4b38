/**
 * Kotlin's natural order on strings (`String.compareTo`) and the `sortedBy` it induces, used to
 * order devices by name.
 */
module Strings {

  /**
   * `a.compareTo(b) < 0`: lexicographic on code units, a proper prefix coming first.
   */
  predicate Before(a: string, b: string)
    decreases |a|
  {
    if |a| == 0 then |b| > 0
    else if |b| == 0 then false
    else if a[0] != b[0] then a[0] < b[0]
    else Before(a[1..], b[1..])
  }

  /** `a.compareTo(b) <= 0`. */
  predicate NotAfter(a: string, b: string) {
    a == b || Before(a, b)
  }

  /** No string comes before itself. */
  lemma {:induction false} BeforeIrreflexive(a: string)
    ensures !Before(a, a)
  {
    if |a| > 0 {
      BeforeIrreflexive(a[1..]);
    }
  }

  /** Two different strings are ordered one way or the other, and never both. */
  lemma {:induction false} BeforeTrichotomy(a: string, b: string)
    ensures a == b <==> !Before(a, b) && !Before(b, a)
    decreases |a|
  {
    if a == b {
      BeforeIrreflexive(a);
    } else if |a| > 0 && |b| > 0 && a[0] == b[0] {
      BeforeTrichotomy(a[1..], b[1..]);
      assert a == [a[0]] + a[1..] && b == [b[0]] + b[1..];
    }
  }

  lemma {:induction false} BeforeTransitive(a: string, b: string, c: string)
    requires Before(a, b) && Before(b, c)
    ensures Before(a, c)
    decreases |a|
  {
    if |a| > 0 && a[0] == b[0] && b[0] == c[0] {
      BeforeTransitive(a[1..], b[1..], c[1..]);
    }
  }

  /** Two strings are never each before the other. */
  lemma BeforeAsymmetric(a: string, b: string)
    ensures !(Before(a, b) && Before(b, a))
  {
    if Before(a, b) && Before(b, a) {
      BeforeTransitive(a, b, a);
      BeforeIrreflexive(a);
    }
  }

  lemma NotAfterTransitive(a: string, b: string, c: string)
    requires NotAfter(a, b) && NotAfter(b, c)
    ensures NotAfter(a, c)
  {
    if a != b && b != c {
      BeforeTransitive(a, b, c);
    }
  }

  /** `NotAfter` is total: of two strings, one does not come after the other. */
  lemma NotAfterTotal(a: string, b: string)
    ensures NotAfter(a, b) || NotAfter(b, a)
  {
    BeforeTrichotomy(a, b);
  }

  /** The elements are in non-decreasing order of their keys. */
  ghost predicate SortedBy<T>(xs: seq<T>, key: T -> string) {
    forall i, j :: 0 <= i < j < |xs| ==> NotAfter(key(xs[i]), key(xs[j]))
  }

  /** Inserts `x` before the first element whose key is not before `x`'s. */
  function InsertBy<T>(x: T, xs: seq<T>, key: T -> string): seq<T> {
    if xs == [] || NotAfter(key(x), key(xs[0])) then [x] + xs
    else [xs[0]] + InsertBy(x, xs[1..], key)
  }

  /** `sortedBy(key)`, as a stable insertion sort. */
  function SortBy<T>(xs: seq<T>, key: T -> string): seq<T> {
    if xs == [] then [] else InsertBy(xs[0], SortBy(xs[1..], key), key)
  }

  lemma {:induction false} InsertBySorted<T>(x: T, xs: seq<T>, key: T -> string)
    requires SortedBy(xs, key)
    ensures SortedBy(InsertBy(x, xs, key), key)
    ensures multiset(InsertBy(x, xs, key)) == multiset(xs) + multiset{x}
  {
    var r := InsertBy(x, xs, key);
    if xs == [] {
    } else if NotAfter(key(x), key(xs[0])) {
      forall j | 1 <= j < |r|
        ensures NotAfter(key(r[0]), key(r[j]))
      {
        if j > 1 {
          NotAfterTransitive(key(x), key(xs[0]), key(xs[j - 1]));
        }
      }
    } else {
      var tail := InsertBy(x, xs[1..], key);
      InsertBySorted(x, xs[1..], key);
      NotAfterTotal(key(x), key(xs[0]));
      assert xs == [xs[0]] + xs[1..];
      forall j | 0 <= j < |tail|
        ensures NotAfter(key(xs[0]), key(tail[j]))
      {
        assert tail[j] in multiset(tail);
        if tail[j] != x {
          assert tail[j] in multiset(xs[1..]);
          var k :| 0 <= k < |xs[1..]| && xs[1..][k] == tail[j];
          assert xs[k + 1] == tail[j];
        }
      }
    }
  }

  /** `sortedBy` orders by key and keeps every element, each as often as it occurred. */
  lemma {:induction false} SortBySortedPermutation<T>(xs: seq<T>, key: T -> string)
    ensures SortedBy(SortBy(xs, key), key)
    ensures multiset(SortBy(xs, key)) == multiset(xs)
  {
    if xs != [] {
      SortBySortedPermutation(xs[1..], key);
      InsertBySorted(xs[0], SortBy(xs[1..], key), key);
      assert xs == [xs[0]] + xs[1..];
    }
  }
}
