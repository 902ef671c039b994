/**
 * Column statistics over table rows, as pandas computes them per group:
 * selecting the rows of one group, projecting a numeric column, and taking
 * its count, sum, mean, minimum and maximum. Every definition peels the LAST
 * row, so that a fold over the rows from left to right extends them directly.
 */
module Stats {

  /** The rows whose `key` is `k`, in table order (a group of a `groupby`). */
  function Select<T(!new), K(==)>(s: seq<T>, key: T -> K, k: K): (r: seq<T>)
    ensures |r| <= |s|
    ensures forall x :: x in r <==> x in s && key(x) == k
  {
    if s == [] then []
    else
      var last := s[|s| - 1];
      Select(s[..|s| - 1], key, k) + (if key(last) == k then [last] else [])
  }

  /** A column of the rows `s`: the value `f` reads from each row, in table order. */
  function Project<T, U>(s: seq<T>, f: T -> U): (r: seq<U>)
    ensures |r| == |s|
    ensures forall i :: 0 <= i < |s| ==> r[i] == f(s[i])
  {
    seq(|s|, i requires 0 <= i < |s| => f(s[i]))
  }

  function Sum(xs: seq<real>): real {
    if xs == [] then 0.0 else Sum(xs[..|xs| - 1]) + xs[|xs| - 1]
  }

  lemma SumSingleton(v: real)
    ensures Sum([v]) == v
  {
    assert [v][..0] == [];
  }

  /** The arithmetic mean, as pandas' `mean` of a non-empty group. */
  function Mean(xs: seq<real>): real
    requires |xs| > 0
  {
    Sum(xs) / |xs| as real
  }

  function MinOf(xs: seq<real>): (m: real)
    requires |xs| > 0
    ensures m in xs && forall x :: x in xs ==> m <= x
  {
    if |xs| == 1 then xs[0]
    else
      var m := MinOf(xs[1..]);
      assert xs == [xs[0]] + xs[1..];
      if xs[0] < m then xs[0] else m
  }

  function MaxOf(xs: seq<real>): (m: real)
    requires |xs| > 0
    ensures m in xs && forall x :: x in xs ==> x <= m
  {
    if |xs| == 1 then xs[0]
    else
      var m := MaxOf(xs[1..]);
      assert xs == [xs[0]] + xs[1..];
      if m < xs[0] then xs[0] else m
  }

  /** The largest entry of an integer column (pandas' `max`). */
  function MaxInt(xs: seq<int>): (m: int)
    requires |xs| > 0
    ensures m in xs && forall x :: x in xs ==> x <= m
  {
    if |xs| == 1 then xs[0]
    else
      var m := MaxInt(xs[1..]);
      assert xs == [xs[0]] + xs[1..];
      if m < xs[0] then xs[0] else m
  }

  /** A sum of values that all lie in [lo, hi] lies between n*lo and n*hi. */
  lemma {:induction false} SumBounds(xs: seq<real>, lo: real, hi: real)
    requires forall x :: x in xs ==> lo <= x <= hi
    ensures |xs| as real * lo <= Sum(xs) <= |xs| as real * hi
  {
    if xs != [] {
      var init := xs[..|xs| - 1];
      assert forall x :: x in init ==> x in xs;
      SumBounds(init, lo, hi);
      assert xs[|xs| - 1] in xs;
    }
  }

  /** A mean of values that all lie in [lo, hi] lies in [lo, hi]. */
  lemma MeanBetween(xs: seq<real>, lo: real, hi: real)
    requires |xs| > 0
    requires forall x :: x in xs ==> lo <= x <= hi
    ensures lo <= Mean(xs) <= hi
  {
    SumBounds(xs, lo, hi);
    QuotientBounds(Sum(xs), |xs| as real, lo, hi);
  }

  /** A mean lies between the smallest and the largest value averaged. */
  lemma MeanWithinRange(xs: seq<real>)
    requires |xs| > 0
    ensures MinOf(xs) <= Mean(xs) <= MaxOf(xs)
  {
    var lo, hi := MinOf(xs), MaxOf(xs);
    MeanBetween(xs, lo, hi);
  }

  lemma QuotientBounds(s: real, n: real, lo: real, hi: real)
    requires n > 0.0 && n * lo <= s <= n * hi
    ensures lo <= s / n <= hi
  {
    assert s / n * n == s;
  }

  /** Appending a row adds its value to the column sum. */
  lemma SumProjectExtend<T>(s: seq<T>, x: T, f: T -> real)
    ensures Sum(Project(s + [x], f)) == Sum(Project(s, f)) + f(x)
  {
    var p := Project(s + [x], f);
    assert p[..|s|] == Project(s, f);
  }

  /** The column sum of non-empty rows is that of all but the last row, plus the last row's value. */
  lemma SumProjectLast<T>(s: seq<T>, f: T -> real)
    requires |s| > 0
    ensures Sum(Project(s, f)) == Sum(Project(s[..|s| - 1], f)) + f(s[|s| - 1])
  {
    var p := Project(s, f);
    assert p[..|s| - 1] == Project(s[..|s| - 1], f);
  }

  /** The column maximum of two or more rows is the larger of the last value and the maximum before it. */
  lemma MaxProjectLast<T>(s: seq<T>, f: T -> int)
    requires |s| > 1
    ensures var m := MaxInt(Project(s[..|s| - 1], f));
      MaxInt(Project(s, f)) == if m < f(s[|s| - 1]) then f(s[|s| - 1]) else m
  {
    var p, q := Project(s, f), Project(s[..|s| - 1], f);
    assert p == q + [f(s[|s| - 1])];
    var m := if MaxInt(q) < f(s[|s| - 1]) then f(s[|s| - 1]) else MaxInt(q);
    assert m in p;
    assert MaxInt(p) <= m;
  }

  /** The sum of a column does not depend on the order of the rows. */
  lemma {:induction false} SumProjectPermutation<T>(a: seq<T>, b: seq<T>, f: T -> real)
    requires multiset(a) == multiset(b)
    ensures Sum(Project(a, f)) == Sum(Project(b, f))
  {
    if a != [] {
      var x := a[|a| - 1];
      var init := a[..|a| - 1];
      assert a == init + [x];
      assert x in multiset(b);
      var j :| 0 <= j < |b| && b[j] == x;
      var rest := b[..j] + b[j + 1..];
      assert multiset(init) == multiset(a) - multiset{x};
      MultisetRemove(b, j);
      SumProjectPermutation(init, rest, f);
      SumProjectExtend(init, x, f);
      SumRemove(Project(b, f), j);
      ProjectRemove(b, j, f);
    } else {
      assert b == [];
    }
  }

  /** Taking out the row at `j` takes one copy of it out of the multiset. */
  lemma MultisetRemove<T>(b: seq<T>, j: int)
    requires 0 <= j < |b|
    ensures multiset(b[..j] + b[j + 1..]) == multiset(b) - multiset{b[j]}
  {
    assert b == b[..j] + [b[j]] + b[j + 1..];
    assert multiset(b) == multiset(b[..j]) + multiset([b[j]]) + multiset(b[j + 1..]);
  }

  /** Taking out the value at `j` takes it off the sum. */
  lemma {:induction false} SumRemove(xs: seq<real>, j: int)
    requires 0 <= j < |xs|
    ensures Sum(xs) == Sum(xs[..j] + xs[j + 1..]) + xs[j]
  {
    var n := |xs|;
    var r := xs[..j] + xs[j + 1..];
    if j == n - 1 {
      assert r == xs[..n - 1];
    } else {
      var init := xs[..n - 1];
      SumRemove(init, j);
      assert r[..|r| - 1] == init[..j] + init[j + 1..] by {
        assert init[..j] == xs[..j];
        assert init[j + 1..] == xs[j + 1..n - 1];
      }
      assert r[|r| - 1] == xs[n - 1];
    }
  }

  /** Taking out the row at `j` takes its value off the column. */
  lemma ProjectRemove<T>(b: seq<T>, j: int, f: T -> real)
    requires 0 <= j < |b|
    ensures Project(b[..j] + b[j + 1..], f) == Project(b, f)[..j] + Project(b, f)[j + 1..]
  {
    var p, r := Project(b, f), b[..j] + b[j + 1..];
    var q := p[..j] + p[j + 1..];
    forall i | 0 <= i < |r| ensures Project(r, f)[i] == q[i] {
      if i < j {
        assert r[i] == b[i] && q[i] == p[i];
      } else {
        assert r[i] == b[i + 1] && q[i] == p[i + 1];
      }
    }
  }

  /** Selecting a group keeps exactly the matching copies of each row. */
  lemma {:induction false} SelectMultiset<T(!new), K>(s: seq<T>, key: T -> K, k: K, x: T)
    ensures multiset(Select(s, key, k))[x] == if key(x) == k then multiset(s)[x] else 0
  {
    if s != [] {
      var init := s[..|s| - 1];
      SelectMultiset(init, key, k, x);
      assert s == init + [s[|s| - 1]];
    }
  }

  /** Rows that are a permutation of each other have groups that are permutations of each other. */
  lemma SelectPermutation<T(!new), K>(a: seq<T>, b: seq<T>, key: T -> K, k: K)
    requires multiset(a) == multiset(b)
    ensures multiset(Select(a, key, k)) == multiset(Select(b, key, k))
  {
    forall x ensures multiset(Select(a, key, k))[x] == multiset(Select(b, key, k))[x] {
      SelectMultiset(a, key, k, x);
      SelectMultiset(b, key, k, x);
    }
  }
}
