/**
 * `split_train_test`: a time-based split of a table into the rows before a
 * cutoff date (training) and the rows from it on (test). The rows are
 * generic; `date` reads a row's day number.
 */
module Partition {
  import opened Ordering
  import opened Stats

  /** The (train, test) pair of tables. */
  datatype Split<T> = Split(train: seq<T>, test: seq<T>)

  /** `sorted(df["date"].unique())`: every date of the table once, ascending. */
  function AllDates<T(!new)>(rows: seq<T>, date: T -> int): (all: seq<int>)
    ensures StrictlySorted(all, IntLess)
    ensures forall d :: d in all <==> exists i :: 0 <= i < |rows| && date(rows[i]) == d
  {
    IntLessIsStrictTotalOrder();
    var ds := Project(rows, date);
    assert forall d :: d in ds <==> exists i :: 0 <= i < |rows| && date(rows[i]) == d by {
      forall d | d in ds ensures exists i :: 0 <= i < |rows| && date(rows[i]) == d {
        var i :| 0 <= i < |ds| && ds[i] == d;
      }
    }
    SortedDistinct(ds, IntLess)
  }

  /** `df[df["date"] < cut]`: the rows dated before `cut`, in table order. */
  function Before<T(!new)>(rows: seq<T>, date: T -> int, cut: int): (r: seq<T>)
    ensures |r| <= |rows|
    ensures forall i :: 0 <= i < |r| ==> date(r[i]) < cut
  {
    if rows == [] then []
    else
      var init, last := rows[..|rows| - 1], rows[|rows| - 1];
      Before(init, date, cut) + (if date(last) < cut then [last] else [])
  }

  /** `df[df["date"] >= cut]`: the rows dated `cut` or later, in table order. */
  function From<T(!new)>(rows: seq<T>, date: T -> int, cut: int): (r: seq<T>)
    ensures |r| + |Before(rows, date, cut)| == |rows|
    ensures forall i :: 0 <= i < |r| ==> date(r[i]) >= cut
  {
    if rows == [] then []
    else
      var init, last := rows[..|rows| - 1], rows[|rows| - 1];
      From(init, date, cut) + (if date(last) >= cut then [last] else [])
  }

  /** Each filter keeps exactly the rows on its side of the cutoff. */
  lemma {:induction false} FilterMembers<T(!new)>(rows: seq<T>, date: T -> int, cut: int)
    ensures forall x :: x in Before(rows, date, cut) <==> x in rows && date(x) < cut
    ensures forall x :: x in From(rows, date, cut) <==> x in rows && date(x) >= cut
  {
    if rows != [] {
      var init, last := rows[..|rows| - 1], rows[|rows| - 1];
      FilterMembers(init, date, cut);
      assert rows == init + [last];
    }
  }

  /**
   * The position of the cutoff in the sorted dates: `all_dates[-test_days]`,
   * where Python reads index -0 as index 0.
   */
  function CutIndex(n: nat, testDays: nat): (m: nat)
    requires testDays < n
    ensures m < n
    ensures testDays >= 1 ==> n - m == testDays
    ensures testDays == 0 ==> m == 0
  {
    if testDays == 0 then 0 else n - testDays
  }

  /** A cutoff taken from the table's own dates leaves at least the rows of that date in test. */
  lemma FromCutNonEmpty<T(!new)>(rows: seq<T>, date: T -> int, m: nat)
    requires m < |AllDates(rows, date)|
    ensures From(rows, date, AllDates(rows, date)[m]) != []
  {
    var cut := AllDates(rows, date)[m];
    assert cut in AllDates(rows, date);
    var i :| 0 <= i < |rows| && date(rows[i]) == cut;
    FilterMembers(rows, date, cut);
    assert rows[i] in From(rows, date, cut);
  }

  /**
   * `split_train_test(df, test_days)`. With no more distinct dates than
   * `testDays`, only the last row is split off; otherwise the cutoff is the
   * `testDays`-th date from the end.
   */
  function SplitTrainTest<T(!new)>(rows: seq<T>, date: T -> int, testDays: nat): (s: Split<T>)
    ensures |s.train| + |s.test| == |rows|
    ensures rows != [] ==> s.test != []
  {
    var all := AllDates(rows, date);
    if |all| <= testDays then
      if rows == [] then Split([], []) else Split(rows[..|rows| - 1], rows[|rows| - 1..])
    else
      var cut := all[CutIndex(|all|, testDays)];
      FromCutNonEmpty(rows, date, CutIndex(|all|, testDays));
      Split(Before(rows, date, cut), From(rows, date, cut))
  }

  /**
   * `s` is `a` and `b` merged without reordering either: every row of `s`
   * lands on exactly one side and each side keeps the order of `s`.
   */
  ghost predicate Interleaves<T>(a: seq<T>, b: seq<T>, s: seq<T>)
    decreases |s|
  {
    if s == [] then a == [] && b == []
    else
      var x := s[|s| - 1];
      || (a != [] && a[|a| - 1] == x && Interleaves(a[..|a| - 1], b, s[..|s| - 1]))
      || (b != [] && b[|b| - 1] == x && Interleaves(a, b[..|b| - 1], s[..|s| - 1]))
  }

  /** An interleaving splits the rows: as multisets the two sides add up to `s`. */
  lemma {:induction false} InterleavesIsPartition<T(!new)>(a: seq<T>, b: seq<T>, s: seq<T>)
    requires Interleaves(a, b, s)
    ensures multiset(a) + multiset(b) == multiset(s)
    ensures |a| + |b| == |s|
    decreases |s|
  {
    if s != [] {
      var x := s[|s| - 1];
      assert s == s[..|s| - 1] + [x];
      if a != [] && a[|a| - 1] == x && Interleaves(a[..|a| - 1], b, s[..|s| - 1]) {
        InterleavesIsPartition(a[..|a| - 1], b, s[..|s| - 1]);
        assert a == a[..|a| - 1] + [x];
      } else {
        InterleavesIsPartition(a, b[..|b| - 1], s[..|s| - 1]);
        assert b == b[..|b| - 1] + [x];
      }
    }
  }

  lemma {:induction false} InterleavesAllLeft<T(!new)>(s: seq<T>)
    ensures Interleaves(s, [], s)
  {
    if s != [] {
      InterleavesAllLeft(s[..|s| - 1]);
    }
  }

  /** The two date filters of one cutoff interleave to the whole table. */
  lemma {:induction false} FiltersInterleave<T(!new)>(rows: seq<T>, date: T -> int, cut: int)
    ensures Interleaves(Before(rows, date, cut), From(rows, date, cut), rows)
  {
    if rows != [] {
      var init, last := rows[..|rows| - 1], rows[|rows| - 1];
      FiltersInterleave(init, date, cut);
      var a, b := Before(rows, date, cut), From(rows, date, cut);
      if date(last) < cut {
        assert a[..|a| - 1] == Before(init, date, cut);
        assert b == From(init, date, cut);
      } else {
        assert b[..|b| - 1] == From(init, date, cut);
        assert a == Before(init, date, cut);
      }
    }
  }

  /**
   * Whatever the branch, train and test are an ordered partition of the
   * table: disjoint, together all rows, each in table order.
   */
  lemma SplitIsOrderedPartition<T(!new)>(rows: seq<T>, date: T -> int, testDays: nat)
    ensures Interleaves(SplitTrainTest(rows, date, testDays).train, SplitTrainTest(rows, date, testDays).test, rows)
    ensures multiset(SplitTrainTest(rows, date, testDays).train) + multiset(SplitTrainTest(rows, date, testDays).test)
         == multiset(rows)
  {
    var all := AllDates(rows, date);
    var s := SplitTrainTest(rows, date, testDays);
    if |all| <= testDays {
      if rows != [] {
        var init := rows[..|rows| - 1];
        InterleavesAllLeft(init);
        assert s.test == [rows[|rows| - 1]];
        assert rows[..|rows| - 1] == init;
      }
    } else {
      FiltersInterleave(rows, date, all[CutIndex(|all|, testDays)]);
    }
    InterleavesIsPartition(s.train, s.test, rows);
  }

  /** The distinct dates that occur among `rows`. */
  ghost function DateSet<T(!new)>(rows: seq<T>, date: T -> int): set<int> {
    set y | y in rows :: date(y)
  }

  /** The elements of a sequence of dates, as a set. */
  function Elems(ds: seq<int>): set<int> {
    set d | d in ds
  }

  /** The cutoff date of the dated branch. */
  function Cutoff<T(!new)>(rows: seq<T>, date: T -> int, testDays: nat): int
    requires |AllDates(rows, date)| > testDays
  {
    var all := AllDates(rows, date);
    all[CutIndex(|all|, testDays)]
  }

  /**
   * With more distinct dates than `testDays`: every training date comes
   * before every test date.
   */
  lemma SplitSeparatesDates<T(!new)>(rows: seq<T>, date: T -> int, testDays: nat)
    requires |AllDates(rows, date)| > testDays
    ensures var s := SplitTrainTest(rows, date, testDays);
      forall x, y :: x in s.train && y in s.test ==> date(x) < date(y)
  {
    var s := SplitTrainTest(rows, date, testDays);
    var cut := Cutoff(rows, date, testDays);
    assert s == Split(Before(rows, date, cut), From(rows, date, cut));
    FilterMembers(rows, date, cut);
  }

  /** In ascending dates, the suffix from position `m` holds exactly the dates not below `all[m]`. */
  lemma SortedSuffix(all: seq<int>, m: nat)
    requires StrictlySorted(all, IntLess) && m < |all|
    ensures forall d :: d in all[m..] <==> d in all && d >= all[m]
  {
    forall d | d in all && d >= all[m] ensures d in all[m..] {
      var j :| 0 <= j < |all| && all[j] == d;
      assert forall i :: 0 <= i < m ==> IntLess(all[i], all[m]);
      assert all[m..][j - m] == d;
    }
    forall d | d in all[m..] ensures d >= all[m] {
      var k :| 0 <= k < |all| - m && all[m..][k] == d;
      if k > 0 {
        assert IntLess(all[m], all[m + k]);
      }
    }
  }

  /** The rows dated from the `m`-th distinct date on carry exactly the dates from there on. */
  lemma FromDates<T(!new)>(rows: seq<T>, date: T -> int, m: nat)
    requires m < |AllDates(rows, date)|
    ensures var all := AllDates(rows, date);
      DateSet(From(rows, date, all[m]), date) == Elems(all[m..])
  {
    var all := AllDates(rows, date);
    var test := From(rows, date, all[m]);
    FilterMembers(rows, date, all[m]);
    SortedSuffix(all, m);
    forall d ensures d in DateSet(test, date) <==> d in Elems(all[m..]) {
      if d in all[m..] {
        var i :| 0 <= i < |rows| && date(rows[i]) == d;
        assert rows[i] in test;
      }
      if d in DateSet(test, date) {
        var y :| y in test && date(y) == d;
        var i :| 0 <= i < |rows| && rows[i] == y;
      }
    }
  }

  /**
   * With more distinct dates than `testDays >= 1`: the test rows carry
   * exactly the last `testDays` distinct dates, so that many of them.
   */
  lemma SplitTestDates<T(!new)>(rows: seq<T>, date: T -> int, testDays: nat)
    requires testDays >= 1 && |AllDates(rows, date)| > testDays
    ensures var all := AllDates(rows, date);
      DateSet(SplitTrainTest(rows, date, testDays).test, date) == Elems(all[|all| - testDays..])
    ensures |DateSet(SplitTrainTest(rows, date, testDays).test, date)| == testDays
  {
    var all := AllDates(rows, date);
    var m := |all| - testDays;
    assert SplitTrainTest(rows, date, testDays).test == From(rows, date, all[m]);
    FromDates(rows, date, m);
    var tail := all[m..];
    IntLessIsStrictTotalOrder();
    StrictlySortedIsDistinct(tail, IntLess);
    DistinctCard(tail);
    assert Elems(tail) == set y | y in tail;
  }

  /** `test_days = 0` on a non-empty table: the cutoff is the first date, so nothing is trained on. */
  lemma SplitZeroTestDays<T(!new)>(rows: seq<T>, date: T -> int)
    requires rows != []
    ensures SplitTrainTest(rows, date, 0).train == []
    ensures SplitTrainTest(rows, date, 0).test == rows
  {
    var all := AllDates(rows, date);
    assert date(rows[0]) in all;
    var cut := all[0];
    forall i | 0 <= i < |rows| ensures date(rows[i]) >= cut {
      assert date(rows[i]) in all;
    }
    BeforeOnOrderedTable(rows, date, cut, 0);
    FromOnOrderedTable(rows, date, cut, 0);
  }

  /**
   * No more distinct dates than `testDays` on a non-empty table: the test
   * part is the single last row, whatever its date, and train the rest.
   */
  lemma SplitFewDates<T(!new)>(rows: seq<T>, date: T -> int, testDays: nat)
    requires rows != [] && |AllDates(rows, date)| <= testDays
    ensures |SplitTrainTest(rows, date, testDays).test| == 1
    ensures SplitTrainTest(rows, date, testDays).test[0] == rows[|rows| - 1]
    ensures SplitTrainTest(rows, date, testDays).train + SplitTrainTest(rows, date, testDays).test == rows
  {
  }
  /** A table whose rows are their own day numbers. */
  function DayOf(d: int): int { d }

  /**
   * On a table already ordered so that the rows before position `k` are
   * dated before the cutoff and the rest from it on, the train filter keeps
   * the first `k` rows.
   */
  lemma {:induction false} BeforeOnOrderedTable<T(!new)>(rows: seq<T>, date: T -> int, cut: int, k: nat)
    requires k <= |rows|
    requires forall i :: 0 <= i < k ==> date(rows[i]) < cut
    requires forall i :: k <= i < |rows| ==> date(rows[i]) >= cut
    ensures Before(rows, date, cut) == rows[..k]
  {
    if rows != [] {
      var init, last := rows[..|rows| - 1], rows[|rows| - 1];
      if k == |rows| {
        BeforeOnOrderedTable(init, date, cut, k - 1);
        assert rows[..k] == init[..k - 1] + [last];
      } else {
        BeforeOnOrderedTable(init, date, cut, k);
        assert rows[..k] == init[..k];
      }
    }
  }

  /** On a table ordered around the cutoff at position `k`, the test filter keeps the rows from `k` on. */
  lemma {:induction false} FromOnOrderedTable<T(!new)>(rows: seq<T>, date: T -> int, cut: int, k: nat)
    requires k <= |rows|
    requires forall i :: 0 <= i < k ==> date(rows[i]) < cut
    requires forall i :: k <= i < |rows| ==> date(rows[i]) >= cut
    ensures From(rows, date, cut) == rows[k..]
  {
    if rows != [] {
      var init, last := rows[..|rows| - 1], rows[|rows| - 1];
      if k == |rows| {
        FromOnOrderedTable(init, date, cut, k - 1);
      } else {
        FromOnOrderedTable(init, date, cut, k);
        assert rows[k..] == init[k..] + [last];
      }
    }
  }

  /** A table of ascending day numbers lists its own distinct dates. */
  lemma AscendingDaysAreAllDates(rows: seq<int>)
    requires StrictlySorted(rows, IntLess)
    ensures AllDates(rows, DayOf) == rows
  {
    IntLessIsStrictTotalOrder();
    forall d ensures d in AllDates(rows, DayOf) <==> d in rows {
      if d in rows {
        var i :| 0 <= i < |rows| && rows[i] == d;
        assert DayOf(rows[i]) == d;
      }
    }
    SortedUnique(AllDates(rows, DayOf), rows, IntLess);
  }

  /**
   * Five ascending dates D1..D5, one row each, two test days: the cutoff is
   * D4, so D1..D3 train and D4, D5 test.
   */
  lemma FiveDaysTwoForTest(d1: int, d2: int, d3: int, d4: int, d5: int)
    requires d1 < d2 < d3 < d4 < d5
    ensures SplitTrainTest([d1, d2, d3, d4, d5], DayOf, 2) == Split([d1, d2, d3], [d4, d5])
  {
    var rows := [d1, d2, d3, d4, d5];
    assert StrictlySorted(rows, IntLess);
    AscendingDaysAreAllDates(rows);
    BeforeOnOrderedTable(rows, DayOf, d4, 3);
    FromOnOrderedTable(rows, DayOf, d4, 3);
    assert rows[..3] == [d1, d2, d3] && rows[3..] == [d4, d5];
  }
}
