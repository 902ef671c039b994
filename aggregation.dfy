/**
 * The zone-hour aggregator (`zone_hour_aggregate`): the rows, with their time
 * features, are grouped by (zone id, date, hour); each group becomes one
 * record holding its order count, the means of items, preparation time and
 * temperature, the maximum of the rain flag, and the peak-hour flag of its
 * hour. Rows whose zone id is missing belong to no group (pandas drops
 * missing group keys). Records come out sorted by their key.
 */
module Aggregation {
  import opened Wrappers
  import opened Ordering
  import opened Stats
  import opened Orders
  import opened TimeFeatures

  /** A group key: zone id, date, hour. */
  datatype Key = Key(zone: int, date: int, hour: int)

  /** Lexicographic order on keys, the order of the grouped output. */
  function KeyLess(a: Key, b: Key): bool {
    || a.zone < b.zone
    || (a.zone == b.zone && a.date < b.date)
    || (a.zone == b.zone && a.date == b.date && a.hour < b.hour)
  }

  lemma KeyLessIsStrictTotalOrder()
    ensures StrictTotalOrder(KeyLess)
  {
  }

  /** The group a row falls into; None when its zone id is missing. */
  function BucketOf(t: TimedOrder): Option<Key> {
    if t.order.zone.Some? then Some(Key(t.order.zone.value, t.date, t.hour)) else None
  }

  /** The rows of one group, in table order. */
  function Group(rows: seq<TimedOrder>, k: Key): seq<TimedOrder> {
    Select(rows, BucketOf, Some(k))
  }

  /** The key of every row that has one, row by row. */
  function Buckets(rows: seq<TimedOrder>): (ks: seq<Key>)
    ensures |ks| <= |rows|
    ensures forall k :: k in ks <==> exists i :: 0 <= i < |rows| && BucketOf(rows[i]) == Some(k)
  {
    if rows == [] then []
    else
      var init := rows[..|rows| - 1];
      var last := rows[|rows| - 1];
      assert forall i :: 0 <= i < |init| ==> init[i] == rows[i];
      Buckets(init) + (match BucketOf(last) case Some(k) => [k] case None => [])
  }

  /** When every row has a zone id, every row yields one key. */
  lemma {:induction false} AllZonedBuckets(rows: seq<TimedOrder>)
    requires forall i :: 0 <= i < |rows| ==> rows[i].order.zone.Some?
    ensures |Buckets(rows)| == |rows|
  {
    if rows != [] {
      AllZonedBuckets(rows[..|rows| - 1]);
    }
  }

  /** The hours the pipeline treats as peak hours. */
  const PeakHours: set<int> := {12, 13, 19, 20, 21}

  /** The `is_peak_hour` column. */
  function PeakFlag(hour: int): (p: int)
    ensures p == 0 || p == 1
    ensures p == 1 <==> hour in PeakHours
  {
    if hour in PeakHours then 1 else 0
  }

  function Items(t: TimedOrder): real { t.order.items as real }
  function Prep(t: TimedOrder): real { t.order.prepMin }
  function Temperature(t: TimedOrder): real { t.order.temperature }
  function Rain(t: TimedOrder): int { t.order.isRain }

  /** One row of the aggregate table (without the sine/cosine hour encoding). */
  datatype ZoneHourRecord = ZoneHourRecord(
    zone: int,
    date: int,
    hour: int,
    orders: nat,
    avgItems: real,
    avgPrep: real,
    temperature: real,
    isRain: int,
    isPeakHour: int)

  function KeyOf(r: ZoneHourRecord): Key {
    Key(r.zone, r.date, r.hour)
  }

  function RecordKeys(agg: seq<ZoneHourRecord>): (ks: seq<Key>)
    ensures |ks| == |agg|
    ensures forall i :: 0 <= i < |agg| ==> ks[i] == KeyOf(agg[i])
  {
    seq(|agg|, i requires 0 <= i < |agg| => KeyOf(agg[i]))
  }

  /** The record pandas computes for a non-empty group. */
  function SummaryOf(rows: seq<TimedOrder>, k: Key): (r: ZoneHourRecord)
    requires |Group(rows, k)| > 0
    ensures KeyOf(r) == k
    ensures r.orders == |Group(rows, k)| >= 1
  {
    var g := Group(rows, k);
    ZoneHourRecord(
      k.zone, k.date, k.hour, |g|,
      Mean(Project(g, Items)),
      Mean(Project(g, Prep)),
      Mean(Project(g, Temperature)),
      MaxInt(Project(g, Rain)),
      PeakFlag(k.hour))
  }

  /** The sum of the `orders` column. */
  function TotalOrders(agg: seq<ZoneHourRecord>): nat {
    if agg == [] then 0 else TotalOrders(agg[..|agg| - 1]) + agg[|agg| - 1].orders
  }

  /** The running state of one group while the rows are scanned. */
  datatype Tally = Tally(count: nat, items: real, prep: real, temperature: real, rain: int)

  /** The tally of a group: its rows folded from left to right. */
  function TallyOf(g: seq<TimedOrder>): Tally
    requires |g| > 0
  {
    if |g| == 1 then Start(g[0]) else Add(TallyOf(g[..|g| - 1]), g[|g| - 1])
  }

  lemma {:induction false} TallyCount(g: seq<TimedOrder>)
    requires |g| > 0
    ensures TallyOf(g).count == |g|
  {
    if |g| > 1 {
      TallyCount(g[..|g| - 1]);
    }
  }

  /** A tally holds the count, the column sums and the largest rain flag of its group. */
  lemma {:induction false} TallySums(g: seq<TimedOrder>)
    requires |g| > 0
    ensures TallyOf(g) == Tally(|g|, Sum(Project(g, Items)), Sum(Project(g, Prep)),
                                Sum(Project(g, Temperature)), MaxInt(Project(g, Rain)))
  {
    if |g| == 1 {
      TallyOne(g[0]);
      assert g == [g[0]];
    } else {
      var init, x := g[..|g| - 1], g[|g| - 1];
      TallySums(init);
      assert TallyOf(g) == Add(TallyOf(init), x);
      SumProjectLast(g, Items);
      SumProjectLast(g, Prep);
      SumProjectLast(g, Temperature);
      MaxProjectLast(g, Rain);
    }
  }

  /**
   * `zone_hour_aggregate`: one record per distinct (zone, date, hour) of the
   * rows that have a zone id, in ascending key order, each the summary of
   * its group; the order counts add up to the number of rows grouped.
   */
  method ZoneHourAggregate(orders: seq<Order>) returns (agg: seq<ZoneHourRecord>)
    ensures StrictlySorted(RecordKeys(agg), KeyLess)
    ensures forall k :: k in RecordKeys(agg) <==> k in Buckets(ParseTs(orders))
    ensures forall i :: 0 <= i < |agg| ==>
      && |Group(ParseTs(orders), KeyOf(agg[i]))| > 0
      && agg[i].orders >= 1
      && agg[i] == SummaryOf(ParseTs(orders), KeyOf(agg[i]))
    ensures TotalOrders(agg) == |Buckets(ParseTs(orders))|
  {
    var rows := ParseTs(orders);
    var acc, keys := ScanGroups(rows);
    agg := EmitRecords(rows, acc, keys);
    assert RecordKeys(agg) == keys;
    forall k ensures k in keys <==> k in Buckets(rows) {
      GroupNonEmpty(rows, k);
    }
    StrictlySortedIsDistinct(keys, KeyLess);
    TotalIsCountOver(rows, agg);
    OrdersConserved(rows, keys);
  }

  /**
   * The grouping pass: one scan over the rows that keeps a running tally per
   * key and the keys seen so far in ascending order.
   */
  method ScanGroups(rows: seq<TimedOrder>) returns (acc: map<Key, Tally>, keys: seq<Key>)
    ensures StrictTotalOrder(KeyLess) && StrictlySorted(keys, KeyLess)
    ensures forall k :: k in keys <==> k in acc
    ensures TalliesOf(acc, rows)
  {
    KeyLessIsStrictTotalOrder();
    acc := map[];
    keys := [];
    TalliesOfNoRows();
    var i := 0;
    while i < |rows|
      invariant 0 <= i <= |rows|
      invariant StrictlySorted(keys, KeyLess)
      invariant forall k :: k in keys <==> k in acc
      invariant TalliesOf(acc, rows[..i])
    {
      ghost var seen := rows[..i];
      acc, keys := ScanRow(seen, rows[i], acc, keys);
      assert rows[..i + 1] == seen + [rows[i]];
      i := i + 1;
    }
    assert rows[..|rows|] == rows;
  }

  /** One step of the grouping pass: the row joins its group's tally, or opens a new key. */
  method ScanRow(ghost seen: seq<TimedOrder>, row: TimedOrder, acc: map<Key, Tally>, keys: seq<Key>)
    returns (acc': map<Key, Tally>, keys': seq<Key>)
    requires StrictTotalOrder(KeyLess) && StrictlySorted(keys, KeyLess)
    requires forall k :: k in keys <==> k in acc
    requires TalliesOf(acc, seen)
    ensures StrictlySorted(keys', KeyLess)
    ensures forall k :: k in keys' <==> k in acc'
    ensures TalliesOf(acc', seen + [row])
  {
    acc', keys' := acc, keys;
    match BucketOf(row) {
      case None =>
        TallySkipped(seen, row, acc);
      case Some(k) =>
        if k in acc {
          TallyKnownKey(seen, row, acc, k);
          acc' := acc[k := Add(acc[k], row)];
        } else {
          TallyNewKey(seen, row, acc, k);
          acc' := acc[k := Start(row)];
          keys' := Insert(keys, k, KeyLess);
        }
    }
  }

  lemma TalliesOfNoRows()
    ensures TalliesOf(map[], [])
  {
  }

  /**
   * `acc` holds a tally for exactly the keys of the rows `s`, and each tally
   * is that of its group.
   */
  ghost predicate TalliesOf(acc: map<Key, Tally>, s: seq<TimedOrder>) {
    && (forall k :: |Group(s, k)| > 0 ==> k in acc)
    && (forall k :: k in acc ==> |Group(s, k)| > 0 && acc[k] == TallyOf(Group(s, k)))
  }

  lemma TallySkipped(s: seq<TimedOrder>, x: TimedOrder, acc: map<Key, Tally>)
    requires TalliesOf(acc, s) && BucketOf(x) == None
    ensures TalliesOf(acc, s + [x])
  {
    forall k | |Group(s + [x], k)| > 0 ensures k in acc {
      GroupExtend(s, x, k);
    }
    forall k | k in acc ensures |Group(s + [x], k)| > 0 && acc[k] == TallyOf(Group(s + [x], k)) {
      GroupExtend(s, x, k);
    }
  }

  lemma TallyKnownKey(s: seq<TimedOrder>, x: TimedOrder, acc: map<Key, Tally>, k: Key)
    requires TalliesOf(acc, s) && BucketOf(x) == Some(k) && k in acc
    ensures TalliesOf(acc[k := Add(acc[k], x)], s + [x])
  {
    var acc' := acc[k := Add(acc[k], x)];
    forall k' | |Group(s + [x], k')| > 0 ensures k' in acc' {
      GroupExtend(s, x, k');
    }
    GroupExtend(s, x, k);
    TallyExtend(Group(s, k), x);
    assert |Group(s + [x], k)| > 0 && acc'[k] == TallyOf(Group(s + [x], k));
    forall k' | k' in acc' && k' != k ensures |Group(s + [x], k')| > 0 && acc'[k'] == TallyOf(Group(s + [x], k')) {
      GroupExtend(s, x, k');
    }
  }

  lemma TallyNewKey(s: seq<TimedOrder>, x: TimedOrder, acc: map<Key, Tally>, k: Key)
    requires TalliesOf(acc, s) && BucketOf(x) == Some(k) && k !in acc
    ensures TalliesOf(acc[k := Start(x)], s + [x])
  {
    var acc' := acc[k := Start(x)];
    forall k' | |Group(s + [x], k')| > 0 ensures k' in acc' {
      GroupExtend(s, x, k');
    }
    GroupExtend(s, x, k);
    assert |Group(s, k)| == 0;
    assert Group(s + [x], k) == [x];
    assert |Group(s + [x], k)| > 0 && acc'[k] == TallyOf(Group(s + [x], k));
    forall k' | k' in acc' && k' != k ensures |Group(s + [x], k')| > 0 && acc'[k'] == TallyOf(Group(s + [x], k')) {
      GroupExtend(s, x, k');
    }
  }

  lemma TallyOne(x: TimedOrder)
    ensures Tally(1, Sum(Project([x], Items)), Sum(Project([x], Prep)),
                  Sum(Project([x], Temperature)), MaxInt(Project([x], Rain))) == Start(x)
  {
    assert [x][..0] == [];
    assert Project([x], Items) == [Items(x)];
    assert Project([x], Prep) == [Prep(x)];
    assert Project([x], Temperature) == [Temperature(x)];
    assert Project([x], Rain) == [Rain(x)];
    SumSingleton(Items(x));
    SumSingleton(Prep(x));
    SumSingleton(Temperature(x));
  }

  /** The record of a key, computed from its tally. */
  function Finish(k: Key, a: Tally): ZoneHourRecord
    requires a.count > 0
  {
    ZoneHourRecord(
      k.zone, k.date, k.hour, a.count,
      a.items / a.count as real,
      a.prep / a.count as real,
      a.temperature / a.count as real,
      a.rain,
      PeakFlag(k.hour))
  }

  /** The record finished from a key's tally is the summary of the key's group. */
  lemma RecordIsSummary(rows: seq<TimedOrder>, acc: map<Key, Tally>, k: Key, r: ZoneHourRecord)
    requires TalliesOf(acc, rows) && k in acc
    requires acc[k].count > 0 && r == Finish(k, acc[k])
    ensures |Group(rows, k)| > 0 && r == SummaryOf(rows, k)
  {
    TallySums(Group(rows, k));
  }

  /**
   * The output pass: one record per key, in key order, with the means taken
   * from the tallies and the peak-hour flag added.
   */
  method EmitRecords(rows: seq<TimedOrder>, acc: map<Key, Tally>, keys: seq<Key>) returns (agg: seq<ZoneHourRecord>)
    requires forall k :: k in keys ==> k in acc
    requires TalliesOf(acc, rows)
    ensures RecordKeys(agg) == keys
    ensures forall i :: 0 <= i < |agg| ==> |Group(rows, keys[i])| > 0 && agg[i] == SummaryOf(rows, keys[i])
  {
    agg := [];
    var j := 0;
    while j < |keys|
      invariant 0 <= j <= |keys|
      invariant |agg| == j
      invariant forall t :: 0 <= t < j ==> acc[keys[t]].count > 0 && agg[t] == Finish(keys[t], acc[keys[t]])
    {
      var k := keys[j];
      TallyCount(Group(rows, k));
      var r := Finish(k, acc[k]);
      agg := agg + [r];
      j := j + 1;
    }
    forall t | 0 <= t < |agg| ensures |Group(rows, keys[t])| > 0 && agg[t] == SummaryOf(rows, keys[t]) {
      RecordIsSummary(rows, acc, keys[t], agg[t]);
    }
    assert keys[..|keys|] == keys;
  }

  function Start(row: TimedOrder): Tally {
    Tally(1, Items(row), Prep(row), Temperature(row), Rain(row))
  }

  function Add(t: Tally, row: TimedOrder): Tally {
    Tally(t.count + 1, t.items + Items(row), t.prep + Prep(row), t.temperature + Temperature(row),
          if t.rain < Rain(row) then Rain(row) else t.rain)
  }

  lemma GroupExtend(s: seq<TimedOrder>, x: TimedOrder, k: Key)
    ensures BucketOf(x) == Some(k) ==> Group(s + [x], k) == Group(s, k) + [x]
    ensures BucketOf(x) != Some(k) ==> Group(s + [x], k) == Group(s, k)
  {
    assert (s + [x])[..|s|] == s;
    if BucketOf(x) != Some(k) {
      assert Group(s, k) + [] == Group(s, k);
    }
  }

  /** A group is non-empty exactly when some row has its key. */
  lemma GroupNonEmpty(s: seq<TimedOrder>, k: Key)
    ensures |Group(s, k)| > 0 <==> k in Buckets(s)
  {
    if k in Buckets(s) {
      var i :| 0 <= i < |s| && BucketOf(s[i]) == Some(k);
      assert s[i] in Group(s, k);
    }
    if |Group(s, k)| > 0 {
      assert Group(s, k)[0] in Group(s, k);
    }
  }

  lemma TallyExtend(g: seq<TimedOrder>, x: TimedOrder)
    requires |g| > 0
    ensures TallyOf(g + [x]) == Add(TallyOf(g), x)
  {
    assert (g + [x])[..|g|] == g;
  }

  /** The group sizes of the keys `ks`, added up. */
  function CountOver(rows: seq<TimedOrder>, ks: seq<Key>): nat {
    if ks == [] then 0 else CountOver(rows, ks[..|ks| - 1]) + |Group(rows, ks[|ks| - 1])|
  }

  /** Records that summarise their groups add up to the sizes of those groups. */
  lemma {:induction false} TotalIsCountOver(rows: seq<TimedOrder>, agg: seq<ZoneHourRecord>)
    requires forall i :: 0 <= i < |agg| ==> agg[i].orders == |Group(rows, KeyOf(agg[i]))|
    ensures TotalOrders(agg) == CountOver(rows, RecordKeys(agg))
  {
    if agg != [] {
      var init := agg[..|agg| - 1];
      TotalIsCountOver(rows, init);
      assert RecordKeys(agg)[..|agg| - 1] == RecordKeys(init);
    }
  }

  /** How many of the keys `ks` the row `x` falls under. */
  function Hits(x: TimedOrder, ks: seq<Key>): nat {
    if ks == [] then 0
    else Hits(x, ks[..|ks| - 1]) + (if BucketOf(x) == Some(ks[|ks| - 1]) then 1 else 0)
  }

  lemma {:induction false} CountOverExtend(s: seq<TimedOrder>, x: TimedOrder, ks: seq<Key>)
    ensures CountOver(s + [x], ks) == CountOver(s, ks) + Hits(x, ks)
  {
    if ks != [] {
      CountOverExtend(s, x, ks[..|ks| - 1]);
      GroupExtend(s, x, ks[|ks| - 1]);
    }
  }

  lemma {:induction false} HitsDistinct(x: TimedOrder, ks: seq<Key>)
    requires Distinct(ks)
    ensures Hits(x, ks) == if BucketOf(x).Some? && BucketOf(x).value in ks then 1 else 0
  {
    if ks != [] {
      var init := ks[..|ks| - 1];
      assert Distinct(init);
      HitsDistinct(x, init);
      assert ks == init + [ks[|ks| - 1]];
    }
  }

  /**
   * Count conservation: over any duplicate-free list of keys that covers
   * every row's key, the group sizes add up to the number of rows that have
   * a key; no row is lost and none is counted twice.
   */
  lemma {:induction false} OrdersConserved(rows: seq<TimedOrder>, ks: seq<Key>)
    requires Distinct(ks)
    requires forall k :: k in Buckets(rows) ==> k in ks
    ensures CountOver(rows, ks) == |Buckets(rows)|
  {
    if rows == [] {
      CountOverEmpty(ks);
    } else {
      var init := rows[..|rows| - 1];
      var last := rows[|rows| - 1];
      assert rows == init + [last];
      assert forall k :: k in Buckets(init) ==> k in Buckets(rows) by {
        assert forall i :: 0 <= i < |init| ==> init[i] == rows[i];
      }
      OrdersConserved(init, ks);
      CountOverExtend(init, last, ks);
      HitsDistinct(last, ks);
      if BucketOf(last).Some? {
        assert BucketOf(rows[|rows| - 1]) == BucketOf(last);
        assert BucketOf(last).value in Buckets(rows);
      }
    }
  }

  lemma {:induction false} CountOverEmpty(ks: seq<Key>)
    ensures CountOver([], ks) == 0
  {
    if ks != [] {
      CountOverEmpty(ks[..|ks| - 1]);
    }
  }

  /**
   * What a record of the aggregate says about its group: the count is the
   * group size, every average lies between the smallest and the largest
   * value averaged, the rain flag is the largest flag of the group, every row
   * of the group has the record's zone, date and hour, and the peak-hour
   * flag is set exactly for the peak hours.
   */
  lemma SummaryDescribesGroup(rows: seq<TimedOrder>, k: Key)
    requires |Group(rows, k)| > 0
    ensures var r := SummaryOf(rows, k);
      var g := Group(rows, k);
      && KeyOf(r) == k
      && r.orders == |g| >= 1
      && MinOf(Project(g, Items)) <= r.avgItems <= MaxOf(Project(g, Items))
      && MinOf(Project(g, Prep)) <= r.avgPrep <= MaxOf(Project(g, Prep))
      && MinOf(Project(g, Temperature)) <= r.temperature <= MaxOf(Project(g, Temperature))
      && (exists t :: t in g && Rain(t) == r.isRain)
      && (forall t :: t in g ==> Rain(t) <= r.isRain)
      && (forall t :: t in g ==> t in rows && t.order.zone == Some(r.zone) && t.date == r.date && t.hour == r.hour)
      && (r.isPeakHour == 1 <==> r.hour in PeakHours)
      && (r.isPeakHour == 0 <==> r.hour !in PeakHours)
  {
    SummaryKeyAndCount(rows, k);
    SummaryMeans(rows, k);
    var g := Group(rows, k);
    assert SummaryOf(rows, k).isRain == MaxInt(Project(g, Rain));
    RainMaxOfRows(g);
  }

  /** A group's record carries its key, its size, and the peak flag of its hour; its rows all have that key. */
  lemma SummaryKeyAndCount(rows: seq<TimedOrder>, k: Key)
    requires |Group(rows, k)| > 0
    ensures var r := SummaryOf(rows, k);
      var g := Group(rows, k);
      && KeyOf(r) == k
      && r.orders == |g| >= 1
      && (forall t :: t in g ==> t in rows && t.order.zone == Some(r.zone) && t.date == r.date && t.hour == r.hour)
      && (r.isPeakHour == 1 <==> r.hour in PeakHours)
      && (r.isPeakHour == 0 <==> r.hour !in PeakHours)
  {
  }

  /** Each mean of a group's record lies between the smallest and the largest value averaged. */
  lemma SummaryMeans(rows: seq<TimedOrder>, k: Key)
    requires |Group(rows, k)| > 0
    ensures var r := SummaryOf(rows, k);
      var g := Group(rows, k);
      && MinOf(Project(g, Items)) <= r.avgItems <= MaxOf(Project(g, Items))
      && MinOf(Project(g, Prep)) <= r.avgPrep <= MaxOf(Project(g, Prep))
      && MinOf(Project(g, Temperature)) <= r.temperature <= MaxOf(Project(g, Temperature))
  {
    var g := Group(rows, k);
    MeanWithinRange(Project(g, Items));
    MeanWithinRange(Project(g, Prep));
    MeanWithinRange(Project(g, Temperature));
  }

  /** The largest rain flag of some rows is the flag of one of them and no smaller than any. */
  lemma RainMaxOfRows(g: seq<TimedOrder>)
    requires |g| > 0
    ensures exists t :: t in g && Rain(t) == MaxInt(Project(g, Rain))
    ensures forall t :: t in g ==> Rain(t) <= MaxInt(Project(g, Rain))
  {
    var rains := Project(g, Rain);
    var j :| 0 <= j < |rains| && rains[j] == MaxInt(rains);
    assert g[j] in g;
    forall t | t in g ensures Rain(t) <= MaxInt(rains) {
      var i :| 0 <= i < |g| && g[i] == t;
      assert rains[i] in rains;
    }
  }
}
