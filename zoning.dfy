/**
 * The zoner (`build_zones`). When the table already carries zone ids, rows
 * are kept and each zone's centre is the mean position of its rows; otherwise
 * the rows are clustered by position into `nZones` zones by k-means, a library
 * call this model takes as a parameter whose only promise is its labelling.
 */
module Zoning {
  import opened Wrappers
  import opened Ordering
  import opened Stats
  import opened Orders

  datatype Point = Point(lat: real, lon: real)

  /** A row of the zone-centre table: zone_id, lat, lon. */
  datatype Centre = Centre(zone: int, lat: real, lon: real)

  /** What `KMeans.fit_predict` leaves behind: a label per point and the cluster centres. */
  datatype Clustering = Clustering(labels: seq<int>, centroids: seq<Point>)

  /** The pair `build_zones` returns: the table with zones and the centre table. */
  datatype Zoned = Zoned(rows: seq<Order>, centres: seq<Centre>)

  /** The k-means library's signature: points, number of clusters, random seed. */
  type KMeans = (seq<Point>, int, int) -> Clustering

  /** The zone column is present and not entirely missing. */
  predicate HasZoneIds(rows: seq<Order>) {
    exists i :: 0 <= i < |rows| && rows[i].zone.Some?
  }

  /** The coordinate matrix handed to k-means, one point per row. */
  function Coords(rows: seq<Order>): (pts: seq<Point>)
    ensures |pts| == |rows|
    ensures forall i :: 0 <= i < |rows| ==> pts[i] == Point(rows[i].lat, rows[i].lon)
  {
    seq(|rows|, i requires 0 <= i < |rows| => Point(rows[i].lat, rows[i].lon))
  }

  /** What the library promises: one label in [0, k) per point, and k centres. */
  predicate LabelsFit(c: Clustering, n: nat, k: int) {
    && |c.labels| == n
    && |c.centroids| == k
    && forall i :: 0 <= i < n ==> 0 <= c.labels[i] < k
  }

  /**
   * The clustering path can run: at least one cluster, no more clusters than
   * rows (k-means raises otherwise), and the library keeps its promise.
   */
  predicate ClusteringRuns(rows: seq<Order>, nZones: int, seed: int, kmeans: KMeans) {
    1 <= nZones <= |rows| && LabelsFit(kmeans(Coords(rows), nZones, seed), |rows|, nZones)
  }

  function ZoneOf(o: Order): Option<int> { o.zone }
  function Lat(o: Order): real { o.lat }
  function Lon(o: Order): real { o.lon }

  /** The non-missing zone ids, row by row. */
  function ZoneIds(rows: seq<Order>): (ids: seq<int>)
    ensures forall z :: z in ids <==> exists i :: 0 <= i < |rows| && rows[i].zone == Some(z)
  {
    if rows == [] then []
    else
      var init := rows[..|rows| - 1];
      var last := rows[|rows| - 1];
      var ids := ZoneIds(init) + (if last.zone.Some? then [last.zone.value] else []);
      assert forall i :: 0 <= i < |init| ==> init[i] == rows[i];
      ids
  }

  /** The rows of one zone. */
  function Members(rows: seq<Order>, z: int): seq<Order> {
    Select(rows, ZoneOf, Some(z))
  }

  lemma MembersNonEmpty(rows: seq<Order>, z: int)
    requires z in ZoneIds(rows)
    ensures |Members(rows, z)| > 0
  {
    var i :| 0 <= i < |rows| && rows[i].zone == Some(z);
    assert rows[i] in Members(rows, z);
  }

  /** The centre of a zone that has rows: the mean of their positions. */
  function MeanCentre(rows: seq<Order>, z: int): (c: Centre)
    requires z in ZoneIds(rows)
    ensures c.zone == z
    ensures var m := Members(rows, z);
      |m| > 0
      && MinOf(Project(m, Lat)) <= c.lat <= MaxOf(Project(m, Lat))
      && MinOf(Project(m, Lon)) <= c.lon <= MaxOf(Project(m, Lon))
  {
    MembersNonEmpty(rows, z);
    var m := Members(rows, z);
    MeanWithinRange(Project(m, Lat));
    MeanWithinRange(Project(m, Lon));
    Centre(z, Mean(Project(m, Lat)), Mean(Project(m, Lon)))
  }

  /** One centre per id of `ids`, in the same order. */
  function MeanCentres(rows: seq<Order>, ids: seq<int>): (cs: seq<Centre>)
    requires forall z :: z in ids ==> z in ZoneIds(rows)
    ensures |cs| == |ids|
    ensures forall j :: 0 <= j < |ids| ==> cs[j] == MeanCentre(rows, ids[j])
  {
    if ids == [] then []
    else MeanCentres(rows, ids[..|ids| - 1]) + [MeanCentre(rows, ids[|ids| - 1])]
  }

  /** One mean centre per distinct zone id, in ascending id order (the `groupby(zone_id).mean()`). */
  function MeanCentresByZone(rows: seq<Order>): (cs: seq<Centre>)
    ensures StrictlySorted(CentreIds(cs), IntLess)
    ensures forall id :: id in CentreIds(cs) <==> id in ZoneIds(rows)
    ensures forall j :: 0 <= j < |cs| ==> cs[j].zone in ZoneIds(rows) && cs[j] == MeanCentre(rows, cs[j].zone)
  {
    IntLessIsStrictTotalOrder();
    var ids := SortedDistinct(ZoneIds(rows), IntLess);
    var cs := MeanCentres(rows, ids);
    assert CentreIds(cs) == ids;
    cs
  }

  /** The ids of a centre table, in table order. */
  function CentreIds(cs: seq<Centre>): (ids: seq<int>)
    ensures |ids| == |cs|
    ensures forall j :: 0 <= j < |cs| ==> ids[j] == cs[j].zone
  {
    seq(|cs|, j requires 0 <= j < |cs| => cs[j].zone)
  }

  /**
   * `build_zones`. With zone ids present, the rows come back unchanged and
   * the centres are one per distinct non-missing id, in ascending id order,
   * each at the mean position of that zone's rows. Otherwise every row gets
   * the k-means label as its zone and the centre table lists zones 0 to
   * nZones-1 at the k-means centroids.
   */
  function BuildZones(rows: seq<Order>, nZones: int, seed: int, kmeans: KMeans): (z: Zoned)
    requires HasZoneIds(rows) || ClusteringRuns(rows, nZones, seed, kmeans)
    ensures |z.rows| == |rows|
    ensures HasZoneIds(rows) ==>
      && z.rows == rows
      && StrictlySorted(CentreIds(z.centres), IntLess)
      && (forall id :: id in CentreIds(z.centres) <==> id in ZoneIds(rows))
      && (forall j :: 0 <= j < |z.centres| ==>
            && |Members(rows, z.centres[j].zone)| > 0
            && z.centres[j].lat == Mean(Project(Members(rows, z.centres[j].zone), Lat))
            && z.centres[j].lon == Mean(Project(Members(rows, z.centres[j].zone), Lon)))
    ensures !HasZoneIds(rows) ==>
      var c := kmeans(Coords(rows), nZones, seed);
      && |z.centres| == nZones
      && (forall j :: 0 <= j < nZones ==>
            z.centres[j] == Centre(j, c.centroids[j].lat, c.centroids[j].lon))
      && (forall i :: 0 <= i < |rows| ==>
            && z.rows[i] == rows[i].(zone := Some(c.labels[i]))
            && 0 <= c.labels[i] < nZones)
  {
    if HasZoneIds(rows) then
      var cs := MeanCentresByZone(rows);
      forall j | 0 <= j < |cs| ensures |Members(rows, cs[j].zone)| > 0 {
        MembersNonEmpty(rows, cs[j].zone);
      }
      Zoned(rows, cs)
    else
      var c := kmeans(Coords(rows), nZones, seed);
      var labelled := seq(|rows|, i requires 0 <= i < |rows| => rows[i].(zone := Some(c.labels[i])));
      var cs := seq(nZones, j requires 0 <= j < nZones => Centre(j, c.centroids[j].lat, c.centroids[j].lon));
      Zoned(labelled, cs)
  }

  /**
   * On either path every zone id a row carries afterwards names a row of the
   * centre table.
   */
  lemma EveryZoneHasCentre(rows: seq<Order>, nZones: int, seed: int, kmeans: KMeans, i: int)
    requires HasZoneIds(rows) || ClusteringRuns(rows, nZones, seed, kmeans)
    requires 0 <= i < |rows|
    ensures var z := BuildZones(rows, nZones, seed, kmeans);
      z.rows[i].zone.Some? ==> exists j :: 0 <= j < |z.centres| && z.centres[j].zone == z.rows[i].zone.value
  {
    var z := BuildZones(rows, nZones, seed, kmeans);
    if z.rows[i].zone.Some? {
      var id := z.rows[i].zone.value;
      if HasZoneIds(rows) {
        assert id in ZoneIds(rows);
        assert id in CentreIds(z.centres);
      } else {
        assert z.centres[id].zone == id;
      }
    }
  }

  /**
   * With zone ids present the centre table does not depend on the order of
   * the input rows: any permutation of the rows yields the same centres.
   */
  lemma CentresIgnoreRowOrder(a: seq<Order>, b: seq<Order>, nZones: int, seed: int, kmeans: KMeans)
    requires multiset(a) == multiset(b)
    requires HasZoneIds(a)
    ensures HasZoneIds(b)
    ensures BuildZones(a, nZones, seed, kmeans).centres == BuildZones(b, nZones, seed, kmeans).centres
  {
    var i :| 0 <= i < |a| && a[i].zone.Some?;
    SameZoneIds(a, b, a[i].zone.value);
    MeanCentresPermutation(a, b);
  }

  lemma MeanCentresPermutation(a: seq<Order>, b: seq<Order>)
    requires multiset(a) == multiset(b)
    ensures MeanCentresByZone(a) == MeanCentresByZone(b)
  {
    forall z ensures z in ZoneIds(a) <==> z in ZoneIds(b) {
      if z in ZoneIds(a) { SameZoneIds(a, b, z); }
      if z in ZoneIds(b) { SameZoneIds(b, a, z); }
    }
    var ca, cb := MeanCentresByZone(a), MeanCentresByZone(b);
    IntLessIsStrictTotalOrder();
    SortedUnique(CentreIds(ca), CentreIds(cb), IntLess);
    forall j | 0 <= j < |ca| ensures ca[j] == cb[j] {
      assert CentreIds(ca)[j] == CentreIds(cb)[j];
      MeanCentrePermutation(a, b, ca[j].zone);
    }
  }

  /** A zone's mean centre is the same for any permutation of the rows. */
  lemma MeanCentrePermutation(a: seq<Order>, b: seq<Order>, z: int)
    requires multiset(a) == multiset(b)
    requires z in ZoneIds(a) && z in ZoneIds(b)
    ensures MeanCentre(a, z) == MeanCentre(b, z)
  {
    var ma, mb := Members(a, z), Members(b, z);
    SelectPermutation(a, b, ZoneOf, Some(z));
    SumProjectPermutation(ma, mb, Lat);
    SumProjectPermutation(ma, mb, Lon);
    assert |ma| == |mb| by {
      assert |multiset(ma)| == |multiset(mb)|;
    }
  }

  lemma SameZoneIds(a: seq<Order>, b: seq<Order>, z: int)
    requires multiset(a) == multiset(b)
    requires z in ZoneIds(a)
    ensures z in ZoneIds(b)
  {
    var i :| 0 <= i < |a| && a[i].zone == Some(z);
    assert a[i] in multiset(b);
    var j :| 0 <= j < |b| && b[j] == a[i];
  }
}
