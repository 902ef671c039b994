/**
 * The columns the demand predictor reads from the aggregated table
 * (`agg[FEATURES]`), and the weekend flag that the aggregated table lacks.
 *
 * `zone_hour_aggregate` writes the group key, the five aggregates and three
 * time features, but no `is_weekend`; the feature list asks for it, so the
 * column selection as written fails with a missing-column error. The
 * corrected table carries the weekend flag of each record's date, which is
 * the flag every row of its group already had.
 */
module Features {
  import opened Wrappers
  import opened Ordering
  import opened Orders
  import opened TimeFeatures
  import opened Stats
  import opened Aggregation

  /** The columns of the table `zone_hour_aggregate` returns, in order. */
  const AggregateColumns: seq<string> := [
    "zone_id", "date", "hour",
    "orders", "avg_items", "avg_prep", "temperature_c", "is_rain",
    "is_peak_hour", "sin_hour", "cos_hour"]

  /** `FEATURES`, the predictor's input columns, in order. */
  const FeatureColumns: seq<string> := [
    "hour", "is_weekend", "is_peak_hour", "sin_hour", "cos_hour",
    "avg_items", "avg_prep", "temperature_c", "is_rain"]

  /** The aggregated table's columns once the weekend flag is added. */
  const CorrectedColumns: seq<string> := AggregateColumns + ["is_weekend"]

  /** Outcome of `df[cols]`: the selected columns, or the error naming the absent ones. */
  datatype Selection = Columns(cols: seq<string>) | KeyError(missing: seq<string>)

  /** The wanted columns that the table does not have, in the order asked for. */
  function MissingColumns(have: seq<string>, want: seq<string>): (m: seq<string>)
    ensures forall c :: c in m <==> c in want && c !in have
    ensures |m| <= |want|
  {
    if want == [] then []
    else
      var init, last := want[..|want| - 1], want[|want| - 1];
      assert want == init + [last];
      MissingColumns(have, init) + (if last in have then [] else [last])
  }

  /** `df[want]` on a table whose columns are `have`. */
  function SelectColumns(have: seq<string>, want: seq<string>): (r: Selection)
    ensures r.Columns? <==> forall c :: c in want ==> c in have
    ensures r.Columns? ==> r.cols == want
    ensures r.KeyError? ==> r.missing != [] && forall c :: c in r.missing <==> c in want && c !in have
  {
    var m := MissingColumns(have, want);
    if m == [] then
      assert forall c :: c in want ==> c in have by {
        forall c | c in want ensures c in have {
          assert c !in m;
        }
      }
      Columns(want)
    else
      assert m[0] in want && m[0] !in have;
      KeyError(m)
  }

  /** No column is reported missing twice when none is asked for twice. */
  lemma {:induction false} MissingColumnsDistinct(have: seq<string>, want: seq<string>)
    requires Distinct(want)
    ensures Distinct(MissingColumns(have, want))
  {
    if want != [] {
      var init, last := want[..|want| - 1], want[|want| - 1];
      MissingColumnsDistinct(have, init);
      assert last !in init;
      assert last !in MissingColumns(have, init);
    }
  }

  /** As written: selecting the features from the aggregated table fails on `is_weekend`. */
  lemma FeatureSelectionAsWritten()
    ensures SelectColumns(AggregateColumns, FeatureColumns) == KeyError(["is_weekend"])
  {
    var m := MissingColumns(AggregateColumns, FeatureColumns);
    assert "is_weekend" in m;
    forall c | c in m ensures c == "is_weekend" {
      assert c in FeatureColumns && c !in AggregateColumns;
    }
    MissingColumnsDistinct(AggregateColumns, FeatureColumns);
    DistinctCard(m);
    assert (set y | y in m) == {"is_weekend"};
    assert m == [m[0]];
  }

  /** Corrected: every feature column is present once the weekend flag is added. */
  lemma FeatureSelectionCorrected()
    ensures SelectColumns(CorrectedColumns, FeatureColumns) == Columns(FeatureColumns)
  {
    forall c | c in FeatureColumns ensures c in CorrectedColumns {
    }
  }

  /** An aggregated record together with the weekend flag of its date. */
  datatype FeatureRecord = FeatureRecord(record: ZoneHourRecord, isWeekend: int)

  /** The corrected aggregation step: the weekend flag of the record's date. */
  function WithWeekend(r: ZoneHourRecord): (f: FeatureRecord)
    ensures f.record == r
    ensures f.isWeekend == 0 || f.isWeekend == 1
    ensures f.isWeekend == 1 <==> DayOfWeek(r.date) >= 5
  {
    FeatureRecord(r, WeekendFlag(r.date))
  }

  /** The corrected table: every aggregated record with its weekend flag, in order. */
  function WithWeekends(agg: seq<ZoneHourRecord>): (fs: seq<FeatureRecord>)
    ensures |fs| == |agg|
    ensures forall i :: 0 <= i < |agg| ==> fs[i] == WithWeekend(agg[i])
  {
    seq(|agg|, i requires 0 <= i < |agg| => WithWeekend(agg[i]))
  }

  /**
   * The added flag is the one every order of the group carried after
   * `parse_ts`, so it is what grouping by the flag as well would have kept.
   */
  lemma WeekendAgreesWithGroup(orders: seq<Order>, k: Key)
    requires |Group(ParseTs(orders), k)| > 0
    ensures forall t :: t in Group(ParseTs(orders), k) ==>
      t.isWeekend == WithWeekend(SummaryOf(ParseTs(orders), k)).isWeekend
  {
    var rows := ParseTs(orders);
    forall t | t in Group(rows, k)
      ensures t.isWeekend == WeekendFlag(k.date)
    {
      assert t in rows && BucketOf(t) == Some(k);
      var i :| 0 <= i < |rows| && rows[i] == t;
      assert t == Timed(orders[i]);
    }
  }

  /**
   * One row of `agg[FEATURES]`, the sine and cosine of the hour left out:
   * they are functions of `hour`, which the vector carries.
   */
  datatype FeatureVector = FeatureVector(
    hour: int,
    isWeekend: int,
    isPeakHour: int,
    avgItems: real,
    avgPrep: real,
    temperature: real,
    isRain: int)

  /** The feature vector of one corrected record, its columns in `FEATURES` order. */
  function Vector(f: FeatureRecord): (v: FeatureVector)
    ensures v.hour == f.record.hour && v.isWeekend == f.isWeekend
    ensures v.isPeakHour == f.record.isPeakHour && v.isRain == f.record.isRain
    ensures v.avgItems == f.record.avgItems && v.avgPrep == f.record.avgPrep
    ensures v.temperature == f.record.temperature
  {
    FeatureVector(
      f.record.hour, f.isWeekend, f.record.isPeakHour,
      f.record.avgItems, f.record.avgPrep, f.record.temperature, f.record.isRain)
  }
}
