/**
 * Driver allocation: `allocate_drivers` turns an expected order count and a
 * mean service time in minutes into a whole number of drivers, the ceiling
 * of the driver-hours needed; the plan applies it to the prediction of every
 * zone-hour row.
 */
module Allocation {
  import opened Aggregation
  import opened Features

  /** `math.ceil` on exact reals: the least integer not below `x`. */
  function Ceil(x: real): (c: int)
    ensures c as real >= x
    ensures (c - 1) as real < x
  {
    var f := (-x).Floor;
    assert f as real <= -x < f as real + 1.0;
    -f
  }

  /** `allocate_drivers(expected_orders, avg_service_time_min)`. */
  function AllocateDrivers(expected: real, serviceMin: real): (d: int)
    ensures 60.0 * d as real >= expected * serviceMin
    ensures 60.0 * (d - 1) as real < expected * serviceMin
  {
    Ceil(expected * serviceMin / 60.0)
  }

  /** No smaller number of drivers covers the demand. */
  lemma AllocateIsLeast(expected: real, serviceMin: real, n: int)
    requires 60.0 * n as real >= expected * serviceMin
    ensures AllocateDrivers(expected, serviceMin) <= n
  {
    var d := AllocateDrivers(expected, serviceMin);
    assert 60.0 * (d - 1) as real < 60.0 * n as real;
  }

  /** For a non-negative service time, more expected orders never mean fewer drivers. */
  lemma AllocateMonotone(e1: real, e2: real, serviceMin: real)
    requires serviceMin >= 0.0 && e1 <= e2
    ensures AllocateDrivers(e1, serviceMin) <= AllocateDrivers(e2, serviceMin)
  {
    var d2 := AllocateDrivers(e2, serviceMin);
    assert e1 * serviceMin <= e2 * serviceMin by {
      ProductNonNegative(e2 - e1, serviceMin);
      assert e2 * serviceMin - e1 * serviceMin == (e2 - e1) * serviceMin;
    }
    AllocateIsLeast(e1, serviceMin, d2);
  }

  /** The product of two non-negative reals is non-negative. */
  lemma ProductNonNegative(a: real, b: real)
    requires a >= 0.0 && b >= 0.0
    ensures a * b >= 0.0
  {
  }

  /** No expected orders, no drivers. */
  lemma AllocateZero(serviceMin: real)
    ensures AllocateDrivers(0.0, serviceMin) == 0
  {
  }

  /** Non-negative orders and service time give a non-negative count. */
  lemma AllocateNonNegative(expected: real, serviceMin: real)
    requires expected >= 0.0 && serviceMin >= 0.0
    ensures AllocateDrivers(expected, serviceMin) >= 0
  {
    assert expected * serviceMin >= 0.0;
  }

  /** Negative orders raise nothing: with a non-negative service time they give at most zero drivers. */
  lemma AllocateNegative(expected: real, serviceMin: real)
    requires expected < 0.0 && serviceMin >= 0.0
    ensures AllocateDrivers(expected, serviceMin) <= 0
  {
    assert expected * serviceMin <= 0.0;
  }

  /** 30 orders at 20 minutes need 10 drivers; one more order needs an eleventh. */
  lemma AllocateExamples()
    ensures AllocateDrivers(30.0, 20.0) == 10
    ensures AllocateDrivers(31.0, 20.0) == 11
  {
    AllocateIsLeast(30.0, 20.0, 10);
    AllocateIsLeast(31.0, 20.0, 11);
  }

  /** One row of the saved driver plan: zone_id, date, hour, pred_orders, drivers_needed. */
  datatype PlanRow = PlanRow(zone: int, date: int, hour: int, predOrders: real, driversNeeded: int)

  /** The predictor, applied row by row to the feature columns. */
  type Predictor = FeatureVector -> real

  /**
   * The plan of `main`: the prediction of every row, then the drivers for
   * that prediction at the given service time, row for row.
   */
  function DriverPlan(agg: seq<FeatureRecord>, predict: Predictor, serviceMin: real): (plan: seq<PlanRow>)
    ensures |plan| == |agg|
    ensures forall i :: 0 <= i < |agg| ==>
      && plan[i].zone == agg[i].record.zone
      && plan[i].date == agg[i].record.date
      && plan[i].hour == agg[i].record.hour
      && plan[i].predOrders == predict(Vector(agg[i]))
      && plan[i].driversNeeded == AllocateDrivers(plan[i].predOrders, serviceMin)
  {
    seq(|agg|, i requires 0 <= i < |agg| =>
      var r := agg[i].record;
      var p := predict(Vector(agg[i]));
      PlanRow(r.zone, r.date, r.hour, p, AllocateDrivers(p, serviceMin)))
  }

  /**
   * Every row of the plan staffs its predicted demand, and by less than one
   * driver too many.
   */
  lemma PlanCoversPrediction(agg: seq<FeatureRecord>, predict: Predictor, serviceMin: real)
    ensures forall row :: row in DriverPlan(agg, predict, serviceMin) ==>
      && 60.0 * row.driversNeeded as real >= row.predOrders * serviceMin
      && 60.0 * (row.driversNeeded - 1) as real < row.predOrders * serviceMin
  {
    var plan := DriverPlan(agg, predict, serviceMin);
    forall row | row in plan
      ensures row.driversNeeded == AllocateDrivers(row.predOrders, serviceMin)
    {
      var i :| 0 <= i < |plan| && plan[i] == row;
    }
  }

  /** With non-negative predictions and service time, no row asks for a negative number of drivers. */
  lemma PlanNonNegative(agg: seq<FeatureRecord>, predict: Predictor, serviceMin: real)
    requires serviceMin >= 0.0
    requires forall v :: predict(v) >= 0.0
    ensures forall row :: row in DriverPlan(agg, predict, serviceMin) ==> row.driversNeeded >= 0
  {
    var plan := DriverPlan(agg, predict, serviceMin);
    forall row | row in plan ensures row.driversNeeded >= 0 {
      var i :| 0 <= i < |plan| && plan[i] == row;
      AllocateNonNegative(row.predOrders, serviceMin);
    }
  }
}
