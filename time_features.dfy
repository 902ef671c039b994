/**
 * Calendar features of an order's timestamp (`parse_ts`): the date, the hour
 * of day, the day of week with Monday as 0, and the weekend flag.
 */
module TimeFeatures {
  import opened Orders

  /** An order together with the columns `parse_ts` adds to its row. */
  datatype TimedOrder = TimedOrder(order: Order, date: int, hour: int, dow: int, isWeekend: int)

  /** Day of week, Monday = 0; day 0 (1970-01-01) was a Thursday. */
  function DayOfWeek(day: int): (d: int)
    ensures 0 <= d < 7
    ensures (day - d) % 7 == 4
  {
    (day + 3) % 7
  }

  /** The weekend flag as an integer column: 1 on Saturday and Sunday. */
  function WeekendFlag(day: int): (w: int)
    ensures w == 0 || w == 1
    ensures w == 1 <==> DayOfWeek(day) in {5, 6}
  {
    if DayOfWeek(day) >= 5 then 1 else 0
  }

  /** The time features of one row. */
  function Timed(o: Order): (t: TimedOrder)
    ensures t.order == o && t.date == o.ts.day
    ensures 0 <= t.hour < 24 && t.hour * 60 <= o.ts.minute < t.hour * 60 + 60
    ensures t.dow == DayOfWeek(o.ts.day)
    ensures t.isWeekend == WeekendFlag(o.ts.day)
  {
    TimedOrder(o, o.ts.day, o.ts.minute / 60, DayOfWeek(o.ts.day), WeekendFlag(o.ts.day))
  }

  /**
   * `parse_ts`: a copy of the table with the time columns added to every
   * row; the input rows and their own columns are kept as they are.
   */
  function ParseTs(rows: seq<Order>): (r: seq<TimedOrder>)
    ensures |r| == |rows|
    ensures forall i :: 0 <= i < |rows| ==> r[i].order == rows[i] && r[i] == Timed(rows[i])
  {
    seq(|rows|, i requires 0 <= i < |rows| => Timed(rows[i]))
  }

  /** The day after any day is the next day of the week, Sunday wrapping to Monday. */
  lemma NextDayOfWeek(day: int)
    ensures DayOfWeek(day + 1) == if DayOfWeek(day) == 6 then 0 else DayOfWeek(day) + 1
  {
  }

  /** Every seven consecutive days hold exactly one Saturday and one Sunday. */
  lemma {:induction false} WeekendsPerWeek(day: int)
    ensures WeekendFlag(day) + WeekendFlag(day + 1) + WeekendFlag(day + 2) + WeekendFlag(day + 3)
          + WeekendFlag(day + 4) + WeekendFlag(day + 5) + WeekendFlag(day + 6) == 2
  {
    NextDayOfWeek(day);
    NextDayOfWeek(day + 1);
    NextDayOfWeek(day + 2);
    NextDayOfWeek(day + 3);
    NextDayOfWeek(day + 4);
    NextDayOfWeek(day + 5);
  }
}
