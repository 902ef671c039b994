/**
 * The raw order events of the pipeline: one row of the input table with
 * columns order_id, order_ts, lat, lon, items, prep_time_min, temperature_c,
 * is_rain and the optional zone_id.
 */
module Orders {
  import opened Wrappers

  /** A minute of the day, 00:00 to 23:59. */
  type MinuteOfDay = m: int | 0 <= m < 1440

  /**
   * An already-decoded `order_ts`: the day number counted from 1970-01-01
   * (negative before it) and the minute within that day.
   */
  datatype Timestamp = Timestamp(day: int, minute: MinuteOfDay)

  /**
   * One order event. `zone` is None when the zone_id cell is missing or the
   * column is absent altogether; both take the same path through the zoner.
   */
  datatype Order = Order(
    orderId: int,
    ts: Timestamp,
    lat: real,
    lon: real,
    items: int,
    prepMin: real,
    temperature: real,
    isRain: int,
    zone: Option<int>)
}
