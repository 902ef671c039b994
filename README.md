# Food-delivery demand pipeline: table logic and driver allocation in Dafny

This project models the deterministic core of a food-delivery demand pipeline.
Raw order events get time features (`parse_ts`). They are assigned to delivery
zones (`build_zones`), either from the zone ids they already carry or by
k-means clustering of their positions. Next they are aggregated per
(zone, date, hour) (`zone_hour_aggregate`) and split by date into training and
test tables (`split_train_test`). Finally, for every zone-hour, the predicted
order count becomes a number of drivers (`allocate_drivers` and the per-row
plan in `main`).

Modules, one per concern of the source:

- `Wrappers`: `Option`, a cell that may be missing.
- `Ordering`: strict total orders. It also defines the sorted, duplicate-free
  sequences that `sorted(x.unique())` and a `groupby`'s keys produce.
- `Stats`: group selection, column projection, sum, mean, minimum and maximum.
- `Orders`: the raw order event. A timestamp is an already-decoded pair: the
  day number since 1970-01-01 and the minute of the day.
- `TimeFeatures`: `parse_ts`.
- `Zoning`: `build_zones`. The k-means library is a function parameter.
- `Aggregation`: `zone_hour_aggregate`. A method does one grouping pass into a
  map accumulator, then emits the records in key order. It is proved against
  `SummaryOf`, the record pandas computes for a group.
- `Partition`: `split_train_test`, generic over the row type.
- `Features`: the predictor's input columns. It records the missing
  `is_weekend` column (see Findings) and supplies the corrected weekend flag.
- `Allocation`: `allocate_drivers` and the driver plan.

Numbers are exact `real`s where the code uses floats. `parse_ts`,
`build_zones` and `split_train_test` work on a copy of their table and change
nothing the caller can see, so they are modelled as functions from tables to
tables. The aggregation's fold over the rows is a loop.

The system's design description lists `is_weekend` among the fields of an
aggregated zone-hour record. The code does not produce that column, and the
model follows the code.

The design description also says that with too few dates the test set is
"the latest date's records". The code splits off only the last row, whatever
its date. The model follows the code.

## Model

| member | source | states |
|---|---|---|
| TimeFeatures.DayOfWeek | utils.py:30 | the day of week is in [0, 7) (0 = Monday) and agrees with the calendar modulo 7 (day 0, 1970-01-01, is a Thursday) |
| TimeFeatures.WeekendFlag | utils.py:31 | the flag is 0 or 1, and 1 exactly when the day of week is 5 or 6 |
| TimeFeatures.Timed | utils.py:28-31 | a row keeps its order unchanged; date is its day; hour is in [0, 23] and holds the minute; dow and is_weekend come from the day |
| TimeFeatures.ParseTs | utils.py:25-32 | one output row per input row, in order, each the input row with its time features added |
| TimeFeatures.NextDayOfWeek | utils.py:30 | consecutive days have consecutive days of week, Sunday wrapping to Monday |
| TimeFeatures.WeekendsPerWeek | utils.py:30-31 | any seven consecutive days hold exactly two weekend days |
| Zoning.ZoneIds | utils.py:40 | a zone id is listed exactly when some row carries it |
| Zoning.MeanCentre | utils.py:42 | a zone's centre carries its id, and its latitude and longitude each lie between the smallest and the largest of that zone's rows |
| Zoning.MeanCentresByZone | utils.py:42-43 | centres come one per distinct non-missing zone id, in ascending id order, each the mean position of that zone's rows |
| Zoning.BuildZones | utils.py:34-55 | with zone ids present, rows come back unchanged and centres are the ascending per-zone mean positions; otherwise every row gets its k-means label in [0, n_zones) and nothing else changes, and the centre table has n_zones rows with ids 0..n_zones-1 at the k-means centroids |
| Zoning.EveryZoneHasCentre | utils.py:40-54 | on either path, every zone id a row carries afterwards has a row in the centre table |
| Zoning.CentresIgnoreRowOrder | utils.py:42-43 | with zone ids present, any permutation of the input rows yields the same centre table |
| Zoning.MeanCentrePermutation | utils.py:42-43 | a zone's mean position does not depend on the order of the rows |
| Ordering.Insert | utils.py:84 | inserting into a sorted duplicate-free sequence keeps it sorted, adds exactly the new element, and leaves it unchanged if the element was there |
| Ordering.SortedDistinct | utils.py:84 | `sorted(unique())` is strictly ascending and holds exactly the elements of the input |
| Ordering.SortedUnique | utils.py:84 | two strictly sorted sequences with the same elements are equal |
| Ordering.DistinctCard | utils.py:84 | a duplicate-free sequence has as many elements as its set of elements |
| Stats.Select | utils.py:63 | a group holds exactly the rows with its key and is no longer than the table |
| Stats.MeanWithinRange | utils.py:67-69 | the mean of a non-empty column lies between its minimum and its maximum |
| Stats.SumProjectPermutation | utils.py:67-69 | a column's sum does not depend on the order of the rows |
| Stats.SelectPermutation | utils.py:63 | permuting a table permutes each of its groups |
| Aggregation.KeyLessIsStrictTotalOrder | utils.py:61-63 | the (zone_id, date, hour) order of the grouped output is a strict total order |
| Aggregation.PeakFlag | utils.py:75 | is_peak_hour is 0 or 1, and 1 exactly when the hour is 12, 13, 19, 20 or 21 |
| Aggregation.Buckets | utils.py:61-63 | a key is a bucket exactly when some row with a zone id has that zone, date and hour |
| Aggregation.AllZonedBuckets | utils.py:61-64 | when every row has a zone id, every row contributes one group key |
| Aggregation.GroupNonEmpty | utils.py:61-63 | a key's group is non-empty exactly when the key is a bucket of the table |
| Aggregation.TallySums | utils.py:64-70 | the running tally of a group holds its row count, the sums of items, prep time and temperature, and the maximum rain flag |
| Aggregation.ScanGroups | utils.py:61-73 | after one pass, the keys are strictly ascending, they are exactly the keys of the accumulator, and every key of a non-empty group holds that group's tally |
| Aggregation.ScanRow | utils.py:61-70 | one row of the grouping pass keeps the keys ascending and in step with the accumulator, and the tallies those of the rows seen so far plus this one |
| Aggregation.EmitRecords | utils.py:63-73 | one record per key, in key order, each the summary of its group |
| Aggregation.ZoneHourAggregate | utils.py:57-78 | one record per distinct (zone, date, hour) present, strictly ascending by key, each with orders >= 1 and equal to the count, means, rain maximum and peak flag of its group; the orders column sums to the number of rows with a zone id |
| Aggregation.SummaryOf | utils.py:64-75 | the record of a non-empty group carries the group's key and its row count, at least 1 |
| Aggregation.SummaryDescribesGroup | utils.py:64-75 | a group's record carries its key and row count, means between the group's minimum and maximum, the largest rain flag of the group, and the peak flag of its hour |
| Aggregation.SummaryKeyAndCount | utils.py:64-75 | a group's record carries its key, orders equal to the group size and at least 1, and the peak flag of its hour; every row of the group has that zone, date and hour |
| Aggregation.SummaryMeans | utils.py:67-69 | avg_items, avg_prep and temperature_c each lie between the group's smallest and largest value |
| Aggregation.RainMaxOfRows | utils.py:70 | the maximum rain flag is the flag of some row and no smaller than any row's |
| Aggregation.TotalIsCountOver | utils.py:65 | the orders column sums to the sizes of the records' groups |
| Aggregation.OrdersConserved | utils.py:65 | over the distinct keys present, the group sizes add up to the number of rows with a zone id |
| Partition.AllDates | utils.py:84 | the distinct dates are strictly ascending, and a date is listed exactly when some row has it |
| Partition.FilterMembers | utils.py:88-89 | the train filter keeps exactly the rows dated before the cutoff; the test filter keeps those from it on |
| Partition.Before | utils.py:88 | the train filter is never longer than the table, and every row it keeps is dated before the cutoff |
| Partition.From | utils.py:89 | every row the test filter keeps is dated on or after the cutoff, and the two filters together are exactly as long as the table |
| Partition.CutIndex | utils.py:87 | the cutoff index is in range; it is test_days from the end, or 0 when test_days is 0 (Python's index -0) |
| Partition.SplitTrainTest | utils.py:80-90 | train and test together are exactly as long as the table, and a non-empty table always leaves a non-empty test set |
| Partition.InterleavesIsPartition | utils.py:88-89 | an interleaving divides the rows: the two sides add up, as multisets, to the table |
| Partition.FiltersInterleave | utils.py:88-89 | the two date filters of one cutoff split the table, each side in table order |
| Partition.SplitIsOrderedPartition | utils.py:80-90 | on every branch, train and test are disjoint, together hold every row, and keep table order |
| Partition.SplitSeparatesDates | utils.py:87-89 | with more distinct dates than test_days, every training date is earlier than every test date |
| Partition.FromDates | utils.py:87-89 | the rows from the m-th distinct date on carry exactly the distinct dates from there on |
| Partition.SplitTestDates | utils.py:84-89 | with more distinct dates than test_days >= 1, the test rows carry exactly the last test_days distinct dates, and that many |
| Partition.SplitZeroTestDays | utils.py:87-89 | test_days = 0 on a non-empty table puts every row in test and none in train |
| Partition.SplitFewDates | utils.py:85-86 | with no more distinct dates than test_days, test is the single last row and train all the rows before it |
| Partition.BeforeOnOrderedTable | utils.py:88 | on a table already ordered around the cutoff at position k, train is the first k rows |
| Partition.FromOnOrderedTable | utils.py:89 | on a table already ordered around the cutoff at position k, test is the rows from position k on |
| Partition.FiveDaysTwoForTest | utils.py:80-90 | five ascending dates with two test days: the first three rows train, the last two test |
| Features.MissingColumns | predict_and_allocate.py:20 | the missing columns are exactly those asked for and absent from the table |
| Features.SelectColumns | predict_and_allocate.py:20 | selection succeeds exactly when every wanted column is present and then yields them in the order asked; otherwise the error names exactly the absent ones |
| Features.MissingColumnsDistinct | predict_and_allocate.py:20 | a column asked for once is reported missing at most once |
| Features.FeatureSelectionAsWritten | predict_and_allocate.py:20 | selecting `FEATURES` from the aggregated table as written fails, naming only `is_weekend` |
| Features.FeatureSelectionCorrected | predict_and_allocate.py:20 | once the weekend flag is added, every feature column is present and the selection succeeds |
| Features.WithWeekend | utils.py:30-31 | the corrected record keeps the aggregated record and adds a 0/1 flag that is 1 exactly when its date falls on Saturday or Sunday |
| Features.WithWeekends | utils.py:57-78 | the corrected table has one record per aggregated record, in order |
| Features.WeekendAgreesWithGroup | utils.py:31 | the added flag equals the is_weekend of every order in the record's group |
| Features.Vector | predict_and_allocate.py:9-10 | the feature vector carries the record's hour, weekend flag, peak flag, means and rain flag |
| Allocation.Ceil | predict_and_allocate.py:13 | the ceiling is at least x and less than x + 1 |
| Allocation.AllocateDrivers | predict_and_allocate.py:12-13 | d drivers cover the demand (60·d >= orders·minutes), and d - 1 would not |
| Allocation.AllocateIsLeast | predict_and_allocate.py:13 | no smaller whole number of drivers covers the demand |
| Allocation.AllocateMonotone | predict_and_allocate.py:13 | for a non-negative service time, more expected orders never yield fewer drivers |
| Allocation.AllocateZero | predict_and_allocate.py:13 | zero expected orders need zero drivers |
| Allocation.AllocateNonNegative | predict_and_allocate.py:13 | non-negative orders and service time give a non-negative count |
| Allocation.AllocateNegative | predict_and_allocate.py:12-13 | negative expected orders raise nothing and, with a non-negative service time, give at most zero drivers |
| Allocation.AllocateExamples | predict_and_allocate.py:13 | (30, 20) gives 10 drivers and (31, 20) gives 11 |
| Allocation.DriverPlan | predict_and_allocate.py:20-22 | built on the corrected table (`Features.WithWeekends`), since on the table as written the feature selection fails before any plan exists: one plan row per aggregated row, in order, keeping its zone, date and hour, holding its prediction and the drivers allocated for that prediction |
| Allocation.PlanCoversPrediction | predict_and_allocate.py:22 | every plan row staffs its predicted demand with less than one driver to spare |
| Allocation.PlanNonNegative | predict_and_allocate.py:22 | with non-negative predictions and service time, no plan row asks for a negative number of drivers |

## Left out

- Timestamp parsing (`pd.to_datetime`, utils.py:27) is not modelled. Timestamps arrive as a day number and a minute of the day. Time zones and sub-minute precision are not modelled.
- The k-means fitting (utils.py:47-48) is a library call. `Zoning.BuildZones` takes it as a parameter and relies only on this: one label in [0, n_zones) per row and n_zones centroids. Its precondition also requires 1 <= n_zones <= number of rows, below which the library raises.
- `sin_hour` and `cos_hour` (utils.py:76-77) are transcendental float functions of the hour, so they are not modelled. `Features.Vector` carries the hour instead, which determines them.
- `Allocation.AllocateDrivers`: computes in exact reals, not IEEE doubles. A product that rounds just above or below an integer can differ by one driver, and `int(math.ceil(nan))` / `math.ceil(inf)` raise in Python. Neither is modelled.
- `Allocation.DriverPlan`: the predictor is an opaque function applied row by row. A predictor whose output for a row depends on other rows of the batch is not captured. The fitted model itself and its unpickling (predict_and_allocate.py:17-20) are not modelled.
- `Aggregation.ZoneHourAggregate`: a missing `zone_id` column and a missing zone id in a cell are both `None`. On a table without the column, pandas' `groupby` raises a missing-column error; the model instead returns an empty table with no orders. The pipeline only aggregates the output of `build_zones`, which always has the column.
- `Stats.MeanWithinRange`: holds for exact reals only. With IEEE doubles a rounded mean can fall just outside [min, max], e.g. (0.1 + 0.1 + 0.1) / 3 > 0.1.
- `Aggregation.SummaryMeans`: its bounds on the three means hold for exact reals only, for the same rounding reason.
- `Zoning.CentresIgnoreRowOrder`: holds for exact reals only. A floating-point sum depends on the order of its terms, so a float centre can change in its last bits when the rows are reordered.
- `Zoning.MeanCentrePermutation`: holds for exact reals only, for the same reason.
- `Zoning.MeanCentre`: its bounds hold for exact reals only, as for `Stats.MeanWithinRange`.
- `Partition.SplitTrainTest` takes `test_days` as a natural number. A negative `test_days` (Python then indexes from the front) is not modelled.
- Missing numeric cells are not modelled: pandas `mean`/`max` skip NaN and `count` skips a missing `order_id`. All numeric cells and order ids are present.
- Rows with a missing zone id fall out of the grouping, as pandas drops missing group keys. The conservation law therefore counts the rows that have a zone id.
- The CSV reads and writes, the plotting of mean demand by hour, and the printed messages (predict_and_allocate.py:16-45) are I/O, so they are not modelled. The `preprocess.py`, `train_model.py`, `simulate_data.py` and `visualize_map.py` scripts are glue, training and data generation, so they are not part of this model. Only their column lists and calls informed the Findings.

## Findings

| source | as written | input that shows it | evidently intended | confidence | as-written member | corrected member |
|---|---|---|---|---|---|---|
| utils.py:62-77 | the aggregated table has columns zone_id, date, hour, orders, avg_items, avg_prep, temperature_c, is_rain, is_peak_hour, sin_hour, cos_hour, and no is_weekend; predict_and_allocate.py:20 (and train_model.py:19-20) select `FEATURES`, which lists is_weekend (predict_and_allocate.py:9-10) | any order table: `agg[FEATURES]` on the aggregated table raises a missing-column error naming is_weekend | the aggregated table carries each record's weekend flag, the flag every order of its group has after `parse_ts` | high; not executed | Features.FeatureSelectionAsWritten | Features.FeatureSelectionCorrected |
