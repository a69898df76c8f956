# PTRAIL spatial features and trajectory statistics in Dafny

This project models the core of PTRAIL, a library of features over trajectory
tables (rows of trajectory id, timestamp, latitude and longitude). Two parts are
modelled.

**Spatial features.** This part has four pieces:
- **Partitioned column builders.** Each one cuts the table into pieces that start at
  rows 0, 75001, 150002, … and runs a worker on every piece. It then concatenates the
  results in piece order and returns a new table.
- **Whole-table queries.** These are the bounding box, the start and end location,
  and the distance covered on one day.
- **Kinematic column builders.** Speed, acceleration and jerk are each a change
  divided by a `.dt.seconds` time delta. When the column below is missing, the
  builder computes that column first. When the column below is present, the new
  column is written into the caller's table.
- **Great-circle distance.** It is a parameter. The model relies only on three facts
  about it: it is non-negative, it is symmetric, and it is zero between equal points.

**Statistics.** This part has four pieces:
- **`NUM_CPU`.** The worker-count throttle.
- **Split by trajectory.** One chunk per trajectory id, in front of the statistics
  workers.
- **Re-indexing after week segmentation.**
- **The pivot.** It produces one row per trajectory, in first-appearance order. It
  takes the target from each trajectory's first row and joins header names with `_`,
  stripping `|` from both ends. It selects the columns through the shared
  `ORDERED_COLS` list. A call whose pivot loop and concatenation succeed appends
  the target name to that list. A call that fails before then, with a missing
  column in some trajectory or with no trajectories at all, leaves the list as it was.

The files are:
- `frames.dfy`: shared records, column names and the distance parameter.
- `partition.dfy`: partition, ordered merge and their round trips.
- `queries.dfy`: bounding box, start and end location, distance by date.
- `kinematics.dfy`: time deltas, the speed, acceleration and jerk columns, and the
  fallback chain as functions on values.
- `spatial_features.dfy`: the table object and the column builders that create or
  update it.
- `statistics.dfy`: everything from `statistics.py`.

## Model

| member | source | states |
|---|---|---|
| Partition.SplitIntoChunks | features/spatial_features.py:146-147 | The partition loop builds exactly the chunk list: chunk k is the label-inclusive slice starting at 75001·k. |
| Partition.Chunks | features/spatial_features.py:146-147 | The slices `loc[i : i + 75000]` for i = 0, 75001, …: none exactly for an empty table, and each one holds between 1 and 75001 rows. |
| Partition.MapChunks | features/spatial_features.py:152-153 | `pool.map` gives exactly one result per chunk. |
| Partition.MapChunksAppend | features/spatial_features.py:152-153 | The map keeps chunk order: mapping two chunk lists joined is joining their two maps. |
| Partition.Flatten | features/spatial_features.py:156 | `pd.concat` has as many rows as all the pieces together. |
| Partition.FlattenMembers | features/spatial_features.py:156 | A row is in the concatenation exactly when it is in one of the pieces. |
| Partition.ChunkShape | features/spatial_features.py:146-147 | There are ceil(n/75001) chunks. Chunk k is rows [75001k, min(75001k+75001, n)) and holds between 1 and 75001 rows. |
| Partition.NoChunksForEmptyTable | features/spatial_features.py:146-147 | There are no chunks exactly when the table is empty. |
| Partition.FlattenAppend | features/spatial_features.py:156 | Concatenating two lists of pieces is concatenating their concatenations. |
| Partition.ChunkEntry | features/spatial_features.py:146-147 | Row j of the table is entry j mod 75001 of chunk j div 75001. |
| Partition.FlattenChunkPrefix | features/spatial_features.py:152-156 | In the concatenation of chunk-shaped results, entry j comes from result j div 75001, at offset j mod 75001. |
| Partition.MergeIsChunkLocal | features/spatial_features.py:152-156 | Every merged row is the worker's output on that row's own chunk. A "previous row" worker therefore restarts at every chunk boundary. |
| Partition.MergeLength | features/spatial_features.py:152-156 | A worker that keeps chunk lengths gives one merged value per input row. |
| Partition.ChunksRoundTrip | features/spatial_features.py:146-156 | Concatenating the chunks in order gives back the table: no row is lost, duplicated or moved. |
| Partition.IdentityWorkerRoundTrip | features/spatial_features.py:146-156 | With the identity worker, partition-then-merge is the identity. |
| Partition.RowwiseMerge | features/spatial_features.py:301-306 | For a row-wise worker, mapping over any pieces and concatenating equals mapping over the concatenation. |
| Partition.RowwiseWorkerIgnoresPartition | features/spatial_features.py:296-306 | A row-wise worker (distance to a fixed point, range membership) gives the same column as if the table were not partitioned. |
| Queries.MinOf | features/spatial_features.py:46-47 | The minimum is at most every entry and is attained. |
| Queries.MaxOf | features/spatial_features.py:48-49 | The maximum is at least every entry and is attained. |
| Queries.GetBoundingBox | features/spatial_features.py:45-50 | Empty table gives None (pandas NaN). Otherwise every row lies inside the box and each of the four bounds is attained by some row. |
| Queries.ExtremeTime | features/spatial_features.py:81-82 | This is the minimum (or maximum) timestamp among the matching rows. It is None iff no row matches. |
| Queries.FirstAt | features/spatial_features.py:79 | Returns the first position, in table order, of a matching row with the given timestamp. |
| Queries.Locate | features/spatial_features.py:76-87 | KeyError iff no id is given and the table is empty. The message iff an id is given and absent. Otherwise the coordinates of the first row among the matching rows at the extreme timestamp. |
| Queries.GetStartLocation | features/spatial_features.py:76-87 | Same three outcomes as Locate. The returned row has the minimum timestamp among matching rows, and every earlier matching row has a strictly later timestamp. |
| Queries.GetEndLocation | features/spatial_features.py:110-121 | Same three outcomes as Locate. The returned row has the maximum timestamp among matching rows, and every earlier matching row has a strictly earlier timestamp. |
| Queries.FirstExtremeIsUnique | features/spatial_features.py:76-79 | Only one row can be the first at the extreme timestamp, so the answer is determined. |
| Queries.DayOf | features/spatial_features.py:216 | `.dt.date` of a timestamp: the day whose 86400 seconds contain it. |
| Queries.Select | features/spatial_features.py:215-217 | Keeps exactly the rows of the given day (and id, if given). |
| Queries.SelectAppend | features/spatial_features.py:215-217 | The filter keeps table order and multiplicity: filtering two runs one after the other is filtering each and joining the results. |
| Queries.SelectOne | features/spatial_features.py:216-217 | A single row is kept exactly when it is on that day and has that id (if given). |
| Queries.GetDistanceByDateAndTrajId | features/spatial_features.py:215-231 | The result is the path length of the selected rows: the sum of the distances between consecutive selected rows. |
| Queries.FillHops | features/spatial_features.py:224-229 | The array is 0 at index 0 and holds the hop from point i-1 to point i at index i. |
| Queries.SumHops | features/spatial_features.py:231 | Summing that array gives the path length. |
| Queries.PathLengthNonNegative | features/spatial_features.py:224-231 | The distance covered is never negative. |
| Queries.ShortPathIsZero | features/spatial_features.py:224-231 | Zero or one selected rows give 0. |
| Queries.PathLengthAppend | features/spatial_features.py:217-231 | Joining two runs adds the hop between them. Without an id, the sum does not reset between trajectories. |
| Queries.StationaryPathIsZero | features/spatial_features.py:224-231 | Points that never move give 0. |
| Kinematics.SecondsComponent | features/spatial_features.py:335 | `.dt.seconds` lies in [0, 86400) and differs from the difference by whole days. |
| Kinematics.TimeDelta | features/spatial_features.py:335 | `.diff().dt.seconds` at row i is undefined exactly at row 0. Elsewhere it lies in [0, 86400) and differs from the timestamp gap by whole days. |
| Kinematics.Diff | features/spatial_features.py:376 | `.diff()` at row i is defined exactly when i > 0 and both rows are defined. The previous value plus the difference gives the current value. |
| Kinematics.Divide | features/spatial_features.py:338 | The quotient is defined exactly when both operands are, and the delta is non-zero (NaN and inf become undefined). |
| Kinematics.DivideUndoes | features/spatial_features.py:338 | Multiplying a defined quotient back by the delta gives the numerator. |
| Kinematics.SecondsOfShortGap | features/spatial_features.py:335 | A gap under a day is measured exactly. |
| Kinematics.SecondsComponentDropsDays | features/spatial_features.py:335 | A gap of a day plus 10 s reads as 10 s, and a step back of 1 s reads as 86399 s. |
| Kinematics.SpeedColumn | features/spatial_features.py:334-338 | One value per row. Speed is defined exactly at rows i > 0 whose distance is defined and whose delta is non-zero. |
| Kinematics.SpeedTimesDeltaIsDistance | features/spatial_features.py:334-338 | Where speed is defined, speed × delta = distance. |
| Kinematics.RateColumn | features/spatial_features.py:376-379 | One value per row. Defined exactly where i > 0, both consecutive inputs are defined and the delta is non-zero. |
| Kinematics.RateTimesDeltaIsChange | features/spatial_features.py:413-416 | Where defined, rate × delta = change of the column since the previous row. |
| Kinematics.WithSpeed | features/spatial_features.py:329-353 | An existing distance column is reused; otherwise it is computed by the partitioned builder. Exactly distance and speed are added, speed is consistent with distance, and the other columns are unchanged. |
| Kinematics.WithAcceleration | features/spatial_features.py:372-390 | An existing speed column is reused. Otherwise speed is computed from the distance column, which is itself reused or, when missing, computed by the partitioned builder. Exactly acceleration is added (plus distance and speed when speed was missing), and the other columns are unchanged. |
| Kinematics.WithJerk | features/spatial_features.py:409-427 | An existing acceleration column is reused. Otherwise it is computed from speed, and speed from distance: each is reused when present, and a missing distance comes from the partitioned builder. Exactly jerk is added (plus the missing prerequisites), and every column that was present keeps its value. |
| Kinematics.LeadingRowsUndefined | features/spatial_features.py:413-416 | Built from scratch, speed is undefined at row 0, acceleration at rows 0-1 and jerk at rows 0-2. |
| Kinematics.JerkFallbackMatchesManualChain | features/spatial_features.py:409-427 | Jerk on a table without speed and acceleration equals speed, then acceleration, then jerk. |
| Kinematics.JerkIsIdempotent | features/spatial_features.py:409-416 | Asking for jerk again changes nothing. |
| SpatialFeatures.TrajFrame.SetColumn | features/spatial_features.py:338 | Assigning a column replaces that column only and keeps the rows. |
| SpatialFeatures.BuildPartitioned | features/spatial_features.py:146-157 | Returns a new table with the same rows. Existing columns are carried through, and the named column is the ordered merge of the worker over the chunks. |
| SpatialFeatures.CreateDistanceBetweenConsecutiveColumn | features/spatial_features.py:124-157 | New table whose Distance_prev_to_curr column is the partitioned merge of the consecutive-distance worker. |
| SpatialFeatures.CreateDistanceFromStartColumn | features/spatial_features.py:160-191 | New table with the worker's column merged over the chunks. |
| SpatialFeatures.CreatePointWithinRangeColumn | features/spatial_features.py:234-272 | New table with the worker's column merged over the chunks. Every chunk gets the same point and range. |
| SpatialFeatures.CreateDistanceFromGivenPointColumn | features/spatial_features.py:275-309 | New table with the worker's column merged over the chunks. Every chunk gets the same point. |
| SpatialFeatures.CreateSpeedFromPrevColumn | features/spatial_features.py:312-353 | Columns become WithSpeed of the old ones. With distance present, the caller's table is changed and returned. Otherwise a new table is returned and the caller's table is untouched. |
| SpatialFeatures.CreateAccelerationFromPrevColumn | features/spatial_features.py:356-390 | Columns become WithAcceleration of the old ones. The caller's table is changed in place iff speed or distance was present. |
| SpatialFeatures.CreateJerkFromPrevColumn | features/spatial_features.py:393-427 | Columns become WithJerk of the old ones. The caller's table is changed in place iff any prerequisite was present. |
| SpatialFeatures.JerkDirectVersusStepwise | features/spatial_features.py:393-427 | Calling the jerk builder directly and calling speed, acceleration and jerk in turn give the same columns. |
| Statistics.NumCpu | ptrail/preprocessing/statistics.py:24-25 | This is ceil(2n/3), and 1 ≤ NUM_CPU ≤ n for every n ≥ 1. |
| Statistics.RowsOf | ptrail/preprocessing/statistics.py:90 | Every kept row has the requested id, and no more rows than the table are kept. |
| Statistics.RowsNotOf | ptrail/preprocessing/statistics.py:90 | The complementary filter keeps only rows of other ids. |
| Statistics.RowsOfAppend | ptrail/preprocessing/statistics.py:90 | The filter keeps the rows' relative order and multiplicity: filtering two runs one after the other is filtering each and joining the results. |
| Statistics.RowsOfMembers | ptrail/preprocessing/statistics.py:90 | The filter keeps exactly that trajectory's rows, and its complement exactly the others. |
| Statistics.RowsOfNonEmpty | ptrail/preprocessing/statistics.py:87-90 | An id that occurs has a non-empty chunk. |
| Statistics.SplitByTrajectory | ptrail/preprocessing/statistics.py:88-91 | The loop builds one chunk per listed id, in list order, each that id's rows in table order. |
| Statistics.RowsOfSplitsMultiset | ptrail/preprocessing/statistics.py:90 | One id's rows and the other rows together are the table, as a multiset. |
| Statistics.RowsOfSkipsOtherIds | ptrail/preprocessing/statistics.py:90 | Removing one trajectory does not change any other trajectory's chunk. |
| Statistics.SplitByIdCons | ptrail/preprocessing/statistics.py:88-91 | The chunks after the first id are the chunks of the remaining rows. |
| Statistics.SplitTailCovered | ptrail/preprocessing/statistics.py:87-91 | After removing the first id, the remaining ids are distinct and cover the remaining rows. |
| Statistics.SplitIsPermutation | ptrail/preprocessing/statistics.py:87-91 | With distinct ids covering the table, the concatenated chunks are a permutation of the table. |
| Statistics.ChunksHoldOneTrajectory | ptrail/preprocessing/statistics.py:87-91 | Each chunk is non-empty and holds exactly its id's rows. |
| Statistics.ChunksAreDisjoint | ptrail/preprocessing/statistics.py:87-91 | Two different chunks share no row. |
| Statistics.GenerateKinematicStats | ptrail/preprocessing/statistics.py:83-102 | Fails with "no objects to concatenate" exactly when the id list is empty. Otherwise the result is the statistics helper applied to each id's chunk of the feature table, concatenated in id-list order. |
| Statistics.StatsFollowIdList | ptrail/preprocessing/statistics.py:97-102 | The k-th id's statistics form the k-th block of the result: id-list order, not table order. |
| Statistics.Without | ptrail/preprocessing/statistics.py:58-60 | Keeps exactly the names not dropped. |
| Statistics.WithoutAppend | ptrail/preprocessing/statistics.py:58-60 | Dropping keeps the remaining names' order and multiplicity: dropping from two lists joined is dropping from each and joining the results. |
| Statistics.SegmentLayout | ptrail/preprocessing/statistics.py:58-60 | Succeeds iff traj_id, seg_id, DateTime and index are all columns. On failure it is a KeyError naming a missing one. On success the index is (traj_id, seg_id, DateTime), and the columns are the rest minus index. |
| Statistics.SegmentTrajByWeek | ptrail/preprocessing/statistics.py:47-60 | Segmented rows in merge order, under the (traj_id, seg_id, DateTime) index. Each row keeps its id and every cell except `index`, and gains none. No chunks gives the "no objects to concatenate" error. Otherwise it fails exactly when the layout does, with the layout's error, and on success its layout is the one SegmentLayout computes. |
| Statistics.UniqueIds | ptrail/preprocessing/statistics.py:129 | Every id of the table appears once, in order of first appearance. |
| Statistics.UniqueIdsStep | ptrail/preprocessing/statistics.py:129 | One more row extends the first-appearance list by its id, unless that id was seen. |
| Statistics.LeadingBars | ptrail/preprocessing/statistics.py:143 | Counts exactly the leading '\|' characters. |
| Statistics.TrailingBars | ptrail/preprocessing/statistics.py:143 | Counts exactly the trailing '\|' characters. |
| Statistics.StripBars | ptrail/preprocessing/statistics.py:143 | The result is the middle of the name with every outer '\|' removed, and it neither starts nor ends with '\|'. |
| Statistics.JoinHeader | ptrail/preprocessing/statistics.py:143 | A joined name is no longer than the two levels and the '_', and neither starts nor ends with '\|'. |
| Statistics.JoinHeaderKeepsSeparator | ptrail/preprocessing/statistics.py:143 | The joined name keeps the '_' between the levels. It equals level1 + "_" + level2 when the outer ends have no '\|'. |
| Statistics.StripBarsIdempotent | ptrail/preprocessing/statistics.py:143 | Stripping twice is stripping once. |
| Statistics.IndexOf | ptrail/preprocessing/statistics.py:146 | Returns the first position of a column name, or the length when the name is absent. |
| Statistics.AssignColumn | ptrail/preprocessing/statistics.py:146 | After assigning, the target column exists and holds the value; every other column is unchanged. |
| Statistics.IndexOfAppend | ptrail/preprocessing/statistics.py:146 | Appending a column does not move an existing one. |
| Statistics.PivotInput | ptrail/preprocessing/statistics.py:139 | The literal "Species" cell is removed from every row, whatever the target is called; every other cell stays. |
| Statistics.JoinedChunkHeaders | ptrail/preprocessing/statistics.py:142-146 | After the target is assigned, every pivot entry not named like the target has its joined column, holding the cell of the first entry with that name. Every column other than the target is such a joined name. |
| Statistics.PivotGroup | ptrail/preprocessing/statistics.py:135-147 | KeyError(target) if the first row lacks the target, else KeyError("Species") if it lacks Species. Otherwise the target column holds the first row's value. Every other column is a joined pivot name, and every pivot entry not named like the target appears, holding the cell of the first entry with its name. |
| Statistics.AllGroupsNonEmpty | ptrail/preprocessing/statistics.py:133-135 | Every id from the table has a non-empty group. |
| Statistics.PivotLoop | ptrail/preprocessing/statistics.py:132-147 | A successful loop gives one chunk per group. |
| Statistics.PivotLoopError | ptrail/preprocessing/statistics.py:132-147 | A failed loop reports the error of one of its steps. |
| Statistics.PivotChunks | ptrail/preprocessing/statistics.py:129-147 | A successful loop over the ids gives one chunk per id. |
| Statistics.PivotErrorSticks | ptrail/preprocessing/statistics.py:133-147 | The first failing trajectory decides the error of the whole loop. |
| Statistics.PivotLoopResult | ptrail/preprocessing/statistics.py:132-147 | The loop succeeds iff every step does, and then holds every step's chunk in order. |
| Statistics.PivotChunksShape | ptrail/preprocessing/statistics.py:129-147 | Succeeds iff every first row has the target and Species. Then there is one chunk per id, in order, each carrying its first row's target value. A failure is a KeyError naming the target or "Species". |
| Statistics.SelectColumns | ptrail/preprocessing/statistics.py:150-158 | KeyError iff some listed column is in no chunk. Otherwise the listed columns in list order and one row per chunk, with NaN where a chunk lacks a column. |
| Statistics.FirstMissing | ptrail/preprocessing/statistics.py:158 | Finds the first listed column that no chunk has, or reports that all are present. |
| Statistics.OrderedCols.constructor | ptrail/preprocessing/statistics.py:154 | The shared column list starts with the given names. |
| Statistics.OrderedCols.Append | ptrail/preprocessing/statistics.py:155 | `cols.append(target)` grows the shared list by that name at the end. |
| Statistics.PivotStatsDf | ptrail/preprocessing/statistics.py:129-158 | A group error is returned with the shared list unchanged. No trajectories gives the "no objects to concatenate" error with the list unchanged. Otherwise the target is appended to the shared list and the grown list is selected. |
| Statistics.PivotEachTrajectory | ptrail/preprocessing/statistics.py:132-147 | The loop over the ids, with the per-trajectory body as a parameter, computes exactly the loop result over the id groups and stops at the first error. |
| Statistics.PivotCarriesTarget | ptrail/preprocessing/statistics.py:129-158 | On success the index is the first-appearance id list and the columns are ORDERED_COLS + [target]. The last column holds each trajectory's first-row target value. |
| Statistics.PivotTwice | ptrail/preprocessing/statistics.py:154-158 | Two calls through the same shared list: the second selects the target twice, so the column order changes between calls. When the first call succeeds, the second succeeds too. |

## Left out

- **Floating-point formulas.** The haversine formula is a parameter with three stated properties, not trigonometry on floats. IEEE NaN and infinity are modelled as `None` in derived columns and as `NaN` cells in statistics tables.
- **Concurrency.** `multiprocessing.Pool`, `map`/`starmap`, `close` and `join` are modelled as a sequential map that keeps order.
- **Per-chunk workers and helpers.** The workers, the split and segmentation helpers, the statistics helper and `generate_kinematic_features` are defined in files that are not part of this model. They are function parameters. Partitioned builders require only that a worker returns one value per row, and the consecutive-distance worker is taken to fill `Distance_prev_to_curr`.
- **pandas internals.**
  - The mean aggregation of `pivot_table` is the parameter `pivotTable`.
  - The id list from `value_counts` is an input that must be distinct, complete and ordered by non-increasing count; tie order is pandas' choice.
  - The `reset_index`/`set_index` mechanics are reduced to column lists.
- **Dates and CPU count.** Date parsing is reduced to a day number, `time div 86400`, for timestamps in whole seconds. `os.cpu_count()` is the parameter of `NumCpu`.
- **Frame wrappers.** Building `NumPandasTraj`/`PTRAILDataFrame` objects is reduced to the `TrajFrame` class. Its derived columns are `Option<real>`, including the flag column of the within-range builder.
- **Bearing builders.** `create_bearing_column`, `create_bearing_rate_column` and `create_rate_of_bearing_rate_column` are empty stubs.
- Statistics.NumCpu: `os.cpu_count()` returning `None` (a `TypeError` in the source) is not modelled. The count is a `nat`.
- Statistics.SegmentLayout: pandas' `set_index` reports all missing keys in one `KeyError` message. The model names only the first missing key, checked in the order traj_id, seg_id, DateTime, index.
- Statistics.PivotGroup: the source checks that the target and "Species" columns exist in the whole table. The model checks the first row of the group, which is the same for a rectangular table.
- Statistics.PivotStatsDf: the empty-table error is pandas' `ValueError` "No objects to concatenate". It is the `NoObjectsToConcatenate` case. Duplicate column names produced by the pivot are not modelled beyond "first occurrence wins".
- Queries.GetBoundingBox: on an empty table pandas gives a tuple of NaNs. The model returns `None`.
- SpatialFeatures.BuildPartitioned: on an empty table the source fails. `multiprocessing.Pool(len(chunks))` with no chunks raises `ValueError`, and so would `pd.concat([])` (features/spatial_features.py:146-156 and the same lines in the other three partitioned builders). The model returns a new empty table instead. The same holds for the builders that fall back on it: CreateSpeedFromPrevColumn, CreateAccelerationFromPrevColumn and CreateJerkFromPrevColumn, and WithSpeed, WithAcceleration and WithJerk.
- Statistics.SelectColumns: pandas' `KeyError` for `to_return[cols]` lists every missing column. The model names only the first missing one, in list order.
- Queries.GetEndLocation: the comment at features/spatial_features.py:105-106 says the last latitude and longitude at the latest time are returned. The code at lines 113 and 121 takes `[0]`, the first row at that time, and the model follows the code.
