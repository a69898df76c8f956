/** The column builders of SpatialFeatures over a trajectory table object.

    The four partitioned builders cut the table into chunks, run a worker on each
    chunk and return a NEW table built from the concatenated results. The speed,
    acceleration and jerk builders instead assign their column INTO the table they
    are given when its prerequisite column is there (the caller sees the change);
    when it is missing they call the builder below, which hands back a new table,
    and the caller's table is left as it was. */
module SpatialFeatures {
  import opened Frames
  import opened Partition
  import opened Kinematics

  /** A NumPandasTraj: rows in table order plus the derived columns. */
  class TrajFrame {
    var rows: seq<Row>
    var columns: Columns

    ghost predicate Valid()
      reads this
    {
      ValidColumns(rows, columns)
    }

    constructor (rows: seq<Row>, columns: Columns)
      requires ValidColumns(rows, columns)
      ensures Valid() && this.rows == rows && this.columns == columns
    {
      this.rows := rows;
      this.columns := columns;
    }

    /** `dataframe[name] = values.to_numpy()`. */
    method SetColumn(name: string, values: Column)
      requires Valid() && |values| == |rows|
      modifies this
      ensures Valid() && rows == old(rows) && columns == old(columns)[name := values]
    {
      columns := columns[name := values];
    }
  }

  /** A helper that also receives the broadcast reference point (and range), as
      `zip(chunks, itertools.repeat(...))` passes them. */
  function WithPoint(helper: (seq<Row>, real, real) -> Column, lat: real, lon: real): seq<Row> -> Column
  {
    c => helper(c, lat, lon)
  }

  function WithPointAndRange(helper: (seq<Row>, real, real, real) -> Column, lat: real, lon: real, distRange: real)
    : seq<Row> -> Column
  {
    c => helper(c, lat, lon, distRange)
  }

  /** The body shared by the partitioned builders: split into 75001-row chunks,
      map the worker over them in order, concatenate. The columns already in the
      table travel through the same slicing and concatenation. */
  method BuildPartitioned(df: TrajFrame, name: string, worker: seq<Row> -> Column) returns (r: TrajFrame)
    requires df.Valid() && PreservesLength(worker)
    ensures fresh(r) && r.Valid()
    ensures r.rows == df.rows
    ensures r.columns == df.columns[name := PartitionMapMerge(df.rows, worker)]
  {
    var chunks := SplitIntoChunks(df.rows);
    var merged := Flatten(MapChunks(chunks, worker));
    var carried := map c | c in df.columns :: Flatten(Chunks(df.columns[c]));
    forall c | c in df.columns
      ensures carried[c] == df.columns[c]
    {
      ChunksRoundTrip(df.columns[c]);
    }
    assert carried == df.columns;
    ChunksRoundTrip(df.rows);
    MergeLength(df.rows, worker);
    r := new TrajFrame(Flatten(chunks), carried[name := merged]);
  }

  /** create_distance_between_consecutive_column: the worker writes Distance_prev_to_curr. */
  method CreateDistanceBetweenConsecutiveColumn(df: TrajFrame, consecutive: seq<Row> -> Column)
    returns (r: TrajFrame)
    requires df.Valid() && PreservesLength(consecutive)
    ensures fresh(r) && r.Valid() && r.rows == df.rows
    ensures r.columns == df.columns[DIST_PREV := PartitionMapMerge(df.rows, consecutive)]
  {
    r := BuildPartitioned(df, DIST_PREV, consecutive);
  }

  /** create_distance_from_start_column; `name` is the column its worker writes. */
  method CreateDistanceFromStartColumn(df: TrajFrame, name: string, fromStart: seq<Row> -> Column)
    returns (r: TrajFrame)
    requires df.Valid() && PreservesLength(fromStart)
    ensures fresh(r) && r.Valid() && r.rows == df.rows
    ensures r.columns == df.columns[name := PartitionMapMerge(df.rows, fromStart)]
  {
    r := BuildPartitioned(df, name, fromStart);
  }

  /** create_point_within_range_column: every chunk gets the same coordinates and range. */
  method CreatePointWithinRangeColumn(df: TrajFrame, lat: real, lon: real, distRange: real, name: string,
                                      helper: (seq<Row>, real, real, real) -> Column)
    returns (r: TrajFrame)
    requires df.Valid() && PreservesLength(WithPointAndRange(helper, lat, lon, distRange))
    ensures fresh(r) && r.Valid() && r.rows == df.rows
    ensures r.columns == df.columns[name := PartitionMapMerge(df.rows, WithPointAndRange(helper, lat, lon, distRange))]
  {
    r := BuildPartitioned(df, name, WithPointAndRange(helper, lat, lon, distRange));
  }

  /** create_distance_from_given_point_column: every chunk gets the same coordinates. */
  method CreateDistanceFromGivenPointColumn(df: TrajFrame, lat: real, lon: real, name: string,
                                            helper: (seq<Row>, real, real) -> Column)
    returns (r: TrajFrame)
    requires df.Valid() && PreservesLength(WithPoint(helper, lat, lon))
    ensures fresh(r) && r.Valid() && r.rows == df.rows
    ensures r.columns == df.columns[name := PartitionMapMerge(df.rows, WithPoint(helper, lat, lon))]
  {
    r := BuildPartitioned(df, name, WithPoint(helper, lat, lon));
  }

  /** create_speed_from_prev_column. */
  method CreateSpeedFromPrevColumn(df: TrajFrame, consecutive: seq<Row> -> Column) returns (r: TrajFrame)
    requires df.Valid() && PreservesLength(consecutive)
    modifies df
    ensures r.Valid() && r.rows == old(df.rows)
    ensures r.columns == WithSpeed(old(df.rows), old(df.columns), consecutive)
    ensures DIST_PREV in old(df.columns) ==> r == df
    ensures DIST_PREV !in old(df.columns) ==> fresh(r) && unchanged(df)
  {
    if DIST_PREV in df.columns {
      df.SetColumn(SPEED_PREV, SpeedColumn(df.rows, df.columns[DIST_PREV]));
      r := df;
    } else {
      r := CreateDistanceBetweenConsecutiveColumn(df, consecutive);
      r.SetColumn(SPEED_PREV, SpeedColumn(r.rows, r.columns[DIST_PREV]));
    }
  }

  /** create_acceleration_from_prev_column. */
  method CreateAccelerationFromPrevColumn(df: TrajFrame, consecutive: seq<Row> -> Column) returns (r: TrajFrame)
    requires df.Valid() && PreservesLength(consecutive)
    modifies df
    ensures r.Valid() && r.rows == old(df.rows)
    ensures r.columns == WithAcceleration(old(df.rows), old(df.columns), consecutive)
    ensures SPEED_PREV in old(df.columns) || DIST_PREV in old(df.columns) ==> r == df
    ensures SPEED_PREV !in old(df.columns) && DIST_PREV !in old(df.columns) ==> fresh(r) && unchanged(df)
  {
    if SPEED_PREV in df.columns {
      df.SetColumn(ACCELERATION_PREV, RateColumn(df.rows, df.columns[SPEED_PREV]));
      r := df;
    } else {
      r := CreateSpeedFromPrevColumn(df, consecutive);
      r.SetColumn(ACCELERATION_PREV, RateColumn(r.rows, r.columns[SPEED_PREV]));
    }
  }

  /** create_jerk_from_prev_column. */
  method CreateJerkFromPrevColumn(df: TrajFrame, consecutive: seq<Row> -> Column) returns (r: TrajFrame)
    requires df.Valid() && PreservesLength(consecutive)
    modifies df
    ensures r.Valid() && r.rows == old(df.rows)
    ensures r.columns == WithJerk(old(df.rows), old(df.columns), consecutive)
    ensures ACCELERATION_PREV in old(df.columns) || SPEED_PREV in old(df.columns) || DIST_PREV in old(df.columns)
      ==> r == df
    ensures ACCELERATION_PREV !in old(df.columns) && SPEED_PREV !in old(df.columns) && DIST_PREV !in old(df.columns)
      ==> fresh(r) && unchanged(df)
  {
    if ACCELERATION_PREV in df.columns {
      df.SetColumn(JERK_PREV, RateColumn(df.rows, df.columns[ACCELERATION_PREV]));
      r := df;
    } else {
      r := CreateAccelerationFromPrevColumn(df, consecutive);
      r.SetColumn(JERK_PREV, RateColumn(r.rows, r.columns[ACCELERATION_PREV]));
    }
  }

  /** Calling the jerk builder on a table without speed and acceleration yields the
      same columns as calling the speed, acceleration and jerk builders in turn. */
  method JerkDirectVersusStepwise(rows: seq<Row>, cols: Columns, consecutive: seq<Row> -> Column)
    returns (direct: Columns, stepwise: Columns)
    requires ValidColumns(rows, cols) && PreservesLength(consecutive)
    requires SPEED_PREV !in cols && ACCELERATION_PREV !in cols
    ensures direct == stepwise
    ensures JERK_PREV in direct && |direct[JERK_PREV]| == |rows|
  {
    JerkFallbackMatchesManualChain(rows, cols, consecutive);
    var first := new TrajFrame(rows, cols);
    var j1 := CreateJerkFromPrevColumn(first, consecutive);
    direct := j1.columns;
    var second := new TrajFrame(rows, cols);
    var s := CreateSpeedFromPrevColumn(second, consecutive);
    var a := CreateAccelerationFromPrevColumn(s, consecutive);
    var j2 := CreateJerkFromPrevColumn(a, consecutive);
    stepwise := j2.columns;
  }
}
