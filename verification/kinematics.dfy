/** The kinematic column chain of SpatialFeatures as values: time deltas taken
    with `.dt.seconds`, speed = distance / delta, acceleration and jerk = change of
    the column below / delta, and the fallback that computes a missing
    prerequisite column before the requested one. */
module Kinematics {
  import opened Frames
  import Partition

  const SECONDS_PER_DAY: int := 86400

  type Columns = map<string, Column>

  /** Every column has one entry per row. */
  ghost predicate ValidColumns(rows: seq<Row>, cols: Columns)
  {
    forall c :: c in cols ==> |cols[c]| == |rows|
  }

  /** `Timedelta.seconds` of a difference of whole seconds: the seconds-within-day
      component. Whole days are dropped and a negative difference borrows a day. */
  function SecondsComponent(delta: int): (s: int)
    ensures 0 <= s < SECONDS_PER_DAY
    ensures (delta - s) % SECONDS_PER_DAY == 0
  {
    delta % SECONDS_PER_DAY
  }

  /** `DateTime.diff().dt.seconds` at row i: NaT at row 0. */
  function TimeDelta(rows: seq<Row>, i: nat): (dt: Option<int>)
    requires i < |rows|
    ensures dt.None? <==> i == 0
    ensures dt.Some? ==>
      (0 <= dt.value < SECONDS_PER_DAY && (rows[i].time - rows[i - 1].time - dt.value) % SECONDS_PER_DAY == 0)
  {
    if i == 0 then None else Some(SecondsComponent(rows[i].time - rows[i - 1].time))
  }

  /** Float division of a column entry by a time delta; NaN and inf are None. */
  function Divide(num: Option<real>, dt: Option<int>): (q: Option<real>)
    ensures q.Some? <==> num.Some? && dt.Some? && dt.value != 0
  {
    if num.Some? && dt.Some? && dt.value != 0 then Some(num.value / dt.value as real) else None
  }

  /** `column.diff()` at row i. */
  function Diff(col: Column, i: nat): (d: Option<real>)
    requires i < |col|
    ensures d.Some? <==> i > 0 && col[i].Some? && col[i - 1].Some?
    ensures d.Some? ==> col[i - 1].value + d.value == col[i].value
  {
    if i == 0 || col[i].None? || col[i - 1].None? then None else Some(col[i].value - col[i - 1].value)
  }

  /** Speed_prev_to_curr = Distance_prev_to_curr / time delta, row by row. */
  function SpeedColumn(rows: seq<Row>, distances: Column): (speed: Column)
    requires |distances| == |rows|
    ensures |speed| == |rows|
    ensures forall i :: 0 <= i < |rows| ==>
      (speed[i].Some? <==> i > 0 && distances[i].Some? && SecondsComponent(rows[i].time - rows[i - 1].time) != 0)
  {
    seq(|rows|, i requires 0 <= i < |rows| => Divide(distances[i], TimeDelta(rows, i)))
  }

  /** Acceleration from speed, or jerk from acceleration: change of the column
      since the previous row / time delta. */
  function RateColumn(rows: seq<Row>, col: Column): (rate: Column)
    requires |col| == |rows|
    ensures |rate| == |rows|
    ensures forall i :: 0 <= i < |rows| ==>
      (rate[i].Some? <==> i > 0 && col[i].Some? && col[i - 1].Some? && SecondsComponent(rows[i].time - rows[i - 1].time) != 0)
  {
    seq(|rows|, i requires 0 <= i < |rows| => Divide(Diff(col, i), TimeDelta(rows, i)))
  }

  /** Where the quotient is defined, multiplying it back by the delta gives the
      numerator. */
  lemma DivideUndoes(num: real, dt: int)
    requires dt != 0
    ensures Divide(Some(num), Some(dt)).value * dt as real == num
  {
  }

  /** Where the speed is defined, speed times the time delta is the distance travelled. */
  lemma SpeedTimesDeltaIsDistance(rows: seq<Row>, distances: Column, i: nat)
    requires |distances| == |rows| && 0 < i < |rows|
    requires SpeedColumn(rows, distances)[i].Some?
    ensures SpeedColumn(rows, distances)[i].value * SecondsComponent(rows[i].time - rows[i - 1].time) as real
      == distances[i].value
  {
    DivideUndoes(distances[i].value, SecondsComponent(rows[i].time - rows[i - 1].time));
  }

  /** Where the rate is defined, rate times the time delta is the change of the
      column since the previous row. */
  lemma RateTimesDeltaIsChange(rows: seq<Row>, col: Column, i: nat)
    requires |col| == |rows| && 0 < i < |rows|
    requires RateColumn(rows, col)[i].Some?
    ensures RateColumn(rows, col)[i].value * SecondsComponent(rows[i].time - rows[i - 1].time) as real
      == col[i].value - col[i - 1].value
  {
    DivideUndoes(col[i].value - col[i - 1].value, SecondsComponent(rows[i].time - rows[i - 1].time));
  }

  /** Columns after create_speed_from_prev_column: an existing distance column is
      reused; otherwise the partitioned consecutive-distance builder runs first. */
  function WithSpeed(rows: seq<Row>, cols: Columns, consecutive: seq<Row> -> Column): (r: Columns)
    requires ValidColumns(rows, cols) && Partition.PreservesLength(consecutive)
    ensures ValidColumns(rows, r)
    ensures r.Keys == cols.Keys + {DIST_PREV, SPEED_PREV}
    ensures forall c :: c in cols && c != SPEED_PREV ==> r[c] == cols[c]
    ensures DIST_PREV !in cols ==> r[DIST_PREV] == Partition.PartitionMapMerge(rows, consecutive)
    ensures r[SPEED_PREV] == SpeedColumn(rows, r[DIST_PREV])
  {
    if DIST_PREV in cols then
      cols[SPEED_PREV := SpeedColumn(rows, cols[DIST_PREV])]
    else
      Partition.MergeLength(rows, consecutive);
      var d := Partition.PartitionMapMerge(rows, consecutive);
      cols[DIST_PREV := d][SPEED_PREV := SpeedColumn(rows, d)]
  }

  /** Columns after create_acceleration_from_prev_column. */
  function WithAcceleration(rows: seq<Row>, cols: Columns, consecutive: seq<Row> -> Column): (r: Columns)
    requires ValidColumns(rows, cols) && Partition.PreservesLength(consecutive)
    ensures ValidColumns(rows, r)
    ensures r.Keys == cols.Keys + {ACCELERATION_PREV} + (if SPEED_PREV in cols then {} else {DIST_PREV, SPEED_PREV})
    ensures forall c :: c in cols && c != SPEED_PREV && c != ACCELERATION_PREV ==> r[c] == cols[c]
    ensures SPEED_PREV in cols ==> r[SPEED_PREV] == cols[SPEED_PREV]
    ensures SPEED_PREV !in cols ==> r[SPEED_PREV] == SpeedColumn(rows, r[DIST_PREV])
    ensures SPEED_PREV !in cols && DIST_PREV !in cols ==>
      r[DIST_PREV] == Partition.PartitionMapMerge(rows, consecutive)
    ensures r[ACCELERATION_PREV] == RateColumn(rows, r[SPEED_PREV])
  {
    if SPEED_PREV in cols then
      cols[ACCELERATION_PREV := RateColumn(rows, cols[SPEED_PREV])]
    else
      var s := WithSpeed(rows, cols, consecutive);
      s[ACCELERATION_PREV := RateColumn(rows, s[SPEED_PREV])]
  }

  /** Columns after create_jerk_from_prev_column. */
  function WithJerk(rows: seq<Row>, cols: Columns, consecutive: seq<Row> -> Column): (r: Columns)
    requires ValidColumns(rows, cols) && Partition.PreservesLength(consecutive)
    ensures ValidColumns(rows, r)
    ensures r.Keys == cols.Keys + {JERK_PREV} +
      (if ACCELERATION_PREV in cols then {}
       else {ACCELERATION_PREV} + (if SPEED_PREV in cols then {} else {DIST_PREV, SPEED_PREV}))
    ensures forall c :: c in cols && c != SPEED_PREV && c != ACCELERATION_PREV && c != JERK_PREV ==> r[c] == cols[c]
    ensures SPEED_PREV in cols ==> r[SPEED_PREV] == cols[SPEED_PREV]
    ensures ACCELERATION_PREV !in cols && SPEED_PREV !in cols ==> r[SPEED_PREV] == SpeedColumn(rows, r[DIST_PREV])
    ensures ACCELERATION_PREV !in cols && SPEED_PREV !in cols && DIST_PREV !in cols ==>
      r[DIST_PREV] == Partition.PartitionMapMerge(rows, consecutive)
    ensures ACCELERATION_PREV in cols ==> r[ACCELERATION_PREV] == cols[ACCELERATION_PREV]
    ensures ACCELERATION_PREV !in cols ==> r[ACCELERATION_PREV] == RateColumn(rows, r[SPEED_PREV])
    ensures r[JERK_PREV] == RateColumn(rows, r[ACCELERATION_PREV])
  {
    if ACCELERATION_PREV in cols then
      cols[JERK_PREV := RateColumn(rows, cols[ACCELERATION_PREV])]
    else
      var a := WithAcceleration(rows, cols, consecutive);
      a[JERK_PREV := RateColumn(rows, a[ACCELERATION_PREV])]
  }

  /** An ordinary gap (under a day) is measured exactly. */
  lemma SecondsOfShortGap(delta: int)
    requires 0 <= delta < SECONDS_PER_DAY
    ensures SecondsComponent(delta) == delta
  {
  }

  /** A gap of a day and ten seconds reads as ten seconds, and going back one
      second reads as 86399 seconds: `.dt.seconds` is not the total length. */
  lemma SecondsComponentDropsDays()
    ensures SecondsComponent(SECONDS_PER_DAY + 10) == 10
    ensures SecondsComponent(-1) == SECONDS_PER_DAY - 1
  {
  }

  /** Built from scratch, speed is undefined at row 0, acceleration at rows 0-1 and
      jerk at rows 0-2. */
  lemma LeadingRowsUndefined(rows: seq<Row>, cols: Columns, consecutive: seq<Row> -> Column, i: nat)
    requires ValidColumns(rows, cols) && Partition.PreservesLength(consecutive)
    requires SPEED_PREV !in cols && ACCELERATION_PREV !in cols
    requires i < |rows|
    ensures i < 1 ==> WithJerk(rows, cols, consecutive)[SPEED_PREV][i].None?
    ensures i < 2 ==> WithJerk(rows, cols, consecutive)[ACCELERATION_PREV][i].None?
    ensures i < 3 ==> WithJerk(rows, cols, consecutive)[JERK_PREV][i].None?
  {
    var r: Columns := WithJerk(rows, cols, consecutive);
    if 0 < i < 3 {
      assert r[SPEED_PREV][0].None?;
      if i == 2 {
        assert r[ACCELERATION_PREV][1].None?;
      }
    }
  }

  /** The fallback chain: asking for jerk on a table with none of its
      prerequisites gives the same columns as asking for speed, then acceleration,
      then jerk. */
  lemma JerkFallbackMatchesManualChain(rows: seq<Row>, cols: Columns, consecutive: seq<Row> -> Column)
    requires ValidColumns(rows, cols) && Partition.PreservesLength(consecutive)
    requires SPEED_PREV !in cols && ACCELERATION_PREV !in cols
    ensures var s := WithSpeed(rows, cols, consecutive);
            var a := WithAcceleration(rows, s, consecutive);
            WithJerk(rows, cols, consecutive) == WithJerk(rows, a, consecutive)
  {
  }

  /** Asking again for a column recomputes it from the same inputs: the second
      call changes nothing. */
  lemma JerkIsIdempotent(rows: seq<Row>, cols: Columns, consecutive: seq<Row> -> Column)
    requires ValidColumns(rows, cols) && Partition.PreservesLength(consecutive)
    ensures var r := WithJerk(rows, cols, consecutive);
            WithJerk(rows, r, consecutive) == r
  {
    var r := WithJerk(rows, cols, consecutive);
    assert r[JERK_PREV := RateColumn(rows, r[ACCELERATION_PREV])] == r;
  }
}
