/** Shared vocabulary of the trajectory pipeline: the point record, cell values,
    the column names the builders agree on, and the great-circle distance, which
    is taken as a parameter with the three properties the pipeline relies on. */
module Frames {

  datatype Option<+T> = None | Some(value: T)

  datatype Result<+T, +E> = Ok(value: T) | Err(error: E)

  type TrajId = string

  /** One point of a trajectory table: identifier, timestamp in whole seconds,
      latitude and longitude in degrees. */
  datatype Row = Row(trajId: TrajId, time: int, lat: real, lon: real)

  /** A derived numeric column: None stands for NaN/inf (first rows, zero time delta). */
  type Column = seq<Option<real>>

  /** A cell of the statistics tables: a number, a label, or NaN. */
  datatype Cell = Num(x: real) | Text(s: string) | NaN

  /** One row of a statistics table: its trajectory id and its named cells. */
  datatype Record = Record(trajId: TrajId, cells: map<string, Cell>)

  const DIST_PREV: string := "Distance_prev_to_curr"
  const SPEED_PREV: string := "Speed_prev_to_curr"
  const ACCELERATION_PREV: string := "Acceleration_prev_to_curr"
  const JERK_PREV: string := "jerk_prev_to_curr"

  /** calc.haversine_distance(lat1, lon1, lat2, lon2). */
  type Haversine = (real, real, real, real) -> real

  /** What the pipeline relies on about the great-circle distance. */
  ghost predicate GreatCircleLike(dist: Haversine)
  {
    forall lat1, lon1, lat2, lon2 ::
      dist(lat1, lon1, lat2, lon2) >= 0.0 &&
      dist(lat1, lon1, lat2, lon2) == dist(lat2, lon2, lat1, lon1) &&
      (lat1 == lat2 && lon1 == lon2 ==> dist(lat1, lon1, lat2, lon2) == 0.0)
  }
}
