/** Whole-table queries of SpatialFeatures: the bounding box, the start and end
    location of a trajectory (or of the whole table), and the path length covered
    on one calendar day. */
module Queries {
  import opened Frames

  // ---------------------------------------------------------------- bounding box

  /** (min latitude, min longitude, max latitude, max longitude). */
  datatype BoundingBox = BoundingBox(minLat: real, minLon: real, maxLat: real, maxLon: real)

  function Lats(rows: seq<Row>): seq<real>
  {
    seq(|rows|, i requires 0 <= i < |rows| => rows[i].lat)
  }

  function Lons(rows: seq<Row>): seq<real>
  {
    seq(|rows|, i requires 0 <= i < |rows| => rows[i].lon)
  }

  /** `Series.min()` of a non-empty series. */
  function MinOf(xs: seq<real>): (m: real)
    requires |xs| > 0
    ensures forall i :: 0 <= i < |xs| ==> m <= xs[i]
    ensures exists i :: 0 <= i < |xs| && xs[i] == m
  {
    if |xs| == 1 then xs[0]
    else
      var rest := MinOf(xs[1..]);
      assert forall i :: 1 <= i < |xs| ==> xs[i] == xs[1..][i - 1];
      if xs[0] <= rest then xs[0] else rest
  }

  /** `Series.max()` of a non-empty series. */
  function MaxOf(xs: seq<real>): (m: real)
    requires |xs| > 0
    ensures forall i :: 0 <= i < |xs| ==> xs[i] <= m
    ensures exists i :: 0 <= i < |xs| && xs[i] == m
  {
    if |xs| == 1 then xs[0]
    else
      var rest := MaxOf(xs[1..]);
      assert forall i :: 1 <= i < |xs| ==> xs[i] == xs[1..][i - 1];
      if xs[0] >= rest then xs[0] else rest
  }

  predicate InBox(row: Row, box: BoundingBox)
  {
    box.minLat <= row.lat <= box.maxLat && box.minLon <= row.lon <= box.maxLon
  }

  /** get_bounding_box. On an empty table every pandas min/max is NaN, which is
      modelled as None. */
  function GetBoundingBox(rows: seq<Row>): (r: Option<BoundingBox>)
    ensures r.None? <==> |rows| == 0
    ensures r.Some? ==> forall i :: 0 <= i < |rows| ==> InBox(rows[i], r.value)
    ensures r.Some? ==>
      (exists i :: 0 <= i < |rows| && rows[i].lat == r.value.minLat) &&
      (exists i :: 0 <= i < |rows| && rows[i].lon == r.value.minLon) &&
      (exists i :: 0 <= i < |rows| && rows[i].lat == r.value.maxLat) &&
      (exists i :: 0 <= i < |rows| && rows[i].lon == r.value.maxLon)
  {
    if |rows| == 0 then None
    else
      var lats, lons := Lats(rows), Lons(rows);
      var box := BoundingBox(MinOf(lats), MinOf(lons), MaxOf(lats), MaxOf(lons));
      assert forall i :: 0 <= i < |rows| ==> lats[i] == rows[i].lat && lons[i] == rows[i].lon;
      Some(box)
  }

  // ----------------------------------------------------- start and end location

  /** Which end of the trajectory is asked for: minimum or maximum timestamp. */
  datatype Extreme = Earliest | Latest

  /** What get_start_location / get_end_location hand back: a (lat, lon) pair, the
      "does not exist" message string, or the KeyError raised when the table is
      empty and no id is given. */
  datatype LocationOutcome = Coordinates(lat: real, lon: real) | NotFoundMessage(text: string) | RaisesKeyError

  /** The row survives the optional `traj_id` filter. */
  predicate Matches(row: Row, trajId: Option<TrajId>)
  {
    trajId.None? || row.trajId == trajId.value
  }

  predicate AtLeastAsExtreme(which: Extreme, t: int, u: int)
  {
    if which == Earliest then t <= u else t >= u
  }

  /** Minimum (Earliest) or maximum (Latest) timestamp among the matching rows. */
  function ExtremeTime(rows: seq<Row>, trajId: Option<TrajId>, which: Extreme): (r: Option<int>)
    ensures r.None? <==> forall j :: 0 <= j < |rows| ==> !Matches(rows[j], trajId)
    ensures r.Some? ==> exists j :: 0 <= j < |rows| && Matches(rows[j], trajId) && rows[j].time == r.value
    ensures r.Some? ==> forall j :: 0 <= j < |rows| && Matches(rows[j], trajId) ==>
      AtLeastAsExtreme(which, r.value, rows[j].time)
  {
    if |rows| == 0 then None
    else
      var rest := ExtremeTime(rows[1..], trajId, which);
      assert forall j :: 1 <= j < |rows| ==> rows[j] == rows[1..][j - 1];
      if !Matches(rows[0], trajId) then rest
      else match rest
        case None => Some(rows[0].time)
        case Some(t) => Some(if AtLeastAsExtreme(which, rows[0].time, t) then rows[0].time else t)
  }

  /** Position (in table order) of the first matching row with timestamp t, at or after `from`. */
  function FirstAt(rows: seq<Row>, trajId: Option<TrajId>, t: int, from: nat): (k: nat)
    requires from <= |rows|
    requires exists j :: from <= j < |rows| && Matches(rows[j], trajId) && rows[j].time == t
    ensures from <= k < |rows| && Matches(rows[k], trajId) && rows[k].time == t
    ensures forall j :: from <= j < k ==> !(Matches(rows[j], trajId) && rows[j].time == t)
    decreases |rows| - from
  {
    if Matches(rows[from], trajId) && rows[from].time == t then from
    else FirstAt(rows, trajId, t, from + 1)
  }

  /** Row k is the first, in table order, of the matching rows with the extreme timestamp. */
  ghost predicate IsFirstExtreme(rows: seq<Row>, trajId: Option<TrajId>, which: Extreme, k: int)
  {
    0 <= k < |rows| && Matches(rows[k], trajId) &&
    (forall j :: 0 <= j < |rows| && Matches(rows[j], trajId) ==> AtLeastAsExtreme(which, rows[k].time, rows[j].time)) &&
    (forall j :: 0 <= j < k && Matches(rows[j], trajId) ==> rows[j].time != rows[k].time)
  }

  function NotFoundText(trajId: TrajId): string
  {
    "Trajectory ID: " + trajId + " does not exist in the dataset. Please try again!"
  }

  /** Filter by id (if given), keep the rows at the extreme timestamp, take the first. */
  function Locate(rows: seq<Row>, trajId: Option<TrajId>, which: Extreme): (r: LocationOutcome)
    ensures r.RaisesKeyError? <==> trajId.None? && |rows| == 0
    ensures r.NotFoundMessage? <==> trajId.Some? && forall j :: 0 <= j < |rows| ==> !Matches(rows[j], trajId)
    ensures r.NotFoundMessage? ==> r.text == NotFoundText(trajId.value)
    ensures r.Coordinates? ==> exists k :: IsFirstExtreme(rows, trajId, which, k) && r == Coordinates(rows[k].lat, rows[k].lon)
  {
    match ExtremeTime(rows, trajId, which)
    case None =>
      if trajId.Some? then NotFoundMessage(NotFoundText(trajId.value)) else RaisesKeyError
    case Some(t) =>
      var k := FirstAt(rows, trajId, t, 0);
      Coordinates(rows[k].lat, rows[k].lon)
  }

  /** get_start_location: the first row (table order) among the matching rows with
      the minimum timestamp. */
  function GetStartLocation(rows: seq<Row>, trajId: Option<TrajId>): (r: LocationOutcome)
    ensures r.RaisesKeyError? <==> trajId.None? && |rows| == 0
    ensures r.NotFoundMessage? <==> trajId.Some? && forall j :: 0 <= j < |rows| ==> rows[j].trajId != trajId.value
    ensures r.NotFoundMessage? ==> r.text == NotFoundText(trajId.value)
    ensures r.Coordinates? ==>
              exists k ::
                && 0 <= k < |rows| && Matches(rows[k], trajId)
                && r == Coordinates(rows[k].lat, rows[k].lon)
                && (forall j :: 0 <= j < |rows| && Matches(rows[j], trajId) ==> rows[k].time <= rows[j].time)
                && (forall j :: 0 <= j < k && Matches(rows[j], trajId) ==> rows[k].time < rows[j].time)
  {
    Locate(rows, trajId, Earliest)
  }

  /** get_end_location: the first row (table order) among the matching rows with
      the maximum timestamp. */
  function GetEndLocation(rows: seq<Row>, trajId: Option<TrajId>): (r: LocationOutcome)
    ensures r.RaisesKeyError? <==> trajId.None? && |rows| == 0
    ensures r.NotFoundMessage? <==> trajId.Some? && forall j :: 0 <= j < |rows| ==> rows[j].trajId != trajId.value
    ensures r.NotFoundMessage? ==> r.text == NotFoundText(trajId.value)
    ensures r.Coordinates? ==>
              exists k ::
                && 0 <= k < |rows| && Matches(rows[k], trajId)
                && r == Coordinates(rows[k].lat, rows[k].lon)
                && (forall j :: 0 <= j < |rows| && Matches(rows[j], trajId) ==> rows[k].time >= rows[j].time)
                && (forall j :: 0 <= j < k && Matches(rows[j], trajId) ==> rows[k].time > rows[j].time)
  {
    Locate(rows, trajId, Latest)
  }

  /** The answer is determined: only one row can be the first at the extreme timestamp. */
  lemma FirstExtremeIsUnique(rows: seq<Row>, trajId: Option<TrajId>, which: Extreme, k1: int, k2: int)
    requires IsFirstExtreme(rows, trajId, which, k1) && IsFirstExtreme(rows, trajId, which, k2)
    ensures k1 == k2
  {
  }

  // ------------------------------------------------------ distance by date and id

  /** `.dt.date` of a timestamp in seconds: its calendar day number. */
  function DayOf(time: int): (day: int)
    ensures day * 86400 <= time < day * 86400 + 86400
  {
    time / 86400
  }

  predicate Selected(row: Row, day: int, trajId: Option<TrajId>)
  {
    DayOf(row.time) == day && Matches(row, trajId)
  }

  /** The rows of the given day (and id, if given), in table order. */
  function Select(rows: seq<Row>, day: int, trajId: Option<TrajId>): (r: seq<Row>)
    ensures |r| <= |rows|
    ensures forall x :: x in r <==> x in rows && Selected(x, day, trajId)
  {
    if |rows| == 0 then []
    else (if Selected(rows[0], day, trajId) then [rows[0]] else []) + Select(rows[1..], day, trajId)
  }

  /** Selection keeps table order and multiplicity: selecting from two runs one
      after the other is selecting from each and concatenating. */
  lemma {:induction false} SelectAppend(a: seq<Row>, b: seq<Row>, day: int, trajId: Option<TrajId>)
    ensures Select(a + b, day, trajId) == Select(a, day, trajId) + Select(b, day, trajId)
    decreases |a|
  {
    if |a| > 0 {
      SelectCons(a, b, day, trajId);
      SelectAppend(a[1..], b, day, trajId);
    } else {
      assert a + b == b;
    }
  }

  /** Unfolding the selection of a + b at the first row of a. */
  lemma SelectCons(a: seq<Row>, b: seq<Row>, day: int, trajId: Option<TrajId>)
    requires |a| > 0
    ensures var head := if Selected(a[0], day, trajId) then [a[0]] else [];
      && Select(a + b, day, trajId) == head + Select(a[1..] + b, day, trajId)
      && Select(a, day, trajId) == head + Select(a[1..], day, trajId)
  {
    assert (a + b)[0] == a[0];
    assert (a + b)[1..] == a[1..] + b;
  }

  /** A single row is kept exactly when it is selected. */
  lemma SelectOne(x: Row, day: int, trajId: Option<TrajId>)
    ensures Select([x], day, trajId) == if Selected(x, day, trajId) then [x] else []
  {
    assert [x][1..] == [];
  }

  /** Great-circle distance from point i - 1 to point i. */
  function Hop(ps: seq<Row>, i: int, dist: Haversine): real
    requires 0 < i < |ps|
  {
    dist(ps[i - 1].lat, ps[i - 1].lon, ps[i].lat, ps[i].lon)
  }

  /** Sum of the distances between consecutive points, ids ignored. */
  function PathLength(ps: seq<Row>, dist: Haversine): real
  {
    if |ps| <= 1 then 0.0 else PathLength(ps[..|ps| - 1], dist) + Hop(ps, |ps| - 1, dist)
  }

  /** get_distance_by_date_and_traj_id: `distances[0] = 0`,
      `distances[i + 1] = haversine(point i, point i + 1)` over the selected rows,
      then `np.sum(distances)`. */
  method GetDistanceByDateAndTrajId(rows: seq<Row>, day: int, trajId: Option<TrajId>, dist: Haversine)
    returns (total: real)
    ensures total == PathLength(Select(rows, day, trajId), dist)
  {
    var small := Select(rows, day, trajId);
    var distances := FillHops(small, dist);
    total := SumHops(small, distances, dist);
  }

  /** The first loop: a zero, then the hop into every later point. */
  method FillHops(small: seq<Row>, dist: Haversine) returns (distances: array<real>)
    ensures fresh(distances) && distances.Length == |small|
    ensures |small| > 0 ==> distances[0] == 0.0
    ensures forall k :: 1 <= k < |small| ==> distances[k] == Hop(small, k, dist)
  {
    var n := |small|;
    distances := new real[n](_ => 0.0);
    var i := 0;
    while i + 1 < n
      invariant 0 <= i && (n == 0 ==> i == 0) && (n > 0 ==> i < n)
      invariant n > 0 ==> distances[0] == 0.0
      invariant forall k :: 1 <= k <= i ==> distances[k] == Hop(small, k, dist)
    {
      distances[i + 1] := dist(small[i].lat, small[i].lon, small[i + 1].lat, small[i + 1].lon);
      i := i + 1;
    }
  }

  /** `np.sum(distances)`, which is the path length of the points. */
  method SumHops(small: seq<Row>, distances: array<real>, dist: Haversine) returns (total: real)
    requires distances.Length == |small|
    requires |small| > 0 ==> distances[0] == 0.0
    requires forall k :: 1 <= k < |small| ==> distances[k] == Hop(small, k, dist)
    ensures total == PathLength(small, dist)
  {
    total := 0.0;
    var j := 0;
    while j < |small|
      invariant 0 <= j <= |small|
      invariant total == PathLength(small[..j], dist)
    {
      var prefix := small[..j + 1];
      assert prefix[..j] == small[..j];
      if j > 0 {
        assert Hop(prefix, j, dist) == Hop(small, j, dist);
      }
      total := total + distances[j];
      j := j + 1;
    }
    assert small[..j] == small;
  }

  /** The path length is never negative. */
  lemma {:induction false} PathLengthNonNegative(ps: seq<Row>, dist: Haversine)
    requires GreatCircleLike(dist)
    ensures PathLength(ps, dist) >= 0.0
    decreases |ps|
  {
    if |ps| > 1 {
      PathLengthNonNegative(ps[..|ps| - 1], dist);
      var a, b := ps[|ps| - 2], ps[|ps| - 1];
      assert dist(a.lat, a.lon, b.lat, b.lon) >= 0.0;
    }
  }

  /** Zero or one selected rows give 0. */
  lemma ShortPathIsZero(ps: seq<Row>, dist: Haversine)
    requires |ps| <= 1
    ensures PathLength(ps, dist) == 0.0
  {
  }

  /** Joining two runs of points adds the hop between them: the sum does not reset
      where one trajectory ends and the next begins (the traj_id = None case). */
  lemma {:induction false} PathLengthAppend(a: seq<Row>, b: seq<Row>, dist: Haversine)
    requires |a| > 0 && |b| > 0
    ensures PathLength(a + b, dist) ==
      PathLength(a, dist) + dist(a[|a| - 1].lat, a[|a| - 1].lon, b[0].lat, b[0].lon) + PathLength(b, dist)
    decreases |b|
  {
    var ab := a + b;
    AppendLast(a, b);
    if |b| == 1 {
      assert Hop(ab, |ab| - 1, dist) == dist(a[|a| - 1].lat, a[|a| - 1].lon, b[0].lat, b[0].lon);
    } else {
      var b' := b[..|b| - 1];
      PathLengthAppend(a, b', dist);
      assert Hop(ab, |ab| - 1, dist) == Hop(b, |b| - 1, dist);
    }
  }

  /** Where the last element of a + b comes from, and what dropping it leaves. */
  lemma AppendLast<T>(a: seq<T>, b: seq<T>)
    requires |a| > 0 && |b| > 0
    ensures (a + b)[..|a + b| - 1] == a + b[..|b| - 1]
    ensures (a + b)[|a + b| - 1] == b[|b| - 1]
    ensures |b| == 1 ==> (a + b)[|a + b| - 2] == a[|a| - 1]
    ensures |b| > 1 ==> (a + b)[|a + b| - 2] == b[|b| - 2] && b[..|b| - 1][0] == b[0]
  {
  }

  /** A stationary object covers no distance. */
  lemma {:induction false} StationaryPathIsZero(ps: seq<Row>, dist: Haversine)
    requires GreatCircleLike(dist)
    requires forall i :: 0 <= i < |ps| ==> ps[i].lat == ps[0].lat && ps[i].lon == ps[0].lon
    ensures PathLength(ps, dist) == 0.0
    decreases |ps|
  {
    if |ps| > 1 {
      StationaryPathIsZero(ps[..|ps| - 1], dist);
      var a, b := ps[|ps| - 2], ps[|ps| - 1];
      assert dist(a.lat, a.lon, b.lat, b.lon) == 0.0;
    }
  }
}
