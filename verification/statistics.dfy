/** The Statistics class: the worker-count throttle, the per-trajectory split in
    front of the statistics workers, the index reshaping after week segmentation,
    and the pivot of the per-trajectory statistics into one row per trajectory. */
module Statistics {
  import opened Frames
  import opened Partition

  /** Errors pandas raises on these paths. */
  datatype PdError = KeyError(key: string) | NoObjectsToConcatenate

  const TRAJ_ID_COL: string := "traj_id"
  const SEG_ID_COL: string := "seg_id"
  const DATETIME_COL: string := "DateTime"
  const INDEX_COL: string := "index"
  const SPECIES_COL: string := "Species"

  // ------------------------------------------------------------------- NUM_CPU

  /** `ceil((num * 2) / 3)`: two thirds of the processors, rounded up. */
  function NumCpu(cpuCount: nat): (r: nat)
    ensures 3 * r >= 2 * cpuCount && 3 * (r - 1) < 2 * cpuCount
    ensures cpuCount >= 1 ==> 1 <= r <= cpuCount
  {
    (2 * cpuCount + 2) / 3
  }

  // ------------------------------------------------------- split by trajectory

  ghost predicate Distinct<T>(s: seq<T>)
  {
    forall i, j :: 0 <= i < j < |s| ==> s[i] != s[j]
  }

  /** `df.loc[df[traj_id] == id]`: that trajectory's rows in table order. */
  function RowsOf(rows: seq<Record>, id: TrajId): (r: seq<Record>)
    ensures |r| <= |rows|
    ensures forall i :: 0 <= i < |r| ==> r[i].trajId == id
  {
    if |rows| == 0 then []
    else (if rows[0].trajId == id then [rows[0]] else []) + RowsOf(rows[1..], id)
  }

  /** The rows of every other trajectory, in table order. */
  function RowsNotOf(rows: seq<Record>, id: TrajId): (r: seq<Record>)
    ensures |r| <= |rows|
    ensures forall i :: 0 <= i < |r| ==> r[i].trajId != id
  {
    if |rows| == 0 then []
    else (if rows[0].trajId != id then [rows[0]] else []) + RowsNotOf(rows[1..], id)
  }

  /** The filter keeps the rows' relative order and multiplicity: filtering two
      runs one after the other is filtering each and concatenating. */
  lemma {:induction false} RowsOfAppend(a: seq<Record>, b: seq<Record>, id: TrajId)
    ensures RowsOf(a + b, id) == RowsOf(a, id) + RowsOf(b, id)
    decreases |a|
  {
    if |a| > 0 {
      RowsOfCons(a, b, id);
      RowsOfAppend(a[1..], b, id);
    } else {
      assert a + b == b;
    }
  }

  lemma RowsOfCons(a: seq<Record>, b: seq<Record>, id: TrajId)
    requires |a| > 0
    ensures var head := if a[0].trajId == id then [a[0]] else [];
      && RowsOf(a + b, id) == head + RowsOf(a[1..] + b, id)
      && RowsOf(a, id) == head + RowsOf(a[1..], id)
  {
    assert (a + b)[0] == a[0];
    assert (a + b)[1..] == a[1..] + b;
  }

  /** The filter keeps exactly the rows of that trajectory, and its complement
      exactly the others. */
  lemma {:induction false} RowsOfMembers(rows: seq<Record>, id: TrajId)
    ensures forall x :: x in RowsOf(rows, id) <==> x in rows && x.trajId == id
    ensures forall x :: x in RowsNotOf(rows, id) <==> x in rows && x.trajId != id
    decreases |rows|
  {
    if |rows| > 0 {
      RowsOfMembers(rows[1..], id);
      assert rows == [rows[0]] + rows[1..];
    }
  }

  /** A trajectory that occurs in the table has at least one row. */
  lemma RowsOfNonEmpty(rows: seq<Record>, id: TrajId, p: nat)
    requires p < |rows| && rows[p].trajId == id
    ensures |RowsOf(rows, id)| > 0
  {
    RowsOfMembers(rows, id);
    assert rows[p] in rows;
  }

  /** `list(dataframe.traj_id.value_counts().keys())`: every id of the table once,
      most frequent first (pandas decides ties). */
  ghost predicate IsValueCountsOrder(rows: seq<Record>, ids: seq<TrajId>)
  {
    && Distinct(ids)
    && (forall x :: x in rows ==> x.trajId in ids)
    && (forall k :: 0 <= k < |ids| ==> |RowsOf(rows, ids[k])| > 0)
    && (forall i, j :: 0 <= i < j < |ids| ==> |RowsOf(rows, ids[i])| >= |RowsOf(rows, ids[j])|)
  }

  /** One chunk per listed id, in list order. */
  function SplitById(rows: seq<Record>, ids: seq<TrajId>): seq<seq<Record>>
  {
    seq(|ids|, k requires 0 <= k < |ids| => RowsOf(rows, ids[k]))
  }

  /** The loop of generate_kinematic_stats that builds `df_chunks`. */
  method SplitByTrajectory(rows: seq<Record>, ids: seq<TrajId>) returns (chunks: seq<seq<Record>>)
    ensures chunks == SplitById(rows, ids)
  {
    chunks := [];
    var i := 0;
    while i < |ids|
      invariant 0 <= i <= |ids|
      invariant chunks == SplitById(rows, ids)[..i]
    {
      chunks := chunks + [RowsOf(rows, ids[i])];
      i := i + 1;
    }
  }

  lemma {:induction false} RowsOfSplitsMultiset(rows: seq<Record>, id: TrajId)
    ensures multiset(rows) == multiset(RowsOf(rows, id)) + multiset(RowsNotOf(rows, id))
    decreases |rows|
  {
    if |rows| > 0 {
      var h, t := rows[0], rows[1..];
      RowsOfSplitsMultiset(t, id);
      assert rows == [h] + t;
      if h.trajId == id {
        assert RowsOf(rows, id) == [h] + RowsOf(t, id);
        assert RowsNotOf(rows, id) == RowsNotOf(t, id);
      } else {
        assert RowsOf(rows, id) == RowsOf(t, id);
        assert RowsNotOf(rows, id) == [h] + RowsNotOf(t, id);
      }
    }
  }

  lemma {:induction false} RowsOfSkipsOtherIds(rows: seq<Record>, gone: TrajId, id: TrajId)
    requires gone != id
    ensures RowsOf(RowsNotOf(rows, gone), id) == RowsOf(rows, id)
    decreases |rows|
  {
    if |rows| > 0 {
      var h, t := rows[0], rows[1..];
      RowsOfSkipsOtherIds(t, gone, id);
      if h.trajId != gone {
        var rest := RowsNotOf(t, gone);
        assert RowsNotOf(rows, gone) == [h] + rest;
        assert ([h] + rest)[1..] == rest;
        assert RowsOf([h] + rest, id) == (if h.trajId == id then [h] else []) + RowsOf(rest, id);
      } else {
        assert RowsNotOf(rows, gone) == RowsNotOf(t, gone);
        assert RowsOf(rows, id) == RowsOf(t, id);
      }
    }
  }

  /** Splitting off the first id leaves the other ids' chunks as they were. */
  lemma SplitByIdCons(rows: seq<Record>, ids: seq<TrajId>)
    requires Distinct(ids) && |ids| > 0
    ensures SplitById(rows, ids) == [RowsOf(rows, ids[0])] + SplitById(RowsNotOf(rows, ids[0]), ids[1..])
  {
    var later := SplitById(RowsNotOf(rows, ids[0]), ids[1..]);
    forall k | 1 <= k < |ids|
      ensures SplitById(rows, ids)[k] == later[k - 1]
    {
      assert ids[1..][k - 1] == ids[k];
      RowsOfSkipsOtherIds(rows, ids[0], ids[k]);
    }
  }

  /** The remaining rows and ids still meet the requirements of the split. */
  lemma SplitTailCovered(rows: seq<Record>, ids: seq<TrajId>)
    requires Distinct(ids) && |ids| > 0
    requires forall x :: x in rows ==> x.trajId in ids
    ensures Distinct(ids[1..])
    ensures forall x :: x in RowsNotOf(rows, ids[0]) ==> x.trajId in ids[1..]
  {
    var tail := ids[1..];
    RowsOfMembers(rows, ids[0]);
    forall x | x in RowsNotOf(rows, ids[0])
      ensures x.trajId in tail
    {
      assert x.trajId in ids && x.trajId != ids[0];
    }
    forall i, j | 0 <= i < j < |tail|
      ensures tail[i] != tail[j]
    {
      assert tail[i] == ids[i + 1] && tail[j] == ids[j + 1];
    }
  }

  /** The per-trajectory chunks are pairwise disjoint and together hold every row
      exactly once: their concatenation is a permutation of the table. */
  lemma {:induction false} SplitIsPermutation(rows: seq<Record>, ids: seq<TrajId>)
    requires Distinct(ids)
    requires forall x :: x in rows ==> x.trajId in ids
    ensures multiset(Flatten(SplitById(rows, ids))) == multiset(rows)
    decreases |ids|
  {
    assert forall i :: 0 <= i < |rows| ==> rows[i].trajId in ids;
    if |ids| > 0 {
      var mine, rest := RowsOf(rows, ids[0]), RowsNotOf(rows, ids[0]);
      RowsOfSplitsMultiset(rows, ids[0]);
      SplitTailCovered(rows, ids);
      SplitIsPermutation(rest, ids[1..]);
      SplitByIdCons(rows, ids);
      var later := SplitById(rest, ids[1..]);
      FlattenAppend([mine], later);
      assert Flatten([mine]) == mine by {
        assert [mine][..0] == [];
      }
    }
  }

  /** Chunk k is non-empty and holds exactly the rows of the k-th id. */
  lemma ChunksHoldOneTrajectory(rows: seq<Record>, ids: seq<TrajId>, k: nat, x: Record)
    requires IsValueCountsOrder(rows, ids)
    requires k < |ids|
    ensures |SplitById(rows, ids)[k]| > 0
    ensures x in SplitById(rows, ids)[k] <==> x in rows && x.trajId == ids[k]
  {
    RowsOfMembers(rows, ids[k]);
  }

  /** Two different chunks share no row. */
  lemma ChunksAreDisjoint(rows: seq<Record>, ids: seq<TrajId>, k: nat, l: nat, x: Record)
    requires IsValueCountsOrder(rows, ids)
    requires k < |ids| && l < |ids| && k != l
    ensures !(x in SplitById(rows, ids)[k] && x in SplitById(rows, ids)[l])
  {
    RowsOfMembers(rows, ids[k]);
    RowsOfMembers(rows, ids[l]);
  }

  /** generate_kinematic_stats: compute the kinematic features, split by the id
      list, run the statistics helper on every chunk (in a pool, modelled as an
      ordered map), concatenate in id-list order. With no ids there is nothing to
      concatenate, which pandas reports as an error. */
  method GenerateKinematicStats(dataframe: seq<Record>, ids: seq<TrajId>, target: string,
                                features: seq<Record> -> seq<Record>,
                                statsHelper: (seq<Record>, string) -> seq<Record>)
    returns (result: Result<seq<Record>, PdError>)
    requires IsValueCountsOrder(dataframe, ids)
    ensures result.Err? <==> |ids| == 0
    ensures result.Err? ==> result.error == NoObjectsToConcatenate
    ensures result.Ok? ==>
      result.value == Flatten(MapChunks(SplitById(features(dataframe), ids), StatsFor(statsHelper, target)))
  {
    var ptdf := features(dataframe);
    var chunks := SplitByTrajectory(ptdf, ids);
    var results := MapChunks(chunks, StatsFor(statsHelper, target));
    if |results| == 0 {
      return Err(NoObjectsToConcatenate);
    }
    result := Ok(Flatten(results));
  }

  /** `zip(df_chunks, itertools.repeat(target_col_name))` handed to the helper. */
  function StatsFor(statsHelper: (seq<Record>, string) -> seq<Record>, target: string): seq<Record> -> seq<Record>
  {
    c => statsHelper(c, target)
  }

  /** The statistics of the k-th id occupy the k-th block of the result: blocks
      follow the id list, not table order. */
  lemma StatsFollowIdList(ptdf: seq<Record>, ids: seq<TrajId>, target: string,
                          statsHelper: (seq<Record>, string) -> seq<Record>, k: nat)
    requires k < |ids|
    ensures var blocks := MapChunks(SplitById(ptdf, ids), StatsFor(statsHelper, target));
            Flatten(blocks) == Flatten(blocks[..k]) + statsHelper(RowsOf(ptdf, ids[k]), target) + Flatten(blocks[k + 1..])
  {
    var blocks := MapChunks(SplitById(ptdf, ids), StatsFor(statsHelper, target));
    assert blocks == blocks[..k] + [blocks[k]] + blocks[k + 1..];
    FlattenAppend(blocks[..k] + [blocks[k]], blocks[k + 1..]);
    FlattenAppend(blocks[..k], [blocks[k]]);
    assert Flatten([blocks[k]]) == blocks[k] by {
      assert [blocks[k]][..0] == [];
    }
  }

  // ------------------------------------------------------ segment_traj_by_week

  /** The names in `cols`, in order, except those in `drop`. */
  function Without<T(==,!new)>(cols: seq<T>, drop: set<T>): (r: seq<T>)
    ensures |r| <= |cols|
    ensures forall c :: c in r <==> c in cols && c !in drop
  {
    if |cols| == 0 then []
    else (if cols[0] in drop then [] else [cols[0]]) + Without(cols[1..], drop)
  }

  /** Dropping keeps the remaining names' order and multiplicity. */
  lemma {:induction false} WithoutAppend<T(!new)>(a: seq<T>, b: seq<T>, drop: set<T>)
    ensures Without(a + b, drop) == Without(a, drop) + Without(b, drop)
    decreases |a|
  {
    if |a| > 0 {
      WithoutCons(a, b, drop);
      WithoutAppend(a[1..], b, drop);
    } else {
      assert a + b == b;
    }
  }

  lemma WithoutCons<T(!new)>(a: seq<T>, b: seq<T>, drop: set<T>)
    requires |a| > 0
    ensures var head := if a[0] in drop then [] else [a[0]];
      && Without(a + b, drop) == head + Without(a[1..] + b, drop)
      && Without(a, drop) == head + Without(a[1..], drop)
  {
    assert (a + b)[0] == a[0];
    assert (a + b)[1..] == a[1..] + b;
  }

  datatype Layout = Layout(index: seq<string>, columns: seq<string>)

  /** `.set_index(['traj_id', 'seg_id', 'DateTime']).drop(columns=['index'])` on a
      table whose columns, after `reset_index()`, are `cols`. */
  function SegmentLayout(cols: seq<string>): (r: Result<Layout, PdError>)
    ensures r.Ok? <==> TRAJ_ID_COL in cols && SEG_ID_COL in cols && DATETIME_COL in cols && INDEX_COL in cols
    ensures r.Err? ==> r.error.KeyError? && r.error.key !in cols
    ensures r.Err? ==> r.error.key in {TRAJ_ID_COL, SEG_ID_COL, DATETIME_COL, INDEX_COL}
    ensures r.Ok? ==> r.value.index == [TRAJ_ID_COL, SEG_ID_COL, DATETIME_COL]
    ensures r.Ok? ==> forall c :: c in r.value.columns <==>
      c in cols && c !in {TRAJ_ID_COL, SEG_ID_COL, DATETIME_COL, INDEX_COL}
  {
    if TRAJ_ID_COL !in cols then Err(KeyError(TRAJ_ID_COL))
    else if SEG_ID_COL !in cols then Err(KeyError(SEG_ID_COL))
    else if DATETIME_COL !in cols then Err(KeyError(DATETIME_COL))
    else
      var rest := Without(cols, {TRAJ_ID_COL, SEG_ID_COL, DATETIME_COL});
      if INDEX_COL !in rest then Err(KeyError(INDEX_COL))
      else Ok(Layout([TRAJ_ID_COL, SEG_ID_COL, DATETIME_COL], Without(rest, {INDEX_COL})))
  }

  datatype Segmented = Segmented(layout: Layout, rows: seq<Record>)

  /** segment_traj_by_week: split by id, segment every chunk (in a pool, modelled
      as an ordered map), concatenate, then re-index; `cols` are the columns of the
      concatenation after `reset_index()`. With no chunks the concatenation itself
      fails, before any re-indexing. */
  function SegmentTrajByWeek(df: seq<Record>, dfSplit: seq<Record> -> seq<seq<Record>>,
                             splitTraj: seq<Record> -> seq<Record>, cols: seq<string>)
    : (r: Result<Segmented, PdError>)
    ensures r.Ok? <==> |dfSplit(df)| > 0 && SegmentLayout(cols).Ok?
    ensures |dfSplit(df)| == 0 ==> r == Err(NoObjectsToConcatenate)
    ensures |dfSplit(df)| > 0 && SegmentLayout(cols).Err? ==> r == Err(SegmentLayout(cols).error)
    ensures r.Ok? ==> r.value.layout == SegmentLayout(cols).value
    ensures r.Ok? ==> r.value.layout.index == [TRAJ_ID_COL, SEG_ID_COL, DATETIME_COL]
    ensures r.Ok? ==> INDEX_COL !in r.value.layout.columns
    ensures r.Ok? ==> var merged := Flatten(MapChunks(dfSplit(df), splitTraj));
      |r.value.rows| == |merged| &&
      forall i :: 0 <= i < |merged| ==>
        r.value.rows[i].trajId == merged[i].trajId && INDEX_COL !in r.value.rows[i].cells
    ensures r.Ok? ==> var merged := Flatten(MapChunks(dfSplit(df), splitTraj));
      forall i, c :: 0 <= i < |merged| && c != INDEX_COL && c in merged[i].cells ==>
        c in r.value.rows[i].cells && r.value.rows[i].cells[c] == merged[i].cells[c]
    ensures r.Ok? ==> var merged := Flatten(MapChunks(dfSplit(df), splitTraj));
      forall i, c :: 0 <= i < |merged| && c in r.value.rows[i].cells ==> c in merged[i].cells
  {
    var results := MapChunks(dfSplit(df), splitTraj);
    var merged := Flatten(results);
    if |results| == 0 then Err(NoObjectsToConcatenate)
    else match SegmentLayout(cols)
    case Err(e) => Err(e)
    case Ok(layout) =>
      Ok(Segmented(layout, seq(|merged|, i requires 0 <= i < |merged| =>
        Record(merged[i].trajId, merged[i].cells - {INDEX_COL}))))
  }

  // ------------------------------------------------------------- pivot_stats_df

  /** Some row of the table carries `a`, and no row up to and including it carries `b`. */
  ghost predicate AppearsBefore(rows: seq<Record>, a: TrajId, b: TrajId)
  {
    exists p :: 0 <= p < |rows| && rows[p].trajId == a && forall q :: 0 <= q <= p ==> rows[q].trajId != b
  }

  /** `ids` lists every id of the table once, in order of first appearance. */
  ghost predicate FirstAppearanceOrder(rows: seq<Record>, ids: seq<TrajId>)
  {
    && Distinct(ids)
    && (forall id :: id in ids <==> Occurs(rows, id))
    && (forall i, j :: 0 <= i < j < |ids| ==> AppearsBefore(rows, ids[i], ids[j]))
  }

  /** `index.get_level_values('traj_id').unique()`: distinct ids in order of first appearance. */
  function UniqueIds(rows: seq<Record>): (ids: seq<TrajId>)
    ensures FirstAppearanceOrder(rows, ids)
    ensures AllOccur(rows, ids)
  {
    if |rows| == 0 then []
    else
      var u := UniqueIds(rows[..|rows| - 1]);
      var id := rows[|rows| - 1].trajId;
      UniqueIdsStep(rows, u);
      if id in u then u else u + [id]
  }

  /** Extending the table by one row extends its first-appearance list by that
      row's id, unless the id was already seen. */
  lemma UniqueIdsStep(rows: seq<Record>, u: seq<TrajId>)
    requires |rows| > 0 && FirstAppearanceOrder(rows[..|rows| - 1], u)
    ensures var id := rows[|rows| - 1].trajId;
      var ids := if id in u then u else u + [id];
      FirstAppearanceOrder(rows, ids) && AllOccur(rows, ids)
  {
    var front, id := rows[..|rows| - 1], rows[|rows| - 1].trajId;
    var ids := if id in u then u else u + [id];
    assert forall p :: 0 <= p < |front| ==> front[p] == rows[p];
    forall x | Occurs(front, x)
      ensures Occurs(rows, x)
    {
      var p :| 0 <= p < |front| && front[p].trajId == x;
      assert rows[p].trajId == x;
    }
    forall x | Occurs(rows, x)
      ensures x in ids
    {
      var p :| 0 <= p < |rows| && rows[p].trajId == x;
      if p < |front| {
        assert Occurs(front, x);
      }
    }
    assert Occurs(rows, id);
    forall a, b | AppearsBefore(front, a, b)
      ensures AppearsBefore(rows, a, b)
    {
      var p :| 0 <= p < |front| && front[p].trajId == a && forall q :: 0 <= q <= p ==> front[q].trajId != b;
      assert rows[p].trajId == a;
    }
    if id !in u {
      forall i | 0 <= i < |u|
        ensures AppearsBefore(rows, u[i], id)
      {
        assert Occurs(front, u[i]);
        var p :| 0 <= p < |front| && front[p].trajId == u[i];
        forall q | 0 <= q <= p
          ensures rows[q].trajId != id
        {
          assert Occurs(front, front[q].trajId);
        }
      }
    }
    forall k | 0 <= k < |ids|
      ensures Occurs(rows, ids[k])
    {
      assert ids[k] in ids;
    }
  }

  /** `str.strip('|')`, leading part: the number of leading '|'. */
  function LeadingBars(s: string): (n: nat)
    ensures n <= |s|
    ensures forall i :: 0 <= i < n ==> s[i] == '|'
    ensures n < |s| ==> s[n] != '|'
  {
    if |s| > 0 && s[0] == '|' then 1 + LeadingBars(s[1..]) else 0
  }

  /** Number of trailing '|'. */
  function TrailingBars(s: string): (n: nat)
    ensures n <= |s|
    ensures forall i :: |s| - n <= i < |s| ==> s[i] == '|'
    ensures n < |s| ==> s[|s| - n - 1] != '|'
  {
    if |s| > 0 && s[|s| - 1] == '|' then 1 + TrailingBars(s[..|s| - 1]) else 0
  }

  /** `str.strip('|')`. */
  function StripBars(s: string): (r: string)
    ensures |r| > 0 ==> r[0] != '|' && r[|r| - 1] != '|'
    ensures LeadingBars(s) + |r| <= |s| && r == s[LeadingBars(s) .. LeadingBars(s) + |r|]
    ensures forall i :: 0 <= i < |s| && !(LeadingBars(s) <= i < LeadingBars(s) + |r|) ==> s[i] == '|'
  {
    var lead := LeadingBars(s);
    var rest := s[lead..];
    var trail := TrailingBars(rest);
    assert forall i :: lead <= i < |s| ==> s[i] == rest[i - lead];
    rest[..|rest| - trail]
  }

  /** A pivoted header: the two header levels joined by '_', '|' stripped from both ends. */
  function JoinHeader(stat: string, feature: string): (h: string)
    ensures |h| <= |stat| + 1 + |feature|
    ensures |h| > 0 ==> h[0] != '|' && h[|h| - 1] != '|'
  {
    StripBars(stat + "_" + feature)
  }

  /** The joined name always keeps the '_' between the levels, and equals the plain
      join when the outer ends carry no '|'. */
  lemma JoinHeaderKeepsSeparator(stat: string, feature: string)
    ensures '_' in JoinHeader(stat, feature)
    ensures (|stat| == 0 || stat[0] != '|') && (|feature| == 0 || feature[|feature| - 1] != '|') ==>
      JoinHeader(stat, feature) == stat + "_" + feature
  {
    var s := stat + "_" + feature;
    var r := StripBars(s);
    var lead := LeadingBars(s);
    assert s[|stat|] == '_';
    assert lead <= |stat| <  lead + |r|;
    assert r[|stat| - lead] == '_';
    if (|stat| == 0 || stat[0] != '|') && (|feature| == 0 || feature[|feature| - 1] != '|') {
      assert s[0] != '|';
      assert s[|s| - 1] != '|';
      assert lead == 0;
      assert |r| == |s|;
    }
  }

  /** Stripping twice is stripping once. */
  lemma StripBarsIdempotent(s: string)
    ensures StripBars(StripBars(s)) == StripBars(s)
  {
    var r := StripBars(s);
    if |r| > 0 {
      assert LeadingBars(r) == 0;
    }
  }

  /** One trajectory's pivoted row: its header names and values, in order. */
  datatype PivotChunk = PivotChunk(trajId: TrajId, header: seq<string>, values: seq<Cell>)

  /** `pivot_table(index='traj_id', columns='Columns')` of one trajectory's rows:
      (value column, 'Columns' value, aggregated cell) per pivoted column. */
  type PivotTable = seq<Record> -> seq<(string, string, Cell)>

  /** Position of the first column called `name`, or |header| if there is none. */
  function IndexOf(header: seq<string>, name: string): (i: nat)
    ensures i <= |header|
    ensures i < |header| ==> header[i] == name
    ensures forall j :: 0 <= j < i ==> header[j] != name
    ensures i == |header| <==> name !in header
  {
    if |header| == 0 then 0
    else if header[0] == name then 0
    else 1 + IndexOf(header[1..], name)
  }

  /** The value under `name` (first such column); NaN where the chunk has no such
      column, as `pd.concat` fills it. */
  function CellOf(chunk: PivotChunk, name: string): Cell
  {
    var i := IndexOf(chunk.header, name);
    if i < |chunk.values| then chunk.values[i] else NaN
  }

  /** `pivoted[target] = value`: overwrite that column, or append it. */
  function AssignColumn(chunk: PivotChunk, name: string, v: Cell): (r: PivotChunk)
    requires |chunk.header| == |chunk.values|
    ensures |r.header| == |r.values|
    ensures r.trajId == chunk.trajId
    ensures name in r.header && CellOf(r, name) == v
    ensures forall h :: h != name ==> (h in r.header <==> h in chunk.header) && CellOf(r, h) == CellOf(chunk, h)
  {
    if name in chunk.header then
      var vals := seq(|chunk.values|, i requires 0 <= i < |chunk.values| =>
        if chunk.header[i] == name then v else chunk.values[i]);
      var r := PivotChunk(chunk.trajId, chunk.header, vals);
      assert CellOf(r, name) == v by {
        assert IndexOf(chunk.header, name) < |vals|;
      }
      assert forall h :: h != name ==> CellOf(r, h) == CellOf(chunk, h) by {
        forall h | h != name
          ensures CellOf(r, h) == CellOf(chunk, h)
        {
          var i := IndexOf(chunk.header, h);
          if i < |vals| {
            assert chunk.header[i] == h;
          }
        }
      }
      r
    else
      var r := PivotChunk(chunk.trajId, chunk.header + [name], chunk.values + [v]);
      assert forall h :: h != name ==>
        IndexOf(r.header, h) == IndexOf(chunk.header, h) + (if h in chunk.header then 0 else 1) by {
        forall h | h != name
          ensures IndexOf(r.header, h) == IndexOf(chunk.header, h) + (if h in chunk.header then 0 else 1)
        {
          if h in chunk.header {
            IndexOfAppend(chunk.header, name, h);
          }
        }
      }
      assert IndexOf(r.header, name) == |chunk.header|;
      r
  }

  lemma {:induction false} IndexOfAppend(header: seq<string>, extra: string, h: string)
    requires h in header
    ensures IndexOf(header + [extra], h) == IndexOf(header, h)
    decreases |header|
  {
    if |header| > 0 && header[0] != h {
      IndexOfAppend(header[1..], extra, h);
      assert (header + [extra])[1..] == header[1..] + [extra];
    }
  }

  /** `small.drop(columns=['Species'])`: the table the pivot sees. The literal
      "Species" column goes whatever the target is called; every other cell,
      the target's included when it is named differently, stays. */
  function PivotInput(group: seq<Record>): (r: seq<Record>)
    ensures |r| == |group|
    ensures forall i :: 0 <= i < |r| ==> r[i].trajId == group[i].trajId && SPECIES_COL !in r[i].cells
    ensures forall i, c :: 0 <= i < |r| && c != SPECIES_COL && c in group[i].cells ==>
      c in r[i].cells && r[i].cells[c] == group[i].cells[c]
    ensures forall i, c :: 0 <= i < |r| && c in r[i].cells ==> c in group[i].cells
  {
    seq(|group|, i requires 0 <= i < |group| => Record(group[i].trajId, group[i].cells - {SPECIES_COL}))
  }

  /** `pivoted.columns.map('_'.join).str.strip('|')`: the joined name of every
      pivoted column, in pivot order. */
  function PivotHeader(table: seq<(string, string, Cell)>): seq<string>
  {
    seq(|table|, i requires 0 <= i < |table| => JoinHeader(table[i].0, table[i].1))
  }

  /** The aggregated cells of the pivoted columns, in pivot order. */
  function PivotValues(table: seq<(string, string, Cell)>): seq<Cell>
  {
    seq(|table|, i requires 0 <= i < |table| => table[i].2)
  }

  /** After the target is assigned, the pivoted row still has a joined column for
      every pivot entry not named like the target, holding the cell of the first
      entry with that name, and no other column besides the target. */
  lemma JoinedChunkHeaders(trajId: TrajId, table: seq<(string, string, Cell)>, target: string, value: Cell)
    ensures var names := PivotHeader(table);
      var c := AssignColumn(PivotChunk(trajId, names, PivotValues(table)), target, value);
      && (forall h :: h in c.header && h != target ==> exists e :: e in table && h == JoinHeader(e.0, e.1))
      && (forall i :: 0 <= i < |table| && names[i] != target ==>
            names[i] in c.header && CellOf(c, names[i]) == table[IndexOf(names, names[i])].2)
  {
    var names := PivotHeader(table);
    var plain := PivotChunk(trajId, names, PivotValues(table));
    var c := AssignColumn(plain, target, value);
    forall h | h in c.header && h != target
      ensures exists e :: e in table && h == JoinHeader(e.0, e.1)
    {
      var i :| 0 <= i < |names| && names[i] == h;
      assert table[i] in table;
    }
    forall i | 0 <= i < |table| && names[i] != target
      ensures names[i] in c.header && CellOf(c, names[i]) == table[IndexOf(names, names[i])].2
    {
      assert names[i] in names;
      assert CellOf(plain, names[i]) == table[IndexOf(names, names[i])].2;
    }
  }

  /** One pass of the loop in pivot_stats_df: take the target from the first row,
      drop the literal "Species" column, pivot, join the header names, re-attach
      the target. */
  function PivotGroup(group: seq<Record>, target: string, pivotTable: PivotTable): (r: Result<PivotChunk, PdError>)
    requires |group| > 0
    ensures r.Ok? <==> target in group[0].cells && SPECIES_COL in group[0].cells
    ensures r.Err? ==> r.error == KeyError(if target !in group[0].cells then target else SPECIES_COL)
    ensures r.Ok? ==> r.value.trajId == group[0].trajId && |r.value.header| == |r.value.values|
    ensures r.Ok? ==> target in r.value.header && CellOf(r.value, target) == group[0].cells[target]
    ensures r.Ok? ==> forall h :: h in r.value.header && h != target ==>
      exists e :: e in pivotTable(PivotInput(group)) && h == JoinHeader(e.0, e.1)
    ensures r.Ok? ==>
      var table := pivotTable(PivotInput(group));
      var names := PivotHeader(table);
      forall i :: 0 <= i < |table| && names[i] != target ==>
        names[i] in r.value.header && CellOf(r.value, names[i]) == table[IndexOf(names, names[i])].2
  {
    if target !in group[0].cells then Err(KeyError(target))
    else if SPECIES_COL !in group[0].cells then Err(KeyError(SPECIES_COL))
    else
      var value := group[0].cells[target];
      var table := pivotTable(PivotInput(group));
      JoinedChunkHeaders(group[0].trajId, table, target, value);
      var chunk := AssignColumn(PivotChunk(group[0].trajId, PivotHeader(table), PivotValues(table)), target, value);
      Ok(chunk)
  }

  /** Some row of the table belongs to trajectory `id`. */
  ghost predicate Occurs(rows: seq<Record>, id: TrajId)
  {
    exists p :: 0 <= p < |rows| && rows[p].trajId == id
  }

  ghost predicate AllOccur(rows: seq<Record>, ids: seq<TrajId>)
  {
    forall k :: 0 <= k < |ids| ==> Occurs(rows, ids[k])
  }

  /** Every listed trajectory has a non-empty chunk. */
  lemma AllGroupsNonEmpty(rows: seq<Record>, ids: seq<TrajId>)
    requires AllOccur(rows, ids)
    ensures forall k :: 0 <= k < |ids| ==> |SplitById(rows, ids)[k]| > 0
  {
    forall k | 0 <= k < |ids|
      ensures |RowsOf(rows, ids[k])| > 0
    {
      assert Occurs(rows, ids[k]);
      var p :| 0 <= p < |rows| && rows[p].trajId == ids[k];
      RowsOfNonEmpty(rows, ids[k], p);
    }
  }

  /** The body of the loop over ids, applied to one trajectory's rows. */
  type PivotStep = seq<Record> --> Result<PivotChunk, PdError>

  function StepFor(target: string, pivotTable: PivotTable): PivotStep
  {
    group requires |group| > 0 => PivotGroup(group, target, pivotTable)
  }

  /** The loop over the per-trajectory groups: one pivoted chunk per group, in
      order; the first error stops it. */
  function PivotLoop(groups: seq<seq<Record>>, step: PivotStep): (r: Result<seq<PivotChunk>, PdError>)
    requires forall k :: 0 <= k < |groups| ==> step.requires(groups[k])
    ensures r.Ok? ==> |r.value| == |groups|
  {
    if |groups| == 0 then Ok([])
    else
      match PivotLoop(groups[..|groups| - 1], step)
      case Err(e) => Err(e)
      case Ok(cs) =>
        match step(groups[|groups| - 1])
        case Err(e) => Err(e)
        case Ok(c) => Ok(cs + [c])
  }

  /** The loop of pivot_stats_df over the trajectory ids. */
  function PivotChunks(rows: seq<Record>, ids: seq<TrajId>, target: string, pivotTable: PivotTable)
    : (r: Result<seq<PivotChunk>, PdError>)
    requires AllOccur(rows, ids)
    ensures r.Ok? ==> |r.value| == |ids|
  {
    AllGroupsNonEmpty(rows, ids);
    PivotLoop(SplitById(rows, ids), StepFor(target, pivotTable))
  }

  /** The first error of a prefix of the groups is the error of the whole loop. */
  lemma {:induction false} PivotErrorSticks(groups: seq<seq<Record>>, step: PivotStep, m: nat)
    requires forall k :: 0 <= k < |groups| ==> step.requires(groups[k])
    requires m <= |groups| && PivotLoop(groups[..m], step).Err?
    ensures PivotLoop(groups, step) == PivotLoop(groups[..m], step)
    decreases |groups| - m
  {
    if m < |groups| {
      assert groups[..m + 1][..m] == groups[..m];
      PivotErrorSticks(groups, step, m + 1);
    } else {
      assert groups[..m] == groups;
    }
  }

  /** The loop succeeds exactly when every step succeeds, and then holds every
      step's chunk, in group order. */
  lemma {:induction false} PivotLoopResult(groups: seq<seq<Record>>, step: PivotStep)
    requires forall k :: 0 <= k < |groups| ==> step.requires(groups[k])
    ensures PivotLoop(groups, step).Ok? <==> forall k :: 0 <= k < |groups| ==> step(groups[k]).Ok?
    ensures PivotLoop(groups, step).Ok? ==>
      |PivotLoop(groups, step).value| == |groups| &&
      forall k :: 0 <= k < |groups| ==> step(groups[k]) == Ok(PivotLoop(groups, step).value[k])
    decreases |groups|
  {
    if |groups| > 0 {
      var front := groups[..|groups| - 1];
      PivotLoopResult(front, step);
      assert forall k :: 0 <= k < |front| ==> front[k] == groups[k];
    }
  }

  /** A failed loop reports the error of one of its steps. */
  lemma {:induction false} PivotLoopError(groups: seq<seq<Record>>, step: PivotStep)
    requires forall k :: 0 <= k < |groups| ==> step.requires(groups[k])
    requires PivotLoop(groups, step).Err?
    ensures exists k :: 0 <= k < |groups| && step(groups[k]) == Err(PivotLoop(groups, step).error)
    decreases |groups|
  {
    var front := groups[..|groups| - 1];
    assert forall k :: 0 <= k < |front| ==> front[k] == groups[k];
    if PivotLoop(front, step).Err? {
      PivotLoopError(front, step);
      var k :| 0 <= k < |front| && step(front[k]) == Err(PivotLoop(front, step).error);
      assert step(groups[k]) == Err(PivotLoop(groups, step).error);
    } else {
      assert step(groups[|groups| - 1]) == Err(PivotLoop(groups, step).error);
    }
  }

  /** The first row of that trajectory has the target and "Species" columns. */
  ghost predicate GroupOk(rows: seq<Record>, id: TrajId, target: string)
  {
    |RowsOf(rows, id)| > 0 && target in RowsOf(rows, id)[0].cells && SPECIES_COL in RowsOf(rows, id)[0].cells
  }

  /** The target value of that trajectory's first row. */
  ghost function FirstTarget(rows: seq<Record>, id: TrajId, target: string): Cell
    requires GroupOk(rows, id, target)
  {
    RowsOf(rows, id)[0].cells[target]
  }

  /** The pivot loop succeeds exactly when every trajectory's first row has the
      target and "Species" columns; it then emits one chunk per id, in id order,
      each carrying the target value of that trajectory's first row. */
  lemma PivotChunksShape(rows: seq<Record>, ids: seq<TrajId>, target: string, pivotTable: PivotTable)
    requires AllOccur(rows, ids)
    ensures PivotChunks(rows, ids, target, pivotTable).Ok? <==>
      forall k :: 0 <= k < |ids| ==> GroupOk(rows, ids[k], target)
    ensures PivotChunks(rows, ids, target, pivotTable).Ok? ==>
      var cs := PivotChunks(rows, ids, target, pivotTable).value;
      |cs| == |ids| &&
      forall k :: 0 <= k < |ids| ==>
        GroupOk(rows, ids[k], target) && cs[k].trajId == ids[k] && target in cs[k].header &&
        CellOf(cs[k], target) == FirstTarget(rows, ids[k], target)
    ensures PivotChunks(rows, ids, target, pivotTable).Err? ==>
      var e := PivotChunks(rows, ids, target, pivotTable).error;
      e.KeyError? && e.key in {target, SPECIES_COL}
  {
    AllGroupsNonEmpty(rows, ids);
    var groups, step := SplitById(rows, ids), StepFor(target, pivotTable);
    PivotLoopResult(groups, step);
    if PivotLoop(groups, step).Err? {
      PivotLoopError(groups, step);
      var k :| 0 <= k < |groups| && step(groups[k]) == Err(PivotLoop(groups, step).error);
      assert step(groups[k]) == PivotGroup(groups[k], target, pivotTable);
    }
    forall k | 0 <= k < |ids|
      ensures step(groups[k]) == PivotGroup(RowsOf(rows, ids[k]), target, pivotTable)
      ensures step(groups[k]).Ok? <==> GroupOk(rows, ids[k], target)
    {
    }
  }

  /** The shape of the pivoted result. */
  datatype Pivoted = Pivoted(columns: seq<string>, index: seq<TrajId>, rows: seq<seq<Cell>>)

  /** `pd.concat(final_chunks)[cols]`: every listed column must exist in some chunk. */
  function SelectColumns(chunks: seq<PivotChunk>, cols: seq<string>): (r: Result<Pivoted, PdError>)
    ensures r.Err? <==> exists c :: c in cols && forall k :: 0 <= k < |chunks| ==> c !in chunks[k].header
    ensures r.Err? ==> r.error.KeyError? && r.error.key in cols
    ensures r.Ok? ==> r.value.columns == cols && |r.value.index| == |r.value.rows| == |chunks|
    ensures r.Ok? ==> forall k :: 0 <= k < |chunks| ==>
      r.value.index[k] == chunks[k].trajId && |r.value.rows[k]| == |cols| &&
      forall j :: 0 <= j < |cols| ==> r.value.rows[k][j] == CellOf(chunks[k], cols[j])
  {
    match FirstMissing(chunks, cols)
    case Some(c) => Err(KeyError(c))
    case None =>
      Ok(Pivoted(cols,
        seq(|chunks|, k requires 0 <= k < |chunks| => chunks[k].trajId),
        seq(|chunks|, k requires 0 <= k < |chunks| =>
          seq(|cols|, j requires 0 <= j < |cols| => CellOf(chunks[k], cols[j])))))
  }

  /** The first listed column that no chunk has. */
  function FirstMissing(chunks: seq<PivotChunk>, cols: seq<string>): (r: Option<string>)
    ensures r.Some? ==> r.value in cols && forall k :: 0 <= k < |chunks| ==> r.value !in chunks[k].header
    ensures r.None? ==> forall c :: c in cols ==> exists k :: 0 <= k < |chunks| && c in chunks[k].header
  {
    if |cols| == 0 then None
    else if forall k :: 0 <= k < |chunks| ==> cols[0] !in chunks[k].header then Some(cols[0])
    else
      var r := FirstMissing(chunks, cols[1..]);
      assert forall c :: c in cols ==> c == cols[0] || c in cols[1..];
      r
  }

  /** The module-level `const.ORDERED_COLS` list, which pivot_stats_df appends to. */
  class OrderedCols {
    var names: seq<string>

    constructor (names: seq<string>)
      ensures this.names == names
    {
      this.names := names;
    }

    /** `cols.append(name)` on the shared list. */
    method Append(name: string)
      modifies this
      ensures names == old(names) + [name]
    {
      names := names + [name];
    }
  }

  /** pivot_stats_df. `cols = const.ORDERED_COLS; cols.append(target)` aliases the
      shared list, so the target name is appended to it on every call that gets
      that far, and the selection uses the grown list. */
  method PivotStatsDf(dataframe: seq<Record>, target: string, pivotTable: PivotTable, ordered: OrderedCols)
    returns (r: Result<Pivoted, PdError>)
    modifies ordered
    ensures var chunks := PivotChunks(dataframe, UniqueIds(dataframe), target, pivotTable);
      && (chunks.Err? ==> r == Err(chunks.error) && ordered.names == old(ordered.names))
      && (chunks == Ok([]) ==> r == Err(NoObjectsToConcatenate) && ordered.names == old(ordered.names))
      && (chunks.Ok? && chunks.value != [] ==>
            ordered.names == old(ordered.names) + [target] && r == SelectColumns(chunks.value, ordered.names))
  {
    var ids := UniqueIds(dataframe);
    var step := StepFor(target, pivotTable);
    AllGroupsNonEmpty(dataframe, ids);
    assert forall k :: 0 <= k < |ids| ==> step.requires(SplitById(dataframe, ids)[k]);
    var chunks := PivotEachTrajectory(dataframe, ids, step);
    if chunks.Err? {
      return Err(chunks.error);
    }
    if chunks.value == [] {
      return Err(NoObjectsToConcatenate);
    }
    ordered.Append(target);
    r := SelectColumns(chunks.value, ordered.names);
  }

  /** The `for traj_id in ids` loop of pivot_stats_df, building `final_chunks`;
      `step` is the loop body on one trajectory's rows (StepFor in pivot_stats_df). */
  method PivotEachTrajectory(dataframe: seq<Record>, ids: seq<TrajId>, step: PivotStep)
    returns (result: Result<seq<PivotChunk>, PdError>)
    requires forall k :: 0 <= k < |ids| ==> step.requires(SplitById(dataframe, ids)[k])
    ensures result == PivotLoop(SplitById(dataframe, ids), step)
  {
    ghost var groups := SplitById(dataframe, ids);
    var finalChunks: seq<PivotChunk> := [];
    var i := 0;
    while i < |ids|
      invariant 0 <= i <= |ids|
      invariant PivotLoop(groups[..i], step) == Ok(finalChunks)
    {
      assert groups[..i + 1][..i] == groups[..i];
      var small := RowsOf(dataframe, ids[i]);
      assert small == groups[i];
      var piece := step(small);
      if piece.Err? {
        PivotErrorSticks(groups, step, i + 1);
        assert groups[..|groups|] == groups;
        return Err(piece.error);
      }
      finalChunks := finalChunks + [piece.value];
      i := i + 1;
    }
    assert groups[..i] == groups;
    result := Ok(finalChunks);
  }

  /** A successful pivot has one row per trajectory, in first-appearance order, and
      its last column is the target, holding each trajectory's first target value. */
  lemma PivotCarriesTarget(dataframe: seq<Record>, target: string, pivotTable: PivotTable, cols: seq<string>)
    requires PivotChunks(dataframe, UniqueIds(dataframe), target, pivotTable).Ok?
    requires SelectColumns(PivotChunks(dataframe, UniqueIds(dataframe), target, pivotTable).value, cols + [target]).Ok?
    ensures var ids := UniqueIds(dataframe);
      var p := SelectColumns(PivotChunks(dataframe, ids, target, pivotTable).value, cols + [target]).value;
      p.index == ids && p.columns == cols + [target] &&
      (forall k :: 0 <= k < |ids| ==>
         GroupOk(dataframe, ids[k], target) && p.rows[k][|cols|] == FirstTarget(dataframe, ids[k], target))
  {
    var ids := UniqueIds(dataframe);
    var cs := PivotChunks(dataframe, ids, target, pivotTable).value;
    PivotChunksShape(dataframe, ids, target, pivotTable);
    var all := cols + [target];
    assert all[|cols|] == target;
    var p := SelectColumns(cs, all).value;
    assert |p.index| == |ids|;
    forall k | 0 <= k < |ids|
      ensures p.index[k] == ids[k]
      ensures p.rows[k][|cols|] == FirstTarget(dataframe, ids[k], target)
    {
      assert p.rows[k][|cols|] == CellOf(cs[k], all[|cols|]);
    }
  }

  /** Two pivots through the same shared list: the second selects the target
      column twice, so the column order differs between the calls. */
  method PivotTwice(dataframe: seq<Record>, target: string, pivotTable: PivotTable, initial: seq<string>)
    returns (first: Result<Pivoted, PdError>, second: Result<Pivoted, PdError>, finalNames: seq<string>)
    ensures var chunks := PivotChunks(dataframe, UniqueIds(dataframe), target, pivotTable);
      chunks.Ok? && chunks.value != [] ==> finalNames == initial + [target, target]
    ensures first.Ok? ==> first.value.columns == initial + [target]
    ensures first.Ok? ==> second.Ok?
    ensures second.Ok? ==> second.value.columns == initial + [target, target]
  {
    var ordered := new OrderedCols(initial);
    first := PivotStatsDf(dataframe, target, pivotTable, ordered);
    second := PivotStatsDf(dataframe, target, pivotTable, ordered);
    finalNames := ordered.names;
    if first.Ok? {
      // The second selection asks for no column the first did not already find.
      assert forall c :: c in initial + [target, target] ==> c in initial + [target];
    }
  }
}
