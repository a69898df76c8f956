/** The row-count partitioner and the ordered merge shared by every partitioned
    column builder: the table is cut at positions 0, 75001, 150002, ..., each
    piece is the label-inclusive slice `loc[i : i + 75000]`, a worker runs on
    every piece (the process pool, modelled as an order-preserving map), and the
    pieces' results are concatenated in piece order. */
module Partition {

  /** Step of `range(0, len(dataframe), 75001)`. */
  const RANGE_STEP: nat := 75001
  /** Offset of the inclusive end label in `loc[i : i + 75000]`. */
  const SLICE_SPAN: nat := 75000

  function Min(a: int, b: int): int { if a <= b then a else b }

  /** `loc[lo : hi]` on a table whose labels are 0 .. |s| - 1: both labels
      are inclusive and a label past the end is clipped. */
  function LocInclusive<T>(s: seq<T>, lo: nat, hi: nat): seq<T>
    requires lo <= hi && lo <= |s|
  {
    s[lo .. Min(hi + 1, |s|)]
  }

  /** How many start positions `range(0, n, 75001)` yields. */
  function NumChunks(n: nat): nat
  {
    (n + SLICE_SPAN) / RANGE_STEP
  }

  /** The chunk list the partition loops build, as a value. */
  function Chunks<T>(s: seq<T>): (chunks: seq<seq<T>>)
    ensures |chunks| == 0 <==> |s| == 0
    ensures forall k :: 0 <= k < |chunks| ==> 1 <= |chunks[k]| <= RANGE_STEP
  {
    seq(NumChunks(|s|), k requires 0 <= k < NumChunks(|s|) =>
      LocInclusive(s, k * RANGE_STEP, k * RANGE_STEP + SLICE_SPAN))
  }

  /** `pd.concat` of a list of pieces, in list order. */
  function Flatten<T>(ss: seq<seq<T>>): (r: seq<T>)
    ensures |r| == TotalLength(ss)
  {
    if |ss| == 0 then []
    else
      var front := ss[..|ss| - 1];
      TotalLengthSnoc(front, ss[|ss| - 1]);
      assert front + [ss[|ss| - 1]] == ss;
      Flatten(front) + ss[|ss| - 1]
  }

  /** The number of rows in a list of pieces, counted from the front. */
  function TotalLength<T>(ss: seq<seq<T>>): nat
  {
    if |ss| == 0 then 0 else |ss[0]| + TotalLength(ss[1..])
  }

  lemma {:induction false} TotalLengthSnoc<T>(ss: seq<seq<T>>, last: seq<T>)
    ensures TotalLength(ss + [last]) == TotalLength(ss) + |last|
    decreases |ss|
  {
    if |ss| > 0 {
      assert (ss + [last])[1..] == ss[1..] + [last];
      TotalLengthSnoc(ss[1..], last);
    } else {
      assert (ss + [last])[1..] == [];
    }
  }

  /** `pd.concat` loses no row and invents none: a value is in the concatenation
      exactly when it is in one of the pieces. */
  lemma {:induction false} FlattenMembers<T>(ss: seq<seq<T>>)
    ensures forall x :: x in Flatten(ss) <==> exists k :: 0 <= k < |ss| && x in ss[k]
    decreases |ss|
  {
    if |ss| > 0 {
      var front := ss[..|ss| - 1];
      FlattenMembers(front);
      assert forall k :: 0 <= k < |front| ==> front[k] == ss[k];
    }
  }

  /** `pool.map(worker, chunks)`: one result per chunk, in chunk order. */
  function MapChunks<T, U>(chunks: seq<seq<T>>, worker: seq<T> -> seq<U>): (results: seq<seq<U>>)
    ensures |results| == |chunks|
  {
    seq(|chunks|, k requires 0 <= k < |chunks| => worker(chunks[k]))
  }

  /** The map keeps chunk order: mapping a concatenation of chunk lists is the
      concatenation of the two maps. */
  lemma MapChunksAppend<T, U>(a: seq<seq<T>>, b: seq<seq<T>>, worker: seq<T> -> seq<U>)
    ensures MapChunks(a + b, worker) == MapChunks(a, worker) + MapChunks(b, worker)
  {
  }

  /** Partition, map the worker over the pieces, concatenate the results. */
  function PartitionMapMerge<T, U>(s: seq<T>, worker: seq<T> -> seq<U>): seq<U>
  {
    Flatten(MapChunks(Chunks(s), worker))
  }

  /** A worker that returns one value per row of its chunk. */
  ghost predicate PreservesLength<T(!new), U>(worker: seq<T> -> seq<U>)
  {
    forall c :: |worker(c)| == |c|
  }

  /** A worker that applies one function to each row independently. */
  function MapRows<T, U>(f: T -> U, s: seq<T>): seq<U>
  {
    seq(|s|, i requires 0 <= i < |s| => f(s[i]))
  }

  /** The partition loop: `for i in range(0, len(df), 75001): chunks.append(df.loc[i : i + 75000])`. */
  method SplitIntoChunks<T>(s: seq<T>) returns (chunks: seq<seq<T>>)
    ensures chunks == Chunks(s)
  {
    chunks := [];
    var i := 0;
    while i < |s|
      invariant i == |chunks| * RANGE_STEP
      invariant |chunks| <= NumChunks(|s|)
      invariant chunks == Chunks(s)[..|chunks|]
    {
      chunks := chunks + [LocInclusive(s, i, i + SLICE_SPAN)];
      i := i + RANGE_STEP;
    }
  }

  /** Chunk k starts at row 75001 k and holds between 1 and 75001 rows (the slice
      is inclusive of i + 75000); there are ceil(n / 75001) chunks, none for an
      empty table. */
  lemma ChunkShape<T>(s: seq<T>, k: nat)
    requires k < |Chunks(s)|
    ensures |Chunks(s)| * RANGE_STEP >= |s| > (|Chunks(s)| - 1) * RANGE_STEP
    ensures Chunks(s)[k] == s[k * RANGE_STEP .. Min(k * RANGE_STEP + RANGE_STEP, |s|)]
    ensures 1 <= |Chunks(s)[k]| <= RANGE_STEP
  {
  }

  lemma NoChunksForEmptyTable<T>(s: seq<T>)
    ensures |Chunks(s)| == 0 <==> |s| == 0
  {
  }

  lemma {:induction false} FlattenAppend<T>(a: seq<seq<T>>, b: seq<seq<T>>)
    ensures Flatten(a + b) == Flatten(a) + Flatten(b)
    decreases |b|
  {
    if |b| == 0 {
      assert a + b == a;
    } else {
      var c := a + b;
      FlattenAppend(a, b[..|b| - 1]);
      assert c[..|c| - 1] == a + b[..|b| - 1];
      assert c[|c| - 1] == b[|b| - 1];
      assert Flatten(c) == Flatten(c[..|c| - 1]) + c[|c| - 1];
      assert Flatten(b) == Flatten(b[..|b| - 1]) + b[|b| - 1];
    }
  }

  lemma DivStep(j: int, q: int)
    requires q * RANGE_STEP <= j < q * RANGE_STEP + RANGE_STEP
    ensures j / RANGE_STEP == q && j % RANGE_STEP == j - q * RANGE_STEP
  {
  }

  /** Concatenating the first k results of chunk-shaped outputs puts entry j of
      the concatenation at position j mod 75001 of result j div 75001. */
  lemma {:induction false} FlattenChunkPrefix<T, U>(s: seq<T>, outs: seq<seq<U>>, k: nat)
    requires |outs| == |Chunks(s)|
    requires forall m :: 0 <= m < |outs| ==> |outs[m]| == |Chunks(s)[m]|
    requires k <= |outs|
    ensures |Flatten(outs[..k])| == Min(k * RANGE_STEP, |s|)
    ensures forall j :: 0 <= j < |Flatten(outs[..k])| ==>
      j / RANGE_STEP < k && j % RANGE_STEP < |outs[j / RANGE_STEP]| &&
      Flatten(outs[..k])[j] == outs[j / RANGE_STEP][j % RANGE_STEP]
  {
    if k > 0 {
      FlattenChunkPrefix(s, outs, k - 1);
      assert outs[..k][..k - 1] == outs[..k - 1];
      assert Flatten(outs[..k]) == Flatten(outs[..k - 1]) + outs[k - 1];
      ChunkShape(s, k - 1);
      AppendChunk(outs, k - 1, Flatten(outs[..k - 1]));
    }
  }

  /** The inductive step of FlattenChunkPrefix: a prefix holding the first q full
      chunks, followed by result q, keeps every entry at its chunk and offset. */
  lemma AppendChunk<U>(outs: seq<seq<U>>, q: nat, front: seq<U>)
    requires q < |outs|
    requires |front| == q * RANGE_STEP
    requires |outs[q]| <= RANGE_STEP
    requires forall j :: 0 <= j < |front| ==>
      j / RANGE_STEP < q && j % RANGE_STEP < |outs[j / RANGE_STEP]| &&
      front[j] == outs[j / RANGE_STEP][j % RANGE_STEP]
    ensures forall j :: 0 <= j < |front + outs[q]| ==>
      j / RANGE_STEP <= q && j % RANGE_STEP < |outs[j / RANGE_STEP]| &&
      (front + outs[q])[j] == outs[j / RANGE_STEP][j % RANGE_STEP]
  {
    forall j | 0 <= j < |front + outs[q]|
      ensures j / RANGE_STEP <= q && j % RANGE_STEP < |outs[j / RANGE_STEP]|
      ensures (front + outs[q])[j] == outs[j / RANGE_STEP][j % RANGE_STEP]
    {
      if j >= |front| {
        DivStep(j, q);
      }
    }
  }

  /** Every row is produced by the worker call on its own chunk, at its offset
      there: a row's result never depends on another chunk's rows, which is why a
      "from previous row" worker restarts at every chunk boundary. */
  lemma MergeIsChunkLocal<T(!new), U>(s: seq<T>, worker: seq<T> -> seq<U>, j: nat)
    requires PreservesLength(worker)
    requires j < |s|
    ensures |PartitionMapMerge(s, worker)| == |s|
    ensures j / RANGE_STEP < |Chunks(s)|
    ensures PartitionMapMerge(s, worker)[j] == worker(Chunks(s)[j / RANGE_STEP])[j % RANGE_STEP]
  {
    var outs := MapChunks(Chunks(s), worker);
    FlattenChunkPrefix(s, outs, |outs|);
    assert outs[..|outs|] == outs;
    var q := |Chunks(s)| - 1;
    ChunkShape(s, q);
    if j >= q * RANGE_STEP {
      DivStep(j, q);
    }
  }

  lemma MergeLength<T(!new), U>(s: seq<T>, worker: seq<T> -> seq<U>)
    requires PreservesLength(worker)
    ensures |PartitionMapMerge(s, worker)| == |s|
  {
    if |s| > 0 {
      MergeIsChunkLocal(s, worker, 0);
    } else {
      assert Chunks(s) == [];
    }
  }

  /** Concatenating the chunks in order gives back the table: no row is lost,
      duplicated or moved. */
  lemma ChunksRoundTrip<T>(s: seq<T>)
    ensures Flatten(Chunks(s)) == s
  {
    var chunks := Chunks(s);
    FlattenChunkPrefix(s, chunks, |chunks|);
    assert chunks[..|chunks|] == chunks;
    if |s| > 0 {
      ChunkShape(s, 0);
    }
    forall j | 0 <= j < |s|
      ensures Flatten(chunks)[j] == s[j]
    {
      ChunkEntry(s, j);
    }
  }

  /** Row j of the table sits in chunk j div 75001, at offset j mod 75001. */
  lemma ChunkEntry<T>(s: seq<T>, j: nat)
    requires j < |s|
    ensures j / RANGE_STEP < |Chunks(s)| && j % RANGE_STEP < |Chunks(s)[j / RANGE_STEP]|
    ensures Chunks(s)[j / RANGE_STEP][j % RANGE_STEP] == s[j]
  {
    var r := j / RANGE_STEP;
    DivStep(j, r);
    ChunkShape(s, 0);
    ChunkShape(s, r);
  }

  /** With the identity worker, partition-then-merge is the identity. */
  lemma IdentityWorkerRoundTrip<T>(s: seq<T>, worker: seq<T> -> seq<T>)
    requires forall c :: worker(c) == c
    ensures PartitionMapMerge(s, worker) == s
  {
    assert MapChunks(Chunks(s), worker) == Chunks(s);
    ChunksRoundTrip(s);
  }

  lemma MapRowsAppend<T, U>(f: T -> U, a: seq<T>, b: seq<T>)
    ensures MapRows(f, a + b) == MapRows(f, a) + MapRows(f, b)
  {
  }

  /** Mapping a row-wise worker over any list of pieces and concatenating equals
      applying it to the concatenated pieces. */
  lemma {:induction false} RowwiseMerge<T, U>(ss: seq<seq<T>>, f: T -> U, worker: seq<T> -> seq<U>)
    requires forall c :: worker(c) == MapRows(f, c)
    ensures Flatten(MapChunks(ss, worker)) == MapRows(f, Flatten(ss))
  {
    if |ss| > 0 {
      var m := |ss|;
      RowwiseMerge(ss[..m - 1], f, worker);
      assert MapChunks(ss, worker)[..m - 1] == MapChunks(ss[..m - 1], worker);
      MapRowsAppend(f, Flatten(ss[..m - 1]), ss[m - 1]);
    }
  }

  /** For a worker that treats each row on its own (distance to a fixed point,
      range membership), partitioning does not change the result. */
  lemma RowwiseWorkerIgnoresPartition<T, U>(s: seq<T>, f: T -> U, worker: seq<T> -> seq<U>)
    requires forall c :: worker(c) == MapRows(f, c)
    ensures PartitionMapMerge(s, worker) == MapRows(f, s)
  {
    RowwiseMerge(Chunks(s), f, worker);
    ChunksRoundTrip(s);
  }
}
