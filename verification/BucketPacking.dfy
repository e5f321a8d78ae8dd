// Greedy packing of chunks into buckets, as the sender does it.

module BucketPacking {
  import opened Common
  import opened Pieces
  import opened WeightChunks

  /** The full buckets, the bucket being filled, and its fill level. */
  datatype Packing = Packing(full: seq<seq<Chunk>>, current: seq<Chunk>, offset: nat)

  function PlaceAt(c: Chunk, offset: nat): (r: Chunk) {
    c.(meta := c.meta.(offset := offset))
  }

  /** The packing after the first `n` chunks: a chunk that does not fit opens the next bucket. */
  function Pack(chunks: seq<Chunk>, n: nat, bucketSize: nat): (r: Packing)
    requires n <= |chunks|
  {
    if n == 0 then Packing([], [], 0)
    else
      var p, c := Pack(chunks, n - 1, bucketSize), chunks[n - 1];
      if p.offset + c.meta.chunkSize > bucketSize
      then Packing(p.full + [p.current], [PlaceAt(c, 0)], c.meta.chunkSize)
      else Packing(p.full, p.current + [PlaceAt(c, p.offset)], p.offset + c.meta.chunkSize)
  }

  function Buckets(chunks: seq<Chunk>, bucketSize: nat): (r: seq<seq<Chunk>>)
    ensures r != []
  {
    var p := Pack(chunks, |chunks|, bucketSize);
    p.full + [p.current]
  }

  /** Buckets are only ever appended, and the bucket being filled only grows until it is full. */
  lemma {:induction false} PackGrows(chunks: seq<Chunk>, n: nat, m: nat, bucketSize: nat)
    requires n <= m <= |chunks|
    ensures var p, q := Pack(chunks, n, bucketSize), Pack(chunks, m, bucketSize);
            && p.full <= q.full
            && (|p.full| < |q.full| ==> p.current <= q.full[|p.full|])
            && (|p.full| == |q.full| ==> p.current <= q.current)
    decreases m
  {
    if n < m {
      PackGrows(chunks, n, m - 1, bucketSize);
    }
  }

  /** What is flushed when chunk `n` does not fit is a whole bucket. */
  lemma FlushedBucket(chunks: seq<Chunk>, n: nat, bucketSize: nat)
    requires n < |chunks|
    ensures var p, all := Pack(chunks, n, bucketSize), Buckets(chunks, bucketSize);
            p.offset + chunks[n].meta.chunkSize > bucketSize ==>
              |p.full| + 1 < |all| && all[|p.full|] == p.current
  {
    var p, q := Pack(chunks, n, bucketSize), Pack(chunks, n + 1, bucketSize);
    if p.offset + chunks[n].meta.chunkSize > bucketSize {
      PackGrows(chunks, n + 1, |chunks|, bucketSize);
      assert q.full[|p.full|] == p.current;
    }
  }

  lemma FullBucketsFit(chunks: seq<Chunk>, n: nat, bucketSize: nat)
    requires n <= |chunks|
    ensures |Pack(chunks, n, bucketSize).full| < |Buckets(chunks, bucketSize)|
  {
    PackGrows(chunks, n, |chunks|, bucketSize);
  }

  // ---- laid out buckets ----------------------------------------------------------------------------

  /** Every chunk carries its bytes and lies in the bucket, and chunks of a bucket do not overlap. */
  ghost predicate Laid(bucket: seq<Chunk>, offset: nat, bucketSize: nat) {
    && offset <= bucketSize
    && (forall i :: 0 <= i < |bucket| ==>
          |bucket[i].data| == bucket[i].meta.chunkSize && bucket[i].meta.offset + |bucket[i].data| <= offset)
    && forall i, j :: 0 <= i < j < |bucket| ==>
         bucket[i].meta.offset + |bucket[i].data| <= bucket[j].meta.offset
  }

  /** Chunks as the splitter makes them: they carry what they announce, and fit a bucket. */
  ghost predicate Fits(chunks: seq<Chunk>, bucketSize: nat) {
    forall i :: 0 <= i < |chunks| ==>
      |chunks[i].data| == chunks[i].meta.chunkSize && 0 < chunks[i].meta.chunkSize <= bucketSize
  }

  lemma {:induction false} PackIsLaid(chunks: seq<Chunk>, n: nat, bucketSize: nat)
    requires n <= |chunks| && Fits(chunks, bucketSize)
    ensures var p := Pack(chunks, n, bucketSize);
            Laid(p.current, p.offset, bucketSize) && (n > 0 ==> p.offset > 0)
  {
    if n > 0 {
      PackIsLaid(chunks, n - 1, bucketSize);
    }
  }

  lemma {:induction false} TensorChunksFit(t: Tensor, from: nat, bucketSize: nat)
    requires from <= |t.bytes| && bucketSize > 0
    ensures Fits(TensorChunks(t, from, bucketSize), bucketSize)
    decreases |t.bytes| - from
  {
    if from < |t.bytes| {
      TensorChunksFit(t, from + Min(bucketSize, |t.bytes| - from), bucketSize);
    }
  }

  lemma {:induction false} ChunksFit(weights: seq<Tensor>, bucketSize: nat)
    requires bucketSize > 0
    ensures Fits(ChunksOf(weights, bucketSize), bucketSize)
  {
    if weights != [] {
      TensorChunksFit(weights[0], 0, bucketSize);
      ChunksFit(weights[1..], bucketSize);
    }
  }

  // ---- nothing is reordered --------------------------------------------------------------------------

  /** The same chunks, up to where they sit in their bucket. */
  ghost predicate SameChunks(a: seq<Chunk>, b: seq<Chunk>) {
    |a| == |b| && forall i :: 0 <= i < |a| ==> PlaceAt(a[i], 0) == PlaceAt(b[i], 0)
  }

  lemma SameAppend(a: seq<Chunk>, b: seq<Chunk>, c: Chunk, d: Chunk)
    requires SameChunks(a, b) && PlaceAt(c, 0) == PlaceAt(d, 0)
    ensures SameChunks(a + [c], b + [d])
  {
  }

  lemma {:induction false} PackKeepsChunks(chunks: seq<Chunk>, n: nat, bucketSize: nat)
    requires n <= |chunks|
    ensures var p := Pack(chunks, n, bucketSize); SameChunks(Flatten(p.full) + p.current, chunks[..n])
  {
    hide SameChunks;
    if n == 0 {
      assert SameChunks([], []) by { NoChunksAreSame(); }
    } else {
      PackKeepsChunks(chunks, n - 1, bucketSize);
      var p, q, c := Pack(chunks, n - 1, bucketSize), Pack(chunks, n, bucketSize), chunks[n - 1];
      assert (p.full + [p.current])[..|p.full|] == p.full;
      assert chunks[..n] == chunks[..n - 1] + [c];
      var last := if p.offset + c.meta.chunkSize > bucketSize then PlaceAt(c, 0) else PlaceAt(c, p.offset);
      SameAppend(Flatten(p.full) + p.current, chunks[..n - 1], last, c);
      assert Flatten(q.full) + q.current == (Flatten(p.full) + p.current) + [last];
    }
  }

  lemma NoChunksAreSame()
    ensures SameChunks([], [])
  {
  }

  /** The buckets, one after the other, hold all chunks in order. */
  lemma BucketsKeepChunks(chunks: seq<Chunk>, bucketSize: nat)
    ensures SameChunks(Flatten(Buckets(chunks, bucketSize)), chunks)
  {
    var p := Pack(chunks, |chunks|, bucketSize);
    PackKeepsChunks(chunks, |chunks|, bucketSize);
    assert (p.full + [p.current])[..|p.full|] == p.full;
    assert chunks[..|chunks|] == chunks;
  }

  /** Merging does not look at bucket offsets. */
  lemma {:induction false} MergeIgnoresPlaces(
      memory: Memory, s: MergeState, a: seq<Chunk>, b: seq<Chunk>, bucketSize: nat)
    requires SameChunks(a, b)
    ensures MergeFrom(memory, s, a, bucketSize) == MergeFrom(memory, s, b, bucketSize)
    decreases |a|
  {
    if a != [] {
      assert PlaceAt(a[0], 0) == PlaceAt(b[0], 0);
      assert a[0].data == b[0].data;
      var next := MergeStep(memory, s, a[0], bucketSize);
      assert next == MergeStep(memory, s, b[0], bucketSize);
      if next.Ok? {
        MergeIgnoresPlaces(memory, next.value, a[1..], b[1..], bucketSize);
      }
    }
  }

  // ---- a bucket holds a weight at most once -------------------------------------------------------------

  ghost predicate DistinctNames(weights: seq<Tensor>) {
    forall i, j :: 0 <= i < j < |weights| ==> weights[i].name != weights[j].name
  }

  ghost predicate NameIn(name: string, chunks: seq<Chunk>) {
    exists i :: 0 <= i < |chunks| && chunks[i].meta.name == name
  }

  /** A chunk that continues a weight follows a chunk that fills a whole bucket; any other chunk brings a
      name not seen before. */
  ghost predicate FreshOrContinues(chunks: seq<Chunk>, i: nat, bucketSize: nat)
    requires i < |chunks|
  {
    if chunks[i].meta.chunkOffset == 0 then !NameIn(chunks[i].meta.name, chunks[..i])
    else i > 0 && chunks[i - 1].meta.chunkSize == bucketSize
  }

  lemma {:induction false} TensorChunksContinue(t: Tensor, from: nat, bucketSize: nat, i: nat)
    requires from <= |t.bytes| && bucketSize > 0 && i < |TensorChunks(t, from, bucketSize)|
    ensures var c := TensorChunks(t, from, bucketSize);
            && c[i].meta.name == t.name
            && (i == 0 ==> c[0].meta.chunkOffset == from)
            && (i > 0 ==> c[i].meta.chunkOffset > 0 && c[i - 1].meta.chunkSize == bucketSize)
    decreases |t.bytes| - from
  {
    var c := TensorChunks(t, from, bucketSize);
    var to := from + Min(bucketSize, |t.bytes| - from);
    assert c[1..] == TensorChunks(t, to, bucketSize);
    if i > 0 {
      TensorChunksContinue(t, to, bucketSize, i - 1);
      assert c[i] == c[1..][i - 1];
      assert i > 1 ==> c[i - 1] == c[1..][i - 2];
    }
  }

  lemma {:induction false} NamesComeFromWeights(weights: seq<Tensor>, bucketSize: nat, i: nat)
    requires bucketSize > 0 && i < |ChunksOf(weights, bucketSize)|
    ensures exists k :: 0 <= k < |weights| && weights[k].name == ChunksOf(weights, bucketSize)[i].meta.name
  {
    var head := TensorChunks(weights[0], 0, bucketSize);
    if i < |head| {
      TensorChunksContinue(weights[0], 0, bucketSize, i);
    } else {
      NamesComeFromWeights(weights[1..], bucketSize, i - |head|);
      var k :| 0 <= k < |weights[1..]|
        && weights[1..][k].name == ChunksOf(weights[1..], bucketSize)[i - |head|].meta.name;
      assert weights[k + 1].name == ChunksOf(weights, bucketSize)[i].meta.name;
    }
  }

  lemma {:induction false} ChunksAreFreshOrContinue(weights: seq<Tensor>, bucketSize: nat, i: nat)
    requires bucketSize > 0 && DistinctNames(weights) && i < |ChunksOf(weights, bucketSize)|
    ensures FreshOrContinues(ChunksOf(weights, bucketSize), i, bucketSize)
  {
    var head, tail := TensorChunks(weights[0], 0, bucketSize), ChunksOf(weights[1..], bucketSize);
    var all := ChunksOf(weights, bucketSize);
    assert all == head + tail;
    if i < |head| {
      TensorChunksContinue(weights[0], 0, bucketSize, i);
      assert i == 0 ==> all[..i] == [];
    } else {
      ChunksAreFreshOrContinue(weights[1..], bucketSize, i - |head|);
      LaterNamesDiffer(weights, bucketSize, head, tail, i - |head|);
      FreshBehind(head, tail, all, i - |head|, i, bucketSize);
    }
  }

  lemma FreshBehind(head: seq<Chunk>, tail: seq<Chunk>, all: seq<Chunk>, k: nat, i: nat, bucketSize: nat)
    requires all == head + tail && k < |tail| && i == |head| + k && FreshOrContinues(tail, k, bucketSize)
    requires forall j :: 0 <= j < |head| ==> head[j].meta.name != tail[k].meta.name
    ensures FreshOrContinues(all, i, bucketSize)
  {
    assert all[i] == tail[k];
    if all[i].meta.chunkOffset == 0 {
      forall j | 0 <= j < i ensures all[..i][j].meta.name != all[i].meta.name {
        assert j >= |head| ==> all[..i][j] == tail[..k][j - |head|];
        assert j < |head| ==> all[..i][j] == head[j];
      }
    } else {
      assert all[i - 1] == tail[k - 1];
    }
  }

  lemma LaterNamesDiffer(weights: seq<Tensor>, bucketSize: nat, head: seq<Chunk>, tail: seq<Chunk>, i: nat)
    requires bucketSize > 0 && DistinctNames(weights) && weights != []
    requires head == TensorChunks(weights[0], 0, bucketSize) && tail == ChunksOf(weights[1..], bucketSize)
    requires i < |tail|
    ensures forall j :: 0 <= j < |head| ==> head[j].meta.name != tail[i].meta.name
  {
    NamesComeFromWeights(weights[1..], bucketSize, i);
    var k :| 0 <= k < |weights[1..]| && weights[1..][k].name == tail[i].meta.name;
    assert weights[k + 1].name == tail[i].meta.name;
    forall j | 0 <= j < |head| ensures head[j].meta.name == weights[0].name {
      TensorChunksContinue(weights[0], 0, bucketSize, j);
    }
  }

  /** The name the sender is about to add is not in the bucket it adds it to. */
  lemma {:induction false} NamesInCurrent(chunks: seq<Chunk>, n: nat, bucketSize: nat, k: nat)
    requires n <= |chunks| && k < |Pack(chunks, n, bucketSize).current|
    ensures NameIn(Pack(chunks, n, bucketSize).current[k].meta.name, chunks[..n])
  {
    var p := Pack(chunks, n - 1, bucketSize);
    if k < |p.current| && |Pack(chunks, n, bucketSize).full| == |p.full| {
      NamesInCurrent(chunks, n - 1, bucketSize, k);
      var i :| 0 <= i < |chunks[..n - 1]| && chunks[..n - 1][i].meta.name == p.current[k].meta.name;
      assert chunks[..n][i].meta.name == p.current[k].meta.name;
    } else {
      assert chunks[..n][n - 1].meta.name == Pack(chunks, n, bucketSize).current[k].meta.name;
    }
  }

  lemma NoNameTwice(chunks: seq<Chunk>, n: nat, bucketSize: nat)
    requires n < |chunks| && Fits(chunks, bucketSize) && FreshOrContinues(chunks, n, bucketSize)
    ensures var p := Pack(chunks, n, bucketSize);
            p.offset + chunks[n].meta.chunkSize <= bucketSize ==> !NameIn(chunks[n].meta.name, p.current)
  {
    var p := Pack(chunks, n, bucketSize);
    if chunks[n].meta.chunkOffset == 0 {
      forall k | 0 <= k < |p.current| ensures p.current[k].meta.name != chunks[n].meta.name {
        NamesInCurrent(chunks, n, bucketSize, k);
      }
    } else {
      assert p.offset >= chunks[n - 1].meta.chunkSize == bucketSize;
    }
  }
}
