// Packing of query, key and value rows per key/value head, cutting into tensor-parallel shards, and merging back.

module QkvShards {
  import opened Common
  import opened Pieces

  // ---- pieces of a list of rows ----------------------------------------------------------------------------------

  /** Viewing `n * size` rows as `n` blocks of `size` rows. */
  function Blocks<T>(rows: seq<T>, size: nat, n: nat): (r: seq<seq<T>>)
    requires |rows| == n * size
    ensures |r| == n && forall i :: 0 <= i < n ==> |r[i]| == size
  {
    if n == 0 then []
    else
      Peel(n, size);
      [rows[..size]] + Blocks(rows[size..], size, n - 1)
  }

  lemma Peel(n: nat, size: nat)
    requires n > 0
    ensures n * size == size + (n - 1) * size && (n - 1) * size >= 0
  {
  }

  lemma {:induction false} BlocksFlatten<T>(rows: seq<T>, size: nat, n: nat)
    requires |rows| == n * size
    ensures Flatten(Blocks(rows, size, n)) == rows
  {
    if n > 0 {
      Peel(n, size);
      BlocksFlatten(rows[size..], size, n - 1);
      FlattenCons(rows[..size], Blocks(rows[size..], size, n - 1));
    }
  }

  /** All pieces have the given number of rows. */
  ghost predicate Even<T>(pieces: seq<seq<T>>, size: nat) {
    forall i :: 0 <= i < |pieces| ==> |pieces[i]| == size
  }

  lemma {:induction false} FlattenSize<T>(pieces: seq<seq<T>>, size: nat)
    requires Even(pieces, size)
    ensures |Flatten(pieces)| == |pieces| * size
  {
    if pieces != [] {
      FlattenSize(pieces[..|pieces| - 1], size);
      Peel(|pieces|, size);
    }
  }

  lemma {:induction false} FlattenBlocks<T>(pieces: seq<seq<T>>, size: nat)
    requires Even(pieces, size) && |Flatten(pieces)| == |pieces| * size
    ensures Blocks(Flatten(pieces), size, |pieces|) == pieces
  {
    if pieces != [] {
      var rest := pieces[1..];
      FlattenSize(rest, size);
      FlattenBlocks(rest, size);
      FlattenFirst(pieces);
      assert Flatten(pieces)[..size] == pieces[0] && Flatten(pieces)[size..] == Flatten(rest);
    }
  }

  /** Cutting into at most `n` pieces of equal size but for the last. */
  function Chunk<T>(rows: seq<T>, n: nat): (r: seq<seq<T>>)
    requires n > 0
  {
    if rows == [] then seq(n, _ => []) else
      ChunkSizePositive(|rows|, n);
      CutBy(rows, (|rows| + n - 1) / n)
  }

  lemma ChunkSizePositive(rows: nat, n: nat)
    requires rows > 0 && n > 0
    ensures (rows + n - 1) / n > 0
  {
    DivideExactly(1, n, rows - 1);
  }

  lemma DivideExactly(q: nat, n: nat, rest: nat)
    requires n > 0
    ensures (q * n + rest) / n >= q
    ensures rest < n ==> (q * n + rest) / n == q
  {
    var total := q * n + rest;
    var d, m := total / n, total % n;
    assert total == d * n + m;
    assert d < q ==> (d + 1) * n <= q * n;
    assert d > q ==> (q + 1) * n <= d * n;
  }

  lemma {:induction false} CutEvenly<T>(rows: seq<T>, size: nat, n: nat)
    requires size > 0 && |rows| == n * size
    ensures CutBy(rows, size) == Blocks(rows, size, n)
  {
    if n > 0 {
      Peel(n, size);
      CutEvenly(rows[size..], size, n - 1);
      assert n == 1 ==> rows[..size] == rows;
      assert n > 1 ==> (n - 1) * size >= size;
    }
  }

  /** A number of pieces that divides the rows gives blocks. */
  lemma ChunkEvenly<T>(rows: seq<T>, size: nat, n: nat)
    requires n > 0 && |rows| == n * size
    ensures Chunk(rows, n) == Blocks(rows, size, n)
  {
    if size == 0 {
      assert rows == [];
      EmptyBlocks<T>(n);
    } else {
      assert n * size == size * n;
      DivideExactly(size, n, n - 1);
      CutEvenly(rows, size, n);
      assert n * size >= size;
    }
  }

  lemma {:induction false} EmptyBlocks<T>(n: nat)
    ensures Blocks<T>([], 0, n) == seq(n, _ => [])
  {
    if n > 0 {
      EmptyBlocks<T>(n - 1);
      var rest: seq<seq<T>> := seq(n - 1, _ => []);
      assert seq(n, _ => []) == [[]] + rest;
    }
  }

  lemma {:induction false} BlocksConcat<T>(a: seq<T>, b: seq<T>, size: nat, n: nat, m: nat)
    requires |a| == n * size && |b| == m * size && |a + b| == (n + m) * size
    ensures Blocks(a + b, size, n + m) == Blocks(a, size, n) + Blocks(b, size, m)
  {
    if n == 0 {
      assert a + b == b;
    } else {
      Peel(n, size);
      Peel(n + m, size);
      assert (a + b)[..size] == a[..size] && (a + b)[size..] == a[size..] + b;
      BlocksConcat(a[size..], b, size, n - 1, m);
    }
  }

  // ---- packing ---------------------------------------------------------------------------------------------------

  /** One group per key/value head: its query rows, its key rows, its value rows. */
  function Groups<T>(q: seq<seq<T>>, k: seq<seq<T>>, v: seq<seq<T>>): (r: seq<seq<T>>)
    requires |q| == |k| == |v|
    ensures |r| == |q| && forall g :: 0 <= g < |r| ==> r[g] == q[g] + k[g] + v[g]
  {
    seq(|q|, g requires 0 <= g < |q| => q[g] + k[g] + v[g])
  }

  /** The shapes of the three projections, for `heads` key/value heads of `size` rows and `share` query heads each. */
  ghost predicate Shapes<T>(q: seq<T>, k: seq<T>, v: seq<T>, heads: nat, share: nat, size: nat) {
    |q| == heads * (share * size) && |k| == |v| == heads * size
  }

  function Interleave<T>(q: seq<T>, k: seq<T>, v: seq<T>, heads: nat, share: nat, size: nat): (packed: seq<T>)
    requires Shapes(q, k, v, heads, share, size)
  {
    Flatten(Groups(Blocks(q, share * size, heads), Blocks(k, size, heads), Blocks(v, size, heads)))
  }

  // ---- merging ----------------------------------------------------------------------------------------------------

  datatype MergeError = HeadsUneven | RowsUneven | TooManyShards | SplitMismatch

  datatype Parts<T> = Parts(q: seq<T>, k: seq<T>, v: seq<T>)

  /** The chunks of all shards, in order. */
  function AllChunks<T>(shards: seq<seq<T>>, groups: nat): (r: seq<seq<T>>)
    requires groups > 0
  {
    if shards == [] then []
    else AllChunks(shards[..|shards| - 1], groups) + Chunk(shards[|shards| - 1], groups)
  }

  /** The rows from `low` to `high` of every chunk. */
  function Slices<T>(chunks: seq<seq<T>>, low: nat, high: nat): (r: seq<seq<T>>)
    requires low <= high && forall c :: 0 <= c < |chunks| ==> high <= |chunks[c]|
    ensures |r| == |chunks| && forall c :: 0 <= c < |r| ==> r[c] == chunks[c][low..high]
  {
    seq(|chunks|, c requires 0 <= c < |chunks| => chunks[c][low..high])
  }

  lemma ProductOfNats(a: nat, b: nat)
    ensures a * b >= 0
  {
  }

  /** Rows per chunk that are taken for the queries, and for the keys and the values. */
  function QueryRows(rows: nat, share: nat, groups: nat): (r: nat)
    requires groups > 0
  {
    ProductOfNats(rows / (share + 2), share);
    rows / (share + 2) * share / groups
  }

  function KeyRows(rows: nat, share: nat, groups: nat): (r: nat)
    requires groups > 0
  {
    rows / (share + 2) / groups
  }

  /** The three parts, given what each chunk is split into. */
  function SplitParts<T>(chunks: seq<seq<T>>, a: nat, b: nat): (r: Parts<T>)
    requires forall c :: 0 <= c < |chunks| ==> |chunks[c]| == a + b + b
  {
    Parts(Flatten(Slices(chunks, 0, a)), Flatten(Slices(chunks, a, a + b)), Flatten(Slices(chunks, a + b, a + b + b)))
  }

  lemma {:induction false} ChunksOfPrefix<T>(shards: seq<seq<T>>, n: nat, groups: nat)
    requires groups > 0 && n <= |shards|
    ensures AllChunks(shards[..n], groups) <= AllChunks(shards, groups)
  {
    if n == |shards| {
      assert shards[..n] == shards;
    } else {
      ChunksOfPrefix(shards[..|shards| - 1], n, groups);
      assert shards[..|shards| - 1][..n] == shards[..n];
    }
  }

  lemma OddChunk<T>(before: seq<seq<T>>, chunks: seq<seq<T>>, c: nat, all: seq<seq<T>>, rows: nat)
    requires c < |chunks| && before + chunks <= all && |chunks[c]| != rows
    ensures !Even(all, rows)
  {
    assert all[|before| + c] == chunks[c];
  }

  /** Splits the chunks of one shard. */
  method SplitChunks<T>(chunks: seq<seq<T>>, a: nat, b: nat) returns (odd: int, q: seq<seq<T>>, k: seq<seq<T>>, v: seq<seq<T>>)
    ensures odd == -1 || (0 <= odd < |chunks| && |chunks[odd]| != a + b + b)
    ensures odd == -1 ==>
              && Even(chunks, a + b + b)
              && q == Slices(chunks, 0, a) && k == Slices(chunks, a, a + b) && v == Slices(chunks, a + b, a + b + b)
  {
    q, k, v := [], [], [];
    for c := 0 to |chunks|
      invariant |q| == |k| == |v| == c
      invariant forall i :: 0 <= i < c ==>
                  && |chunks[i]| == a + b + b
                  && q[i] == chunks[i][0..a] && k[i] == chunks[i][a..a + b] && v[i] == chunks[i][a + b..a + b + b]
    {
      var chunk := chunks[c];
      if |chunk| != a + b + b {
        odd := c;
        return;
      }
      q, k, v := q + [chunk[0..a]], k + [chunk[a..a + b]], v + [chunk[a + b..a + b + b]];
    }
    odd := -1;
  }

  lemma SlicesConcat<T>(x: seq<seq<T>>, y: seq<seq<T>>, rows: nat, low: nat, high: nat)
    requires low <= high <= rows && Even(x, rows) && Even(y, rows)
    ensures Even(x + y, rows) && Slices(x + y, low, high) == Slices(x, low, high) + Slices(y, low, high)
  {
    assert Even(x + y, rows);
  }

  method SplitShards<T>(shards: seq<seq<T>>, groups: nat, a: nat, b: nat) returns (r: Result<Parts<T>, MergeError>)
    requires groups > 0
    ensures if Even(AllChunks(shards, groups), a + b + b) then r == Ok(SplitParts(AllChunks(shards, groups), a, b))
            else r == Err(SplitMismatch)
  {
    hide Even, Slices, Chunk;
    var qList, kList, vList := [], [], [];
    var rows := a + b + b;
    ghost var done := [];
    assert Even(done, rows) by { EmptyIsEven<T>(a, b); }
    EmptyIsEven<T>(a, b);
    for s := 0 to |shards|
      invariant done == AllChunks(shards[..s], groups) && Even(done, rows)
      invariant Listed(done, qList, kList, vList, a, b)
    {
      var chunks := Chunk(shards[s], groups);
      assert shards[..s + 1][..s] == shards[..s];
      ChunksOfPrefix(shards, s + 1, groups);
      var odd, q, k, v := SplitChunks(chunks, a, b);
      if odd != -1 {
        OddChunk(done, chunks, odd, AllChunks(shards, groups), rows);
        return Err(SplitMismatch);
      }
      ListMore(done, chunks, qList, kList, vList, q, k, v, a, b);
      qList, kList, vList := qList + q, kList + k, vList + v;
      done := done + chunks;
    }
    assert shards[..|shards|] == shards;
    r := Ok(Parts(Flatten(qList), Flatten(kList), Flatten(vList)));
  }

  /** The lists so far are the splits of the chunks so far. */
  ghost predicate Listed<T>(
    done: seq<seq<T>>, q: seq<seq<T>>, k: seq<seq<T>>, v: seq<seq<T>>, a: nat, b: nat)
  {
    && Even(done, a + b + b)
    && q == Slices(done, 0, a) && k == Slices(done, a, a + b) && v == Slices(done, a + b, a + b + b)
  }

  lemma EmptyIsEven<T>(a: nat, b: nat)
    ensures Even<T>([], a + b + b) && Listed<T>([], [], [], [], a, b)
  {
  }

  lemma EvenConcat<T>(a: seq<seq<T>>, b: seq<seq<T>>, size: nat)
    requires Even(a, size) && Even(b, size)
    ensures Even(a + b, size)
  {
  }

  lemma ListMore<T>(
    done: seq<seq<T>>, chunks: seq<seq<T>>, qList: seq<seq<T>>, kList: seq<seq<T>>, vList: seq<seq<T>>,
    q: seq<seq<T>>, k: seq<seq<T>>, v: seq<seq<T>>, a: nat, b: nat)
    requires Listed(done, qList, kList, vList, a, b) && Listed(chunks, q, k, v, a, b)
    ensures Listed(done + chunks, qList + q, kList + k, vList + v, a, b) && Even(done + chunks, a + b + b)
  {
    hide Slices, Even;
    var rows := a + b + b;
    EvenConcat(done, chunks, rows);
    SlicesConcat(done, chunks, rows, 0, a);
    SlicesConcat(done, chunks, rows, a, a + b);
    SlicesConcat(done, chunks, rows, a + b, rows);
  }

  /** What merging gives once the counts are accepted: the split of all chunks, or a refusal. */
  ghost function Split<T>(shards: seq<seq<T>>, share: nat, groups: nat): (r: Result<Parts<T>, MergeError>)
    requires shards != [] && groups > 0
  {
    var a, b, chunks := QueryRows(|shards[0]|, share, groups), KeyRows(|shards[0]|, share, groups), AllChunks(shards, groups);
    if Even(chunks, a + b + b) then Ok(SplitParts(chunks, a, b)) else Err(SplitMismatch)
  }

  /** What merging gives: a failed assertion, no piece to cut a shard into, or the split of all chunks. */
  ghost function Merge<T>(shards: seq<seq<T>>, attentionHeads: nat, kvHeads: nat, tpSize: nat)
    : (r: Result<Parts<T>, MergeError>)
    requires shards != [] && kvHeads > 0 && tpSize > 0
  {
    if attentionHeads % kvHeads != 0 then Err(HeadsUneven)
    else if |shards[0]| % (attentionHeads / kvHeads + 2) != 0 then Err(RowsUneven)
    else
      GroupsPerShard(kvHeads, tpSize);
      if kvHeads < tpSize then Err(TooManyShards) else Split(shards, attentionHeads / kvHeads, kvHeads / tpSize)
  }

  lemma GroupsPerShard(kvHeads: nat, tpSize: nat)
    requires tpSize > 0
    ensures kvHeads / tpSize == 0 <==> kvHeads < tpSize
  {
    DivideExactly(kvHeads / tpSize, tpSize, kvHeads % tpSize);
    if kvHeads >= tpSize {
      DivideExactly(1, tpSize, kvHeads - tpSize);
    } else {
      DivideExactly(0, tpSize, kvHeads);
    }
  }

  /** Splits every chunk of every shard and concatenates the three kinds of rows separately. */
  method MergeQkv<T>(shards: seq<seq<T>>, attentionHeads: nat, kvHeads: nat, tpSize: nat)
    returns (r: Result<Parts<T>, MergeError>)
    requires shards != [] && kvHeads > 0 && tpSize > 0
    ensures r == Merge(shards, attentionHeads, kvHeads, tpSize)
  {
    hide Even, AllChunks, SplitParts, QueryRows, KeyRows;
    if attentionHeads % kvHeads != 0 {
      return Err(HeadsUneven);
    }
    var share := attentionHeads / kvHeads;
    if |shards[0]| % (share + 2) != 0 {
      return Err(RowsUneven);
    }
    var groups := kvHeads / tpSize;
    GroupsPerShard(kvHeads, tpSize);
    if groups == 0 {
      return Err(TooManyShards);
    }
    var a, b := QueryRows(|shards[0]|, share, groups), KeyRows(|shards[0]|, share, groups);
    r := SplitShards(shards, groups, a, b);
  }

  // ---- the round trip ---------------------------------------------------------------------------------------------

  /** The chunks of the shards of a list are its blocks. */
  lemma {:induction false} ChunksOfShards<T>(
    rows: seq<T>, size: nat, groups: nat, n: nat, shardRows: nat, count: nat)
    requires groups > 0 && shardRows == groups * size && |rows| == n * shardRows
    requires count == n * groups && |rows| == count * size
    ensures AllChunks(Blocks(rows, shardRows, n), groups) == Blocks(rows, size, count)
  {
    hide Chunk;
    if n > 0 {
      var less, cut := count - groups, |rows| - shardRows;
      Peel(n, shardRows);
      Peel(n, groups);
      LessBlocks(count, groups, size);
      var init, last := rows[..cut], rows[cut..];
      assert rows == init + last;
      ChunksOfShards(init, size, groups, n - 1, shardRows, less);
      assert 1 * shardRows == shardRows;
      BlocksConcat(init, last, shardRows, n - 1, 1);
      BlocksConcat(init, last, size, less, groups);
      ChunkEvenly(last, size, groups);
      SingleBlock(last);
      assert (Blocks(init, shardRows, n - 1) + [last])[..n - 1] == Blocks(init, shardRows, n - 1);
    }
  }

  lemma LessBlocks(count: nat, groups: nat, size: nat)
    requires groups <= count
    ensures (count - groups) * size == count * size - groups * size
  {
  }

  lemma SingleBlock<T>(rows: seq<T>)
    requires |rows| == 1 * |rows|
    ensures Blocks(rows, |rows|, 1) == [rows]
  {
    assert rows[..|rows|] == rows;
    assert |rows[|rows|..]| == 0 * |rows|;
    assert Blocks(rows[|rows|..], |rows|, 0) == [];
  }

  lemma CutGroup<T>(x: seq<T>, y: seq<T>, z: seq<T>, group: seq<T>, a: nat, b: nat)
    requires |x| == a && |y| == |z| == b && group == x + y + z
    ensures |group| == a + b + b && group[0..a] == x && group[a..a + b] == y && group[a + b..a + b + b] == z
  {
  }

  lemma SlicesAre<T>(chunks: seq<seq<T>>, low: nat, high: nat, parts: seq<seq<T>>)
    requires low <= high && |parts| == |chunks|
    requires forall c :: 0 <= c < |chunks| ==> high <= |chunks[c]| && chunks[c][low..high] == parts[c]
    ensures Slices(chunks, low, high) == parts
  {
  }

  lemma SplitGroups<T>(q: seq<seq<T>>, k: seq<seq<T>>, v: seq<seq<T>>, a: nat, b: nat, high: nat, end: nat)
    requires |q| == |k| == |v| && Even(q, a) && Even(k, b) && Even(v, b) && high == a + b && end == a + b + b
    ensures Even(Groups(q, k, v), end)
    ensures Slices(Groups(q, k, v), 0, a) == q && Slices(Groups(q, k, v), a, high) == k
    ensures Slices(Groups(q, k, v), high, end) == v
  {
    hide Slices;
    var g := Groups(q, k, v);
    forall i | 0 <= i < |g| ensures |g[i]| == end && g[i][0..a] == q[i] && g[i][a..high] == k[i] && g[i][high..end] == v[i] {
      CutGroup(q[i], k[i], v[i], g[i], a, b);
    }
    SlicesAre(g, 0, a, q);
    SlicesAre(g, a, high, k);
    SlicesAre(g, high, end, v);
  }

  /** What merging computes from the rows of one shard are the row counts of the packed groups. */
  lemma RowsPerChunk(groups: nat, share: nat, size: nat, rows: nat)
    requires groups > 0 && rows == groups * (share * size + size + size)
    ensures rows % (share + 2) == 0
    ensures QueryRows(rows, share, groups) == share * size && KeyRows(rows, share, groups) == size
  {
    var per := groups * size;
    assert rows == per * (share + 2) + 0;
    DivideExactly(per, share + 2, 0);
    assert rows % (share + 2) == 0 by {
      assert rows == (rows / (share + 2)) * (share + 2) + rows % (share + 2);
    }
    assert per * share == (share * size) * groups + 0;
    DivideExactly(share * size, groups, 0);
    assert per == size * groups + 0;
    DivideExactly(size, groups, 0);
  }

  /** Packed rows cut into contiguous shards, then merged, are the original projections. */
  lemma MergeUndoesPacking<T>(
    q: seq<T>, k: seq<T>, v: seq<T>, heads: nat, share: nat, size: nat, tp: nat, groups: nat, shardRows: nat)
    requires tp > 0 && groups > 0 && heads == tp * groups
    requires Shapes(q, k, v, heads, share, size)
    requires shardRows == groups * (share * size + size + size)
    requires |Interleave(q, k, v, heads, share, size)| == tp * shardRows
    ensures Split(Blocks(Interleave(q, k, v, heads, share, size), shardRows, tp), share, groups) == Ok(Parts(q, k, v))
  {
    hide Flatten, Blocks, Chunk, AllChunks, QueryRows, KeyRows, Slices, Even;
    var a := share * size;
    var high, end := a + size, a + size + size;
    var qb, kb, vb := Blocks(q, a, heads), Blocks(k, size, heads), Blocks(v, size, heads);
    var packed, gs := Interleave(q, k, v, heads, share, size), Groups(qb, kb, vb);
    BlocksAreEven(q, a, heads);
    BlocksAreEven(k, size, heads);
    BlocksAreEven(v, size, heads);
    SplitGroups(qb, kb, vb, a, size, high, end);
    FlattenSize(gs, end);
    FlattenBlocks(gs, end);
    ChunksOfShards(packed, end, groups, tp, shardRows, heads);
    RowsPerChunk(groups, share, size, shardRows);
    BlocksFlatten(q, a, heads);
    BlocksFlatten(k, size, heads);
    BlocksFlatten(v, size, heads);
  }

  lemma BlocksAreEven<T>(rows: seq<T>, size: nat, n: nat)
    requires |rows| == n * size
    ensures |Blocks(rows, size, n)| == n && Even(Blocks(rows, size, n), size)
  {
  }

  lemma InterleaveSize<T>(q: seq<T>, k: seq<T>, v: seq<T>, heads: nat, share: nat, size: nat)
    requires Shapes(q, k, v, heads, share, size)
    ensures |Interleave(q, k, v, heads, share, size)| == heads * (share * size + size + size)
  {
    hide Flatten, Blocks;
    var end := share * size + size + size;
    var gs := Groups(Blocks(q, share * size, heads), Blocks(k, size, heads), Blocks(v, size, heads));
    assert Even(gs, end);
    FlattenSize(gs, end);
  }

  lemma HeadShapes(attentionHeads: nat, kvHeads: nat, headDim: nat, share: nat)
    requires kvHeads > 0 && attentionHeads % kvHeads == 0 && share == attentionHeads / kvHeads
    ensures attentionHeads * headDim == kvHeads * (share * headDim)
    ensures headDim * attentionHeads / kvHeads == share * headDim
  {
    assert attentionHeads == share * kvHeads;
    assert headDim * attentionHeads == (share * headDim) * kvHeads + 0;
    DivideExactly(share * headDim, kvHeads, 0);
  }

  /** The packed rows of all heads, cut into `tp` shards of equal size. */
  function Shards<T>(q: seq<T>, k: seq<T>, v: seq<T>, heads: nat, share: nat, size: nat, tp: nat): (shards: seq<seq<T>>)
    requires Shapes(q, k, v, heads, share, size) && tp > 0
    requires heads * (share * size + size + size) % tp == 0
    ensures |shards| == tp
    ensures forall t :: 0 <= t < tp ==> |shards[t]| == heads * (share * size + size + size) / tp
  {
    InterleaveSize(q, k, v, heads, share, size);
    Whole(heads * (share * size + size + size), tp);
    Blocks(Interleave(q, k, v, heads, share, size), heads * (share * size + size + size) / tp, tp)
  }

  lemma Whole(rows: nat, tp: nat)
    requires tp > 0 && rows % tp == 0
    ensures rows == tp * (rows / tp) && rows / tp >= 0
  {
  }

  /** With the same number of heads in every shard, merging undoes packing and sharding. */
  lemma EvenHeads<T>(q: seq<T>, k: seq<T>, v: seq<T>, attentionHeads: nat, kvHeads: nat, size: nat, tp: nat, share: nat)
    requires kvHeads > 0 && tp > 0 && attentionHeads % kvHeads == 0 && kvHeads % tp == 0
    requires share == attentionHeads / kvHeads && Shapes(q, k, v, kvHeads, share, size)
    requires kvHeads * (share * size + size + size) % tp == 0
    ensures Merge(Shards(q, k, v, kvHeads, share, size, tp), attentionHeads, kvHeads, tp) == Ok(Parts(q, k, v))
  {
    hide Interleave, Split, Blocks;
    var groups, unit := kvHeads / tp, share * size + size + size;
    Whole(kvHeads, tp);
    assert kvHeads < tp ==> groups == 0;
    assert kvHeads * unit == (groups * unit) * tp + 0;
    DivideExactly(groups * unit, tp, 0);
    InterleaveSize(q, k, v, kvHeads, share, size);
    RowsPerChunk(groups, share, size, groups * unit);
    MergeUndoesPacking(q, k, v, kvHeads, share, size, tp, groups, groups * unit);
  }

  lemma EvenRows(heads: nat, unit: nat, tp: nat)
    requires tp > 0 && heads % tp == 0
    ensures heads * unit % tp == 0 && heads * unit / tp == heads / tp * unit
  {
    var groups := heads / tp;
    assert heads * unit == (groups * unit) * tp + 0;
    DivideExactly(groups * unit, tp, 0);
  }

  /** Converting the three projections, cutting the packed rows into `tp` shards and merging the shards. */
  method ConvertAndMerge<T>(q: seq<T>, k: seq<T>, v: seq<T>, attentionHeads: nat, kvHeads: nat, headDim: nat, tp: nat)
    returns (shards: seq<seq<T>>, r: Result<Parts<T>, MergeError>)
    requires kvHeads > 0 && tp > 0 && attentionHeads % kvHeads == 0
    requires |q| == attentionHeads * headDim && |k| == |v| == kvHeads * headDim
    requires kvHeads * (attentionHeads / kvHeads * headDim + headDim + headDim) % tp == 0
    ensures Shapes(q, k, v, kvHeads, attentionHeads / kvHeads, headDim)
    ensures shards == Shards(q, k, v, kvHeads, attentionHeads / kvHeads, headDim, tp)
    ensures |shards| == tp && r == Merge(shards, attentionHeads, kvHeads, tp)
    ensures kvHeads % tp == 0 ==>
              && r == Ok(Parts(q, k, v))
              && forall t :: 0 <= t < tp ==>
                   |shards[t]| == kvHeads / tp * (attentionHeads / kvHeads * headDim + headDim + headDim)
  {
    hide Interleave, Merge, Shards;
    var share := attentionHeads / kvHeads;
    HeadShapes(attentionHeads, kvHeads, headDim, share);
    shards := Shards(q, k, v, kvHeads, share, headDim, tp);
    r := MergeQkv(shards, attentionHeads, kvHeads, tp);
    if kvHeads % tp == 0 {
      EvenHeads(q, k, v, attentionHeads, kvHeads, headDim, tp, share);
      EvenRows(kvHeads, share * headDim + headDim + headDim, tp);
    }
  }

  // ---- heads that do not divide -----------------------------------------------------------------------------------

  /** Equal shards whose assertion on rows holds hold the same number of key rows, whole heads or not. */
  lemma KeyRowsPerShard(heads: nat, share: nat, size: nat, tp: nat, rows: nat)
    requires tp > 0 && heads * (share * size + size + size) == tp * rows && rows % (share + 2) == 0
    ensures heads * size == tp * (rows / (share + 2)) && rows == rows / (share + 2) * (share + 2)
  {
    var keys := rows / (share + 2);
    assert rows == keys * (share + 2);
    assert heads * (share * size + size + size) == (heads * size) * (share + 2);
    assert tp * rows == (tp * keys) * (share + 2);
    SameFactor(heads * size, tp * keys, share + 2);
  }

  lemma SameFactor(a: nat, b: nat, n: nat)
    requires n > 0 && a * n == b * n
    ensures a == b
  {
    assert a < b ==> (a + 1) * n <= b * n;
    assert b < a ==> (b + 1) * n <= a * n;
  }

  lemma MoreThan(a: nat, b: nat, n: nat)
    requires a * n < b * n
    ensures a < b
  {
    assert b <= a ==> b * n <= a * n;
  }

  lemma Fewer(n: nat, groups: nat, part: nat)
    requires groups > 0 && part == n / groups
    ensures groups * part <= n && (n % groups != 0 ==> groups * part < n)
  {
    assert n == part * groups + n % groups;
  }

  lemma TooFewRows(keys: nat, share: nat, groups: nat, a: nat, b: nat, rows: nat)
    requires groups > 0 && keys % groups != 0 && rows == keys * (share + 2)
    requires a == keys * share / groups && b == keys / groups
    ensures groups * (a + b + b) < rows
  {
    Fewer(keys, groups, b);
    ProductOfNats(keys, share);
    Fewer(keys * share, groups, a);
    assert groups * (a + b + b) == groups * a + groups * b + groups * b;
    assert rows == keys * share + keys + keys;
  }

  /** If the pieces of a shard get no whole number of key rows, the first piece does not split. */
  lemma OddPiece<T>(rows: seq<T>, share: nat, groups: nat, keys: nat)
    requires groups > 0 && |rows| == keys * (share + 2) && keys % groups != 0
    ensures Chunk(rows, groups) != []
    ensures var a, b := QueryRows(|rows|, share, groups), KeyRows(|rows|, share, groups);
            |Chunk(rows, groups)[0]| != a + b + b
  {
    hide Chunk;
    assert |rows| == keys * (share + 2) + 0;
    DivideExactly(keys, share + 2, 0);
    var a, b := QueryRows(|rows|, share, groups), KeyRows(|rows|, share, groups);
    TooFewRows(keys, share, groups, a, b, |rows|);
    FirstPiece(rows, groups);
  }

  lemma FirstPiece<T>(rows: seq<T>, groups: nat)
    requires groups > 0 && rows != []
    ensures Chunk(rows, groups) != [] && |rows| <= groups * |Chunk(rows, groups)[0]|
  {
    ChunkSizePositive(|rows|, groups);
    var piece := (|rows| + groups - 1) / groups;
    assert |rows| + groups - 1 == piece * groups + (|rows| + groups - 1) % groups;
    assert |rows| <= groups * piece;
    assert |rows| <= groups * |rows|;
  }

  lemma FirstOfAll<T>(shards: seq<seq<T>>, groups: nat)
    requires groups > 0 && shards != [] && Chunk(shards[0], groups) != []
    ensures AllChunks(shards, groups) != [] && AllChunks(shards, groups)[0] == Chunk(shards[0], groups)[0]
  {
    hide Chunk;
    ChunksOfPrefix(shards, 1, groups);
    assert shards[..1][..0] == [];
    assert AllChunks(shards[..1], groups) == Chunk(shards[0], groups);
  }

  /** Shards that do not hold whole heads: the split is refused unless every piece gets whole key rows. */
  lemma RefusedSplit<T>(shards: seq<seq<T>>, share: nat, groups: nat, keys: nat)
    requires shards != [] && groups > 0 && |shards[0]| == keys * (share + 2) && keys % groups != 0
    ensures Split(shards, share, groups) == Err(SplitMismatch)
  {
    hide Chunk, AllChunks, QueryRows, KeyRows;
    OddPiece(shards[0], share, groups, keys);
    FirstOfAll(shards, groups);
  }

  /** Otherwise the pieces are cut as if heads had `wide` rows. */
  lemma AcceptedSplit<T>(packed: seq<T>, share: nat, groups: nat, tp: nat, wide: nat, rows: nat)
    requires tp > 0 && groups > 0 && rows == groups * (share * wide + wide + wide) && |packed| == tp * rows
    ensures |packed| == (tp * groups) * (share * wide + wide + wide)
    ensures Even(Blocks(packed, share * wide + wide + wide, tp * groups), share * wide + wide + wide)
    ensures Split(Blocks(packed, rows, tp), share, groups)
         == Ok(SplitParts(Blocks(packed, share * wide + wide + wide, tp * groups), share * wide, wide))
  {
    hide Chunk, AllChunks, QueryRows, KeyRows, SplitParts;
    var unit := share * wide + wide + wide;
    assert tp * (groups * unit) == (tp * groups) * unit;
    ChunksOfShards(packed, unit, groups, tp, rows, tp * groups);
    BlocksAreEven(packed, unit, tp * groups);
    RowsPerChunk(groups, share, wide, rows);
  }

  /** The packed rows begin with the rows of the first head: its queries, keys and values. */
  lemma PackedStart<T>(q: seq<T>, k: seq<T>, v: seq<T>, heads: nat, share: nat, size: nat)
    requires Shapes(q, k, v, heads, share, size) && heads > 0 && size > 0
    ensures var packed := Interleave(q, k, v, heads, share, size);
            && |packed| >= share * size + size + size && |k| >= size && |v| >= size
            && packed[share * size] == k[0] && packed[share * size + size] == v[0]
  {
    hide Flatten;
    Peel(heads, size);
    Peel(heads, share * size);
    var gs := Groups(Blocks(q, share * size, heads), Blocks(k, size, heads), Blocks(v, size, heads));
    FlattenFirst(gs);
    var first := gs[0];
    assert first == q[..share * size] + k[..size] + v[..size];
  }

  /** What is sliced out of the first piece comes first. */
  lemma FirstSlice<T>(packed: seq<T>, unit: nat, n: nat, low: nat, high: nat, j: nat)
    requires n > 0 && |packed| == n * unit && low <= high <= unit && j < high - low
    ensures |packed| >= unit && Even(Blocks(packed, unit, n), unit)
    ensures var slices := Slices(Blocks(packed, unit, n), low, high);
            |Flatten(slices)| > j && Flatten(slices)[j] == packed[low + j]
  {
    hide Flatten;
    Peel(n, unit);
    FlattenFirst(Slices(Blocks(packed, unit, n), low, high));
  }

  /** Pieces wider than a head take key rows for queries, or value rows for keys if there are no queries. */
  lemma WrongRows<T>(
    q: seq<T>, k: seq<T>, v: seq<T>, heads: nat, share: nat, size: nat, wide: nat, n: nat, x: T, y: T)
    requires Shapes(q, k, v, heads, share, size) && heads >= 2 && wide > size > 0 && n > 0 && x != y
    requires q == seq(|q|, _ => x) && k == seq(|k|, _ => y) && v == seq(|v|, _ => x)
    requires |Interleave(q, k, v, heads, share, size)| == n * (share * wide + wide + wide)
    requires Even(Blocks(Interleave(q, k, v, heads, share, size), share * wide + wide + wide, n), share * wide + wide + wide)
    ensures SplitParts(Blocks(Interleave(q, k, v, heads, share, size), share * wide + wide + wide, n), share * wide, wide)
         != Parts(q, k, v)
  {
    hide Interleave, Flatten, Slices, Blocks;
    var packed, unit := Interleave(q, k, v, heads, share, size), share * wide + wide + wide;
    PackedStart(q, k, v, heads, share, size);
    Peel(heads, size);
    if share > 0 {
      SecondHead(heads, share, size, wide);
      FirstSlice(packed, unit, n, 0, share * wide, share * size);
      assert q[share * size] == x;
    } else {
      Peel(heads - 1, size);
      FirstSlice(packed, unit, n, share * wide, share * wide + wide, size);
      assert k[size] == y;
    }
  }

  lemma SecondHead(heads: nat, share: nat, size: nat, wide: nat)
    requires heads >= 2 && share > 0 && wide > size > 0
    ensures share * size < share * wide && share * size < heads * (share * size)
  {
    assert share * wide == share * size + share * (wide - size);
    Peel(heads, share * size);
    Peel(heads - 1, share * size);
    assert share * size > 0;
  }

  lemma Reordered(a: nat, b: nat, c: nat)
    ensures a * (b * c) == c * (a * b)
  {
  }

  lemma MoreTimes(a: nat, b: nat, n: nat)
    requires a < b && n > 0
    ensures a * n < b * n
  {
    assert (a + 1) * n <= b * n;
  }

  lemma Commuted(a: nat, b: nat)
    ensures a * b == b * a
  {
  }

  lemma WiderPieces(heads: nat, size: nat, tp: nat, groups: nat, wide: nat)
    requires tp > 0 && groups == heads / tp && heads % tp != 0 && size > 0
    requires heads * size == tp * (groups * wide)
    ensures groups > 0 ==> wide > size && heads >= 2
  {
    var held := tp * groups;
    assert heads == groups * tp + heads % tp && held == groups * tp;
    Reordered(tp, groups, wide);
    Commuted(groups, tp);
    Commuted(held, size);
    MoreTimes(held, heads, size);
    MoreThan(size, wide, held);
  }

  /** What merging gives when the heads do not divide: a named refusal, unless the shards hold a whole number of key
      rows per piece; then rows that belong to pieces wider than a head. */
  lemma UnevenHeads<T>(
    q: seq<T>, k: seq<T>, v: seq<T>, attentionHeads: nat, kvHeads: nat, size: nat, tp: nat, share: nat, rows: nat)
    requires kvHeads > 0 && tp > 0 && size > 0 && attentionHeads % kvHeads == 0 && kvHeads % tp != 0
    requires share == attentionHeads / kvHeads && Shapes(q, k, v, kvHeads, share, size)
    requires kvHeads * (share * size + size + size) % tp == 0
    requires rows == kvHeads * (share * size + size + size) / tp
    ensures var r := Merge(Shards(q, k, v, kvHeads, share, size, tp), attentionHeads, kvHeads, tp);
            if rows % (share + 2) != 0 then r == Err(RowsUneven)
            else if kvHeads < tp then r == Err(TooManyShards)
            else
              && kvHeads / tp > 0
              && var groups, keys := kvHeads / tp, rows / (share + 2);
                 if keys % groups != 0 then r == Err(SplitMismatch)
                 else Misplaced(q, k, v, kvHeads, share, size, keys / groups, tp * groups, r)
  {
    hide Interleave, Split, Blocks, Misplaced;
    var shards := Shards(q, k, v, kvHeads, share, size, tp);
    Whole(kvHeads * (share * size + size + size), tp);
    InterleaveSize(q, k, v, kvHeads, share, size);
    GroupsPerShard(kvHeads, tp);
    if rows % (share + 2) == 0 && kvHeads >= tp {
      var groups, keys := kvHeads / tp, rows / (share + 2);
      KeyRowsPerShard(kvHeads, share, size, tp, rows);
      if keys % groups != 0 {
        RefusedSplit(shards, share, groups, keys);
      } else {
        WidePieces(q, k, v, kvHeads, share, size, tp, rows, groups, keys / groups);
      }
    }
  }

  /** The result of cutting the packed rows into `n` pieces as if heads had `wide` rows, which is more than they
      have. */
  ghost predicate Misplaced<T>(
    q: seq<T>, k: seq<T>, v: seq<T>, heads: nat, share: nat, size: nat, wide: nat, n: nat,
    r: Result<Parts<T>, MergeError>)
    requires Shapes(q, k, v, heads, share, size)
  {
    var packed, unit := Interleave(q, k, v, heads, share, size), share * wide + wide + wide;
    && wide > size && heads >= 2 && n > 0
    && |packed| == n * unit && Even(Blocks(packed, unit, n), unit)
    && r == Ok(SplitParts(Blocks(packed, unit, n), share * wide, wide))
  }

  lemma WidePieces<T>(
    q: seq<T>, k: seq<T>, v: seq<T>, heads: nat, share: nat, size: nat, tp: nat, rows: nat, groups: nat, wide: nat)
    requires tp > 0 && size > 0 && groups == heads / tp > 0 && heads % tp != 0
    requires Shapes(q, k, v, heads, share, size) && |Interleave(q, k, v, heads, share, size)| == tp * rows
    requires rows == groups * wide * (share + 2) && heads * size == tp * (groups * wide)
    ensures Misplaced(q, k, v, heads, share, size, wide, tp * groups,
                      Split(Blocks(Interleave(q, k, v, heads, share, size), rows, tp), share, groups))
  {
    hide Interleave, Split, Blocks, SplitParts;
    WiderPieces(heads, size, tp, groups, wide);
    assert rows == groups * (share * wide + wide + wide);
    AcceptedSplit(Interleave(q, k, v, heads, share, size), share, groups, tp, wide, rows);
    assert tp * groups > 0;
  }

  ghost predicate RoundTrips<T(!new)>(attentionHeads: nat, kvHeads: nat, size: nat, tp: nat)
    requires kvHeads > 0 && tp > 0
    requires kvHeads * (attentionHeads / kvHeads * size + size + size) % tp == 0
  {
    forall q: seq<T>, k: seq<T>, v: seq<T> :: Shapes(q, k, v, kvHeads, attentionHeads / kvHeads, size) ==>
      Merge(Shards(q, k, v, kvHeads, attentionHeads / kvHeads, size, tp), attentionHeads, kvHeads, tp) == Ok(Parts(q, k, v))
  }

  /** Merging undoes packing and equal sharding for all projections, exactly when every shard holds whole heads. */
  lemma RoundTripIff<T(!new)>(attentionHeads: nat, kvHeads: nat, size: nat, tp: nat, x: T, y: T)
    requires kvHeads > 0 && tp > 0 && size > 0 && attentionHeads % kvHeads == 0 && x != y
    requires kvHeads * (attentionHeads / kvHeads * size + size + size) % tp == 0
    ensures RoundTrips<T>(attentionHeads, kvHeads, size, tp) <==> kvHeads % tp == 0
  {
    hide Merge, Shards, Misplaced;
    var share := attentionHeads / kvHeads;
    if kvHeads % tp == 0 {
      forall q: seq<T>, k: seq<T>, v: seq<T> | Shapes(q, k, v, kvHeads, share, size)
        ensures Merge(Shards(q, k, v, kvHeads, share, size, tp), attentionHeads, kvHeads, tp) == Ok(Parts(q, k, v))
      {
        EvenHeads(q, k, v, attentionHeads, kvHeads, size, tp, share);
      }
    } else {
      ProductOfNats(share, size);
      ProductOfNats(kvHeads, share * size);
      ProductOfNats(kvHeads, size);
      var q, k := seq(kvHeads * (share * size), _ => x), seq(kvHeads * size, _ => y);
      var v := seq(kvHeads * size, _ => x);
      UnevenHeads(q, k, v, attentionHeads, kvHeads, size, tp, share,
                  kvHeads * (share * size + size + size) / tp);
      MisplacedIsWrong(q, k, v, kvHeads, share, size, x, y);
    }
  }

  lemma MisplacedIsWrong<T>(
    q: seq<T>, k: seq<T>, v: seq<T>, heads: nat, share: nat, size: nat, x: T, y: T)
    requires Shapes(q, k, v, heads, share, size) && size > 0 && x != y
    requires q == seq(|q|, _ => x) && k == seq(|k|, _ => y) && v == seq(|v|, _ => x)
    ensures forall wide: nat, n: nat :: !Misplaced(q, k, v, heads, share, size, wide, n, Ok(Parts(q, k, v)))
  {
    forall wide: nat, n: nat ensures !Misplaced(q, k, v, heads, share, size, wide, n, Ok(Parts(q, k, v))) {
      if Misplaced(q, k, v, heads, share, size, wide, n, Ok(Parts(q, k, v))) {
        WrongRows(q, k, v, heads, share, size, wide, n, x, y);
      }
    }
  }

  /** Three key/value heads of two rows with one query head each, in two shards: no check fails, and key rows end up
      among the queries. */
  lemma ThreeHeadsInTwoShards<T>(q: seq<T>, k: seq<T>, v: seq<T>, x: T, y: T)
    requires x != y && q == seq(6, _ => x) && k == seq(6, _ => y) && v == seq(6, _ => x)
    ensures Shapes(q, k, v, 3, 1, 2)
    ensures var r := Merge(Shards(q, k, v, 3, 1, 2, 2), 3, 3, 2); r.Ok? && r != Ok(Parts(q, k, v))
  {
    hide Merge, Shards, Misplaced;
    assert 9 % 3 == 0 && 9 / 3 == 3 && 3 / 2 == 1 && 3 % 2 != 0;
    UnevenHeads(q, k, v, 3, 3, 2, 2, 1, 9);
    MisplacedIsWrong(q, k, v, 3, 1, 2, x, y);
    MisplacedIsOk(q, k, v, 3, 1, 2, 3, 2, Merge(Shards(q, k, v, 3, 1, 2, 2), 3, 3, 2));
  }

  lemma MisplacedIsOk<T>(
    q: seq<T>, k: seq<T>, v: seq<T>, heads: nat, share: nat, size: nat, wide: nat, n: nat,
    r: Result<Parts<T>, MergeError>)
    requires Shapes(q, k, v, heads, share, size) && Misplaced(q, k, v, heads, share, size, wide, n, r)
    ensures r.Ok?
  {
  }

  // ---- gate and up ------------------------------------------------------------------------------------------------

  datatype GateUp<T> = GateUp(gate: seq<T>, up: seq<T>)

  /** Halves every shard; refuses a shard that has no two halves. */
  method MergeGateUp<T>(shards: seq<seq<T>>) returns (r: Option<GateUp<T>>)
    ensures r.None? <==> exists t :: 0 <= t < |shards| && |Chunk(shards[t], 2)| != 2
    ensures r.Some? ==> r.value.gate == Flatten(Halves(shards, false)) && r.value.up == Flatten(Halves(shards, true))
  {
    var gates, ups := [], [];
    for t := 0 to |shards|
      invariant forall i :: 0 <= i < t ==> |Chunk(shards[i], 2)| == 2
      invariant |gates| == |ups| == t
      invariant forall i :: 0 <= i < t ==> gates[i] == Chunk(shards[i], 2)[0] && ups[i] == Chunk(shards[i], 2)[1]
    {
      var halves := Chunk(shards[t], 2);
      if |halves| != 2 {
        return None;
      }
      gates, ups := gates + [halves[0]], ups + [halves[1]];
    }
    assert gates == Halves(shards, false) && ups == Halves(shards, true);
    r := Some(GateUp(Flatten(gates), Flatten(ups)));
  }

  /** The first or second halves of the shards. */
  function Halves<T>(shards: seq<seq<T>>, second: bool): (r: seq<seq<T>>)
    requires forall t :: 0 <= t < |shards| ==> |Chunk(shards[t], 2)| == 2
    ensures |r| == |shards|
  {
    seq(|shards|, t requires 0 <= t < |shards| => Chunk(shards[t], 2)[if second then 1 else 0])
  }

  /** Shards that each hold a gate block above an up block of the same size merge into the two projections. */
  lemma GateUpRoundTrip<T>(gate: seq<T>, up: seq<T>, size: nat, tp: nat, shards: seq<seq<T>>)
    requires |gate| == |up| == tp * size && |shards| == tp
    requires forall t :: 0 <= t < tp ==> shards[t] == Blocks(gate, size, tp)[t] + Blocks(up, size, tp)[t]
    ensures forall t :: 0 <= t < tp ==> |Chunk(shards[t], 2)| == 2
    ensures Flatten(Halves(shards, false)) == gate && Flatten(Halves(shards, true)) == up
  {
    hide Chunk, Flatten;
    var g, u := Blocks(gate, size, tp), Blocks(up, size, tp);
    forall t | 0 <= t < tp ensures Chunk(shards[t], 2) == [g[t], u[t]] {
      TwoHalves(g[t], u[t], size);
    }
    assert Halves(shards, false) == g && Halves(shards, true) == u;
    BlocksFlatten(gate, size, tp);
    BlocksFlatten(up, size, tp);
  }

  lemma TwoHalves<T>(x: seq<T>, y: seq<T>, size: nat)
    requires |x| == |y| == size
    ensures Chunk(x + y, 2) == [x, y]
  {
    hide Chunk;
    assert |x + y| == 2 * size;
    ChunkEvenly(x + y, size, 2);
    assert |(x + y)[size..]| == 1 * size;
    assert Blocks(x + y, size, 2) == [(x + y)[..size]] + Blocks((x + y)[size..], size, 1);
    assert (x + y)[size..] == y;
    SingleBlock(y);
  }
}
