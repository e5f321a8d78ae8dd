// Cutting weights into chunks of at most one bucket, packing chunks into buckets, and merging them back.

module WeightChunks {
  import opened Common

  newtype Byte = x: int | 0 <= x < 256

  /** A named weight; shape and element type only matter through its bytes. */
  datatype Tensor = Tensor(name: string, bytes: seq<Byte>)

  datatype Meta = Meta(name: string, nbytes: nat, chunkOffset: nat, chunkSize: nat, offset: nat)

  datatype Chunk = Chunk(meta: Meta, data: seq<Byte>)

  // ---- splitting ----------------------------------------------------------------------------------

  function Min(a: nat, b: nat): (r: nat) {
    if a < b then a else b
  }

  function ChunkAt(t: Tensor, from: nat, bucketSize: nat): (r: Chunk)
    requires from <= |t.bytes|
  {
    var size := Min(bucketSize, |t.bytes| - from);
    Chunk(Meta(t.name, |t.bytes|, from, size, 0), t.bytes[from..from + size])
  }

  /** The chunks of one weight from byte `from` on. */
  function TensorChunks(t: Tensor, from: nat, bucketSize: nat): (r: seq<Chunk>)
    requires from <= |t.bytes| && bucketSize > 0
    decreases |t.bytes| - from
  {
    if from == |t.bytes| then []
    else
      [ChunkAt(t, from, bucketSize)] + TensorChunks(t, from + Min(bucketSize, |t.bytes| - from), bucketSize)
  }

  function ChunksOf(weights: seq<Tensor>, bucketSize: nat): (r: seq<Chunk>)
    requires bucketSize > 0
  {
    if weights == [] then [] else TensorChunks(weights[0], 0, bucketSize) + ChunksOf(weights[1..], bucketSize)
  }

  lemma {:induction false} ChunksOfSnoc(weights: seq<Tensor>, t: Tensor, bucketSize: nat)
    requires bucketSize > 0
    ensures ChunksOf(weights + [t], bucketSize) == ChunksOf(weights, bucketSize) + TensorChunks(t, 0, bucketSize)
  {
    if weights == [] {
      assert [t][1..] == [];
    } else {
      assert (weights + [t])[1..] == weights[1..] + [t];
      ChunksOfSnoc(weights[1..], t, bucketSize);
    }
  }

  method SplitWeightChunks(weights: seq<Tensor>, bucketSize: nat) returns (chunks: seq<Chunk>)
    requires bucketSize > 0
    ensures chunks == ChunksOf(weights, bucketSize)
  {
    chunks := [];
    for i := 0 to |weights|
      invariant chunks == ChunksOf(weights[..i], bucketSize)
    {
      var t := weights[i];
      var chunkOffset := 0;
      while chunkOffset < |t.bytes|
        invariant chunkOffset <= |t.bytes|
        invariant chunks + TensorChunks(t, chunkOffset, bucketSize)
               == ChunksOf(weights[..i], bucketSize) + TensorChunks(t, 0, bucketSize)
      {
        var chunkSize := Min(bucketSize, |t.bytes| - chunkOffset);
        chunks := chunks + [ChunkAt(t, chunkOffset, bucketSize)];
        chunkOffset := chunkOffset + chunkSize;
      }
      ChunksOfSnoc(weights[..i], t, bucketSize);
      assert weights[..i + 1] == weights[..i] + [t];
    }
    assert weights[..|weights|] == weights;
  }

  // ---- merging --------------------------------------------------------------------------------------

  datatype MergeError = WeightPending | BadFirstOffset | NameMismatch | OffsetMismatch | SizeMismatch

  /** What freshly allocated memory holds: byte `p` of the buffer opened after `n` weights. */
  type Memory = (nat, nat) -> Byte

  function Allocate(memory: Memory, n: nat, size: nat): (r: seq<Byte>)
    ensures |r| == size && forall p :: 0 <= p < size ==> r[p] == memory(n, p)
  {
    seq(size, p requires 0 <= p < size => memory(n, p))
  }

  /** The weight being assembled in a buffer of the size its first chunk announced, filled up to `offset`. */
  datatype Open = Open(name: string, buffer: seq<Byte>, offset: nat)

  datatype MergeState = MergeState(out: seq<Tensor>, open: Option<Open>)

  function Written(buffer: seq<Byte>, offset: nat, data: seq<Byte>): (r: seq<Byte>)
    requires offset + |data| <= |buffer|
    ensures |r| == |buffer|
  {
    buffer[..offset] + data + buffer[offset + |data|..]
  }

  /** What one chunk does to the merge: pass a weight that fits a bucket through, or extend the open one. */
  function MergeStep(memory: Memory, s: MergeState, c: Chunk, bucketSize: nat): (r: Result<MergeState, MergeError>) {
    var m := c.meta;
    if m.nbytes <= bucketSize then
      if s.open.Some? then Err(WeightPending)
      else if |c.data| != m.nbytes then Err(SizeMismatch)
      else Ok(MergeState(s.out + [Tensor(m.name, c.data)], None))
    else if s.open.None? && m.chunkOffset != 0 then Err(BadFirstOffset)
    else
      var open := if s.open.Some? then s.open.value else Open(m.name, Allocate(memory, |s.out|, m.nbytes), 0);
      if m.name != open.name then Err(NameMismatch)
      else if m.chunkOffset != open.offset then Err(OffsetMismatch)
      else if |c.data| != m.chunkSize || m.chunkOffset + m.chunkSize > |open.buffer| then Err(SizeMismatch)
      else
        var buffer := Written(open.buffer, m.chunkOffset, c.data);
        if m.chunkOffset + m.chunkSize == m.nbytes then Ok(MergeState(s.out + [Tensor(open.name, buffer)], None))
        else Ok(MergeState(s.out, Some(Open(open.name, buffer, open.offset + m.chunkSize))))
  }

  function MergeFrom(memory: Memory, s: MergeState, chunks: seq<Chunk>, bucketSize: nat): (r: Result<MergeState, MergeError>)
    decreases |chunks|
  {
    if chunks == [] then Ok(s)
    else
      var next := MergeStep(memory, s, chunks[0], bucketSize);
      if next.Err? then next else MergeFrom(memory, next.value, chunks[1..], bucketSize)
  }

  lemma {:induction false} MergeConcat(memory: Memory, s: MergeState, a: seq<Chunk>, b: seq<Chunk>, bucketSize: nat)
    ensures var first := MergeFrom(memory, s, a, bucketSize);
            MergeFrom(memory, s, a + b, bucketSize) == if first.Err? then first else MergeFrom(memory, first.value, b, bucketSize)
    decreases |a|
  {
    if a == [] {
      assert a + b == b;
    } else {
      assert (a + b)[1..] == a[1..] + b;
      var next := MergeStep(memory, s, a[0], bucketSize);
      if next.Ok? {
        MergeConcat(memory, next.value, a[1..], b, bucketSize);
      }
    }
  }

  /** The open weight of the loop is the open weight of the specification. */
  ghost predicate Assembling(open: Option<Open>, name: string, buffer: array?<Byte>, offset: nat)
    reads buffer
  {
    && (open.None? <==> buffer == null)
    && (buffer != null ==> open.value == Open(name, buffer[..], offset))
  }

  method NewBuffer(memory: Memory, n: nat, size: nat) returns (buffer: array<Byte>)
    ensures fresh(buffer) && buffer.Length == size && buffer[..] == Allocate(memory, n, size)
  {
    buffer := new Byte[size](p requires 0 <= p => memory(n, p));
  }

  method WriteInto(buffer: array<Byte>, offset: nat, data: seq<Byte>)
    requires offset + |data| <= buffer.Length
    modifies buffer
    ensures buffer[..] == Written(old(buffer[..]), offset, data)
  {
    forall k | 0 <= k < |data| {
      buffer[offset + k] := data[k];
    }
  }

  method MergeWeightChunks(memory: Memory, chunks: seq<Chunk>, bucketSize: nat)
    returns (r: Result<seq<Tensor>, MergeError>)
    ensures var expected := MergeFrom(memory, MergeState([], None), chunks, bucketSize);
            r == if expected.Ok? then Ok(expected.value.out) else Err(expected.error)
  {
    hide Allocate, Written;
    var out: seq<Tensor> := [];
    var name, offset: nat := "", 0;
    var buffer: array?<Byte> := null;
    ghost var state := MergeState([], None);
    assert chunks[0..] == chunks;
    for i := 0 to |chunks|
      invariant state.out == out && Assembling(state.open, name, buffer, offset)
      invariant MergeFrom(memory, state, chunks[i..], bucketSize) == MergeFrom(memory, MergeState([], None), chunks, bucketSize)
      invariant buffer == null || fresh(buffer)
    {
      var m, data := chunks[i].meta, chunks[i].data;
      assert chunks[i..][1..] == chunks[i + 1..];
      ghost var next := MergeStep(memory, state, chunks[i], bucketSize);
      if m.nbytes <= bucketSize {
        if buffer != null { return Err(WeightPending); }
        if |data| != m.nbytes { return Err(SizeMismatch); }
        out := out + [Tensor(m.name, data)];
        state := next.value;
        continue;
      }
      if buffer == null {
        if m.chunkOffset != 0 { return Err(BadFirstOffset); }
        name, offset := m.name, 0;
        buffer := NewBuffer(memory, |out|, m.nbytes);
      }
      if m.name != name { return Err(NameMismatch); }
      if m.chunkOffset != offset { return Err(OffsetMismatch); }
      if |data| != m.chunkSize || m.chunkOffset + m.chunkSize > buffer.Length { return Err(SizeMismatch); }
      WriteInto(buffer, m.chunkOffset, data);
      offset := offset + m.chunkSize;
      if m.chunkOffset + m.chunkSize == m.nbytes {
        out := out + [Tensor(name, buffer[..])];
        name, buffer, offset := "", null, 0;
      }
      state := next.value;
    }
    return Ok(out);
  }

  // ---- split and merge are inverse ---------------------------------------------------------------------

  function NonEmptyOnly(weights: seq<Tensor>): (r: seq<Tensor>) {
    if weights == [] then []
    else (if weights[0].bytes == [] then [] else [weights[0]]) + NonEmptyOnly(weights[1..])
  }

  lemma MergeCons(memory: Memory, s: MergeState, c: Chunk, rest: seq<Chunk>, bucketSize: nat)
    ensures MergeFrom(memory, s, [c] + rest, bucketSize)
         == var next := MergeStep(memory, s, c, bucketSize);
            if next.Err? then next else MergeFrom(memory, next.value, rest, bucketSize)
  {
    assert ([c] + rest)[1..] == rest;
  }

  /** A weight written up to byte `from`, before what its memory held. */
  function Partly(memory: Memory, out: seq<Tensor>, t: Tensor, from: nat): (r: MergeState)
    requires from <= |t.bytes|
  {
    var buffer := t.bytes[..from] + Allocate(memory, |out|, |t.bytes|)[from..];
    MergeState(out, if from == 0 then None else Some(Open(t.name, buffer, from)))
  }

  lemma WriteNext(t: Tensor, blank: seq<Byte>, from: nat, to: nat)
    requires from <= to <= |t.bytes| == |blank|
    ensures Written(t.bytes[..from] + blank[from..], from, t.bytes[from..to]) == t.bytes[..to] + blank[to..]
  {
  }

  lemma NothingBlank(t: Tensor, blank: seq<Byte>)
    requires |t.bytes| == |blank|
    ensures t.bytes[..0] + blank[0..] == blank && t.bytes[..|t.bytes|] + blank[|t.bytes|..] == t.bytes
    ensures t.bytes[0..|t.bytes|] == t.bytes
  {
  }

  lemma MergeOneChunk(memory: Memory, out: seq<Tensor>, t: Tensor, from: nat, to: nat, bucketSize: nat)
    requires bucketSize > 0 && from < |t.bytes| && (|t.bytes| <= bucketSize ==> from == 0)
    requires to == from + Min(bucketSize, |t.bytes| - from)
    ensures MergeStep(memory, Partly(memory, out, t, from), ChunkAt(t, from, bucketSize), bucketSize)
         == Ok(if to == |t.bytes| then MergeState(out + [t], None) else Partly(memory, out, t, to))
  {
    hide Allocate, Written;
    var blank := Allocate(memory, |out|, |t.bytes|);
    NothingBlank(t, blank);
    WriteNext(t, blank, from, to);
  }

  /** The chunks of one weight from byte `from` on complete that weight. */
  lemma {:induction false} MergeTensor(memory: Memory, out: seq<Tensor>, t: Tensor, from: nat, bucketSize: nat)
    requires bucketSize > 0 && from < |t.bytes| && (|t.bytes| <= bucketSize ==> from == 0)
    ensures MergeFrom(memory, Partly(memory, out, t, from), TensorChunks(t, from, bucketSize), bucketSize)
         == Ok(MergeState(out + [t], None))
    decreases |t.bytes| - from
  {
    var to := from + Min(bucketSize, |t.bytes| - from);
    MergeOneChunk(memory, out, t, from, to, bucketSize);
    MergeCons(memory, Partly(memory, out, t, from), ChunkAt(t, from, bucketSize), TensorChunks(t, to, bucketSize), bucketSize);
    if to < |t.bytes| {
      MergeTensor(memory, out, t, to, bucketSize);
    }
  }

  lemma {:induction false} MergeAll(memory: Memory, out: seq<Tensor>, weights: seq<Tensor>, bucketSize: nat)
    requires bucketSize > 0
    ensures MergeFrom(memory, MergeState(out, None), ChunksOf(weights, bucketSize), bucketSize)
         == Ok(MergeState(out + NonEmptyOnly(weights), None))
    decreases |weights|
  {
    if weights == [] {
      assert out + [] == out;
    } else {
      var t := weights[0];
      var next := if t.bytes == [] then out else out + [t];
      if t.bytes != [] {
        MergeTensor(memory, out, t, 0, bucketSize);
      }
      assert MergeFrom(memory, MergeState(out, None), TensorChunks(t, 0, bucketSize), bucketSize) == Ok(MergeState(next, None));
      MergeConcat(memory, MergeState(out, None), TensorChunks(t, 0, bucketSize), ChunksOf(weights[1..], bucketSize), bucketSize);
      MergeAll(memory, next, weights[1..], bucketSize);
      assert next + NonEmptyOnly(weights[1..]) == out + NonEmptyOnly(weights);
    }
  }

  /** Merging the chunks of any weights never fails and gives back exactly the weights that have bytes. */
  lemma SplitMergeRoundTrip(memory: Memory, weights: seq<Tensor>, bucketSize: nat)
    requires bucketSize > 0
    ensures MergeFrom(memory, MergeState([], None), ChunksOf(weights, bucketSize), bucketSize)
         == Ok(MergeState(NonEmptyOnly(weights), None))
  {
    MergeAll(memory, [], weights, bucketSize);
    assert [] + NonEmptyOnly(weights) == NonEmptyOnly(weights);
  }

  /** Nothing is lost if and only if no weight is empty. */
  lemma {:induction false} NothingDropped(weights: seq<Tensor>)
    ensures NonEmptyOnly(weights) == weights <==> forall t :: t in weights ==> t.bytes != []
    ensures |NonEmptyOnly(weights)| <= |weights|
  {
    if weights != [] {
      NothingDropped(weights[1..]);
      assert weights == [weights[0]] + weights[1..];
      if weights[0].bytes == [] {
        assert weights[0] in weights;
      }
    }
  }

  // ---- what memory held before -------------------------------------------------------------------------

  /** What comes of merging in the given memory. */
  function Merged(memory: Memory, chunks: seq<Chunk>, bucketSize: nat): (r: Result<seq<Tensor>, MergeError>)
    ensures r.Ok? <==> MergeFrom(memory, MergeState([], None), chunks, bucketSize).Ok?
  {
    var end := MergeFrom(memory, MergeState([], None), chunks, bucketSize);
    if end.Ok? then Ok(end.value.out) else Err(end.error)
  }

  ghost predicate MemoryNeverShows(chunks: seq<Chunk>, bucketSize: nat) {
    forall memory, other :: Merged(memory, chunks, bucketSize) == Merged(other, chunks, bucketSize)
  }

  /** A chunk completes the size it announces itself, while the buffer at hand was opened for more. */
  predicate ShortHere(size: Option<nat>, m: Meta, bucketSize: nat) {
    m.nbytes > bucketSize && m.chunkOffset + m.chunkSize == m.nbytes && size.Some? && m.nbytes < size.value
  }

  /** The size of the buffer at hand after a chunk, if there is one. */
  function SizeAfter(size: Option<nat>, m: Meta, bucketSize: nat): (r: Option<nat>) {
    if m.nbytes <= bucketSize then size
    else if m.chunkOffset + m.chunkSize == m.nbytes then None
    else if size.Some? then size
    else Some(m.nbytes)
  }

  /** Some chunk closes a buffer short, by the metadata alone. */
  predicate ClosesShort(size: Option<nat>, chunks: seq<Chunk>, bucketSize: nat)
    decreases |chunks|
  {
    chunks != []
    && (ShortHere(size, chunks[0].meta, bucketSize)
        || ClosesShort(SizeAfter(size, chunks[0].meta, bucketSize), chunks[1..], bucketSize))
  }

  function SizeOf(s: MergeState): (r: Option<nat>) {
    if s.open.Some? then Some(|s.open.value.buffer|) else None
  }

  /** Two merges of the same chunks in different memory. */
  ghost predicate InStep(a: MergeState, b: MergeState) {
    && |a.out| == |b.out| && a.open.Some? == b.open.Some?
    && (a.open.Some? ==>
          var x, y := a.open.value, b.open.value;
          x.name == y.name && x.offset == y.offset <= |x.buffer| == |y.buffer|)
  }

  /** They agree in all that was written. */
  ghost predicate SameSoFar(a: MergeState, b: MergeState) {
    && InStep(a, b) && a.out == b.out
    && (a.open.Some? ==>
          var x, y := a.open.value, b.open.value;
          x.buffer[..x.offset] == y.buffer[..x.offset])
  }

  /** They differ in every byte that was not written. */
  ghost predicate ApartElsewhere(a: MergeState, b: MergeState) {
    && InStep(a, b)
    && (a.open.Some? ==>
          var x, y := a.open.value, b.open.value;
          forall p :: x.offset <= p < |x.buffer| ==> x.buffer[p] != y.buffer[p])
  }

  ghost predicate ApartMemory(memory: Memory, other: Memory) {
    forall n: nat, p: nat :: memory(n, p) != other(n, p)
  }

  lemma WrittenAlike(a: seq<Byte>, b: seq<Byte>, offset: nat, data: seq<Byte>)
    requires |a| == |b| && offset + |data| <= |a|
    ensures a[..offset] == b[..offset] ==>
              Written(a, offset, data)[..offset + |data|] == Written(b, offset, data)[..offset + |data|]
    ensures a[..offset] == b[..offset] && offset + |data| == |a| ==> Written(a, offset, data) == Written(b, offset, data)
  {
    assert Written(a, offset, data)[..offset + |data|] == a[..offset] + data;
    assert Written(b, offset, data)[..offset + |data|] == b[..offset] + data;
  }

  lemma WrittenApart(a: seq<Byte>, b: seq<Byte>, offset: nat, data: seq<Byte>)
    requires |a| == |b| && offset + |data| <= |a| && forall p :: offset <= p < |a| ==> a[p] != b[p]
    ensures forall p :: offset + |data| <= p < |a| ==> Written(a, offset, data)[p] != Written(b, offset, data)[p]
    ensures offset + |data| < |a| ==> Written(a, offset, data) != Written(b, offset, data)
  {
    if offset + |data| < |a| {
      assert Written(a, offset, data)[offset + |data|] != Written(b, offset, data)[offset + |data|];
    }
  }

  /** The buffer that a chunk of a large weight is written to. */
  function Target(memory: Memory, s: MergeState, m: Meta): (r: Open) {
    if s.open.Some? then s.open.value else Open(m.name, Allocate(memory, |s.out|, m.nbytes), 0)
  }

  lemma OneMoreApart(a: seq<Tensor>, b: seq<Tensor>, x: Tensor, y: Tensor)
    requires |a| == |b|
    ensures a != b || x != y ==> a + [x] != b + [y]
  {
    if a + [x] == b + [y] {
      assert a == (a + [x])[..|a|] && b == (b + [y])[..|a|];
      assert (a + [x])[|a|] == x && (b + [y])[|a|] == y;
    }
  }

  /** A step of both: the same check fails, or both go on. */
  lemma StepBoth(memory: Memory, other: Memory, a: MergeState, b: MergeState, c: Chunk, bucketSize: nat)
    requires InStep(a, b)
    ensures var x, y := MergeStep(memory, a, c, bucketSize), MergeStep(other, b, c, bucketSize);
            if x.Ok? then y.Ok? && InStep(x.value, y.value) else y == x
    ensures var x := MergeStep(memory, a, c, bucketSize);
            x.Ok? ==> SizeOf(x.value) == SizeAfter(SizeOf(a), c.meta, bucketSize)
  {
    hide Allocate, Written;
  }

  /** Unless a buffer is closed short, they stay the same in all that was written. */
  lemma StepSame(memory: Memory, other: Memory, a: MergeState, b: MergeState, c: Chunk, bucketSize: nat)
    requires SameSoFar(a, b) && !ShortHere(SizeOf(a), c.meta, bucketSize) && MergeStep(memory, a, c, bucketSize).Ok?
    ensures MergeStep(other, b, c, bucketSize).Ok?
    ensures SameSoFar(MergeStep(memory, a, c, bucketSize).value, MergeStep(other, b, c, bucketSize).value)
  {
    hide Allocate, Written;
    var m := c.meta;
    if m.nbytes > bucketSize {
      WrittenAlike(Target(memory, a, m).buffer, Target(other, b, m).buffer, m.chunkOffset, c.data);
    }
  }

  /** What differs stays different, and a buffer that is closed short differs. */
  lemma StepApart(memory: Memory, other: Memory, a: MergeState, b: MergeState, c: Chunk, bucketSize: nat)
    requires ApartMemory(memory, other) && ApartElsewhere(a, b) && MergeStep(memory, a, c, bucketSize).Ok?
    ensures MergeStep(other, b, c, bucketSize).Ok?
    ensures var x, y := MergeStep(memory, a, c, bucketSize).value, MergeStep(other, b, c, bucketSize).value;
            ApartElsewhere(x, y) && (a.out != b.out || ShortHere(SizeOf(a), c.meta, bucketSize) ==> x.out != y.out)
  {
    hide Allocate, Written;
    var m := c.meta;
    if m.nbytes > bucketSize {
      var x, y := Target(memory, a, m), Target(other, b, m);
      WrittenApart(x.buffer, y.buffer, m.chunkOffset, c.data);
      OneMoreApart(a.out, b.out, Tensor(x.name, Written(x.buffer, m.chunkOffset, c.data)),
                   Tensor(y.name, Written(y.buffer, m.chunkOffset, c.data)));
    } else {
      OneMoreApart(a.out, b.out, Tensor(m.name, c.data), Tensor(m.name, c.data));
    }
  }

  /** The checks do not look at memory. */
  lemma {:induction false} SameChecks(
    memory: Memory, other: Memory, a: MergeState, b: MergeState, chunks: seq<Chunk>, bucketSize: nat)
    requires InStep(a, b)
    ensures var x, y := MergeFrom(memory, a, chunks, bucketSize), MergeFrom(other, b, chunks, bucketSize);
            if x.Ok? then y.Ok? else y == x
    decreases |chunks|
  {
    if chunks != [] {
      hide InStep, MergeStep;
      StepBoth(memory, other, a, b, chunks[0], bucketSize);
      var x := MergeStep(memory, a, chunks[0], bucketSize);
      if x.Ok? {
        SameChecks(memory, other, x.value, MergeStep(other, b, chunks[0], bucketSize).value, chunks[1..], bucketSize);
      }
    }
  }

  lemma {:induction false} NoShortCloseNoShow(
    memory: Memory, other: Memory, a: MergeState, b: MergeState, chunks: seq<Chunk>, bucketSize: nat)
    requires SameSoFar(a, b) && MergeFrom(memory, a, chunks, bucketSize).Ok?
    requires !ClosesShort(SizeOf(a), chunks, bucketSize)
    ensures MergeFrom(other, b, chunks, bucketSize).Ok?
    ensures MergeFrom(memory, a, chunks, bucketSize).value.out == MergeFrom(other, b, chunks, bucketSize).value.out
    decreases |chunks|
  {
    if chunks != [] {
      hide InStep, MergeStep, SizeAfter, ShortHere;
      StepBoth(memory, other, a, b, chunks[0], bucketSize);
      StepSame(memory, other, a, b, chunks[0], bucketSize);
      NoShortCloseNoShow(memory, other, MergeStep(memory, a, chunks[0], bucketSize).value,
                         MergeStep(other, b, chunks[0], bucketSize).value, chunks[1..], bucketSize);
    }
  }

  lemma {:induction false} ShortCloseShows(
    memory: Memory, other: Memory, a: MergeState, b: MergeState, chunks: seq<Chunk>, bucketSize: nat)
    requires ApartMemory(memory, other) && ApartElsewhere(a, b) && MergeFrom(memory, a, chunks, bucketSize).Ok?
    requires a.out != b.out || ClosesShort(SizeOf(a), chunks, bucketSize)
    ensures MergeFrom(other, b, chunks, bucketSize).Ok?
    ensures MergeFrom(memory, a, chunks, bucketSize).value.out != MergeFrom(other, b, chunks, bucketSize).value.out
    decreases |chunks|
  {
    if chunks != [] {
      hide ApartMemory, InStep, MergeStep, SizeAfter, ShortHere;
      StepBoth(memory, other, a, b, chunks[0], bucketSize);
      StepApart(memory, other, a, b, chunks[0], bucketSize);
      ShortCloseShows(memory, other, MergeStep(memory, a, chunks[0], bucketSize).value,
                      MergeStep(other, b, chunks[0], bucketSize).value, chunks[1..], bucketSize);
    }
  }

  lemma NothingApart()
    ensures SameSoFar(MergeState([], None), MergeState([], None))
    ensures ApartElsewhere(MergeState([], None), MergeState([], None)) && SizeOf(MergeState([], None)) == None
  {
  }

  /** What memory held before shows in no result of merging, exactly when some check fails, which it does in every
      memory alike, or no chunk closes a buffer short. */
  lemma MemoryNeverShowsIff(memory: Memory, chunks: seq<Chunk>, bucketSize: nat)
    ensures MemoryNeverShows(chunks, bucketSize) <==>
              Merged(memory, chunks, bucketSize).Err? || !ClosesShort(None, chunks, bucketSize)
  {
    hide ClosesShort, MergeFrom, ApartElsewhere, SameSoFar;
    var start := MergeState([], None);
    NothingApart();
    if Merged(memory, chunks, bucketSize).Err? || !ClosesShort(None, chunks, bucketSize) {
      forall one, two ensures Merged(one, chunks, bucketSize) == Merged(two, chunks, bucketSize) {
        SameChecks(memory, one, start, start, chunks, bucketSize);
        SameChecks(memory, two, start, start, chunks, bucketSize);
        if Merged(memory, chunks, bucketSize).Ok? {
          NoShortCloseNoShow(one, two, start, start, chunks, bucketSize);
        }
      }
    } else {
      var zeros: Memory, ones: Memory := (n, p) => 0, (n, p) => 1;
      SameChecks(memory, zeros, start, start, chunks, bucketSize);
      ShortCloseShows(zeros, ones, start, start, chunks, bucketSize);
      assert Merged(zeros, chunks, bucketSize) != Merged(ones, chunks, bucketSize);
    }
  }

  // ---- when no buffer is closed short --------------------------------------------------------------------

  /** Each weight's metadata gives the same size with every one of its chunks. */
  ghost predicate SizesAgree(chunks: seq<Chunk>) {
    forall i, j :: 0 <= i < |chunks| && 0 <= j < |chunks| && chunks[i].meta.name == chunks[j].meta.name ==>
      chunks[i].meta.nbytes == chunks[j].meta.nbytes
  }

  /** The chunks still to come announce the size of the open buffer. */
  ghost predicate Announced(s: MergeState, chunks: seq<Chunk>) {
    s.open.Some? ==>
      forall i :: 0 <= i < |chunks| && chunks[i].meta.name == s.open.value.name ==>
        chunks[i].meta.nbytes == |s.open.value.buffer|
  }

  lemma {:induction false} AgreeingNeverCloseShort(memory: Memory, s: MergeState, chunks: seq<Chunk>, bucketSize: nat)
    requires SizesAgree(chunks) && Announced(s, chunks) && MergeFrom(memory, s, chunks, bucketSize).Ok?
    ensures !ClosesShort(SizeOf(s), chunks, bucketSize)
    decreases |chunks|
  {
    if chunks != [] {
      hide Allocate, Written;
      var next := MergeStep(memory, s, chunks[0], bucketSize).value;
      assert InStep(s, s);
      StepBoth(memory, memory, s, s, chunks[0], bucketSize);
      AgreeingNeverCloseShort(memory, next, chunks[1..], bucketSize);
    }
  }

  /** As long as a weight's chunks agree on its size, what memory held before shows in no result. */
  lemma MemoryDoesNotShow(chunks: seq<Chunk>, bucketSize: nat)
    requires SizesAgree(chunks)
    ensures MemoryNeverShows(chunks, bucketSize)
  {
    hide ClosesShort, MergeFrom, SizesAgree;
    var memory: Memory := (n, p) => 0;
    MemoryNeverShowsIff(memory, chunks, bucketSize);
    if Merged(memory, chunks, bucketSize).Ok? {
      AgreeingNeverCloseShort(memory, MergeState([], None), chunks, bucketSize);
    }
  }

  /** What the splitter makes never closes a buffer short, whatever names the weights have. */
  lemma SplitNeverClosesShort(weights: seq<Tensor>, bucketSize: nat)
    requires bucketSize > 0
    ensures !ClosesShort(None, ChunksOf(weights, bucketSize), bucketSize)
  {
    hide ClosesShort, MergeFrom, NonEmptyOnly, ChunksOf;
    var chunks, memory: Memory := ChunksOf(weights, bucketSize), (n, p) => 0;
    forall one, two ensures Merged(one, chunks, bucketSize) == Merged(two, chunks, bucketSize) {
      SplitMergeRoundTrip(one, weights, bucketSize);
      SplitMergeRoundTrip(two, weights, bucketSize);
    }
    SplitMergeRoundTrip(memory, weights, bucketSize);
    MemoryNeverShowsIff(memory, chunks, bucketSize);
  }

  /** A second chunk that announces a smaller size closes the weight early, and its last byte is whatever the
      memory held. */
  function Disagreeing(): (r: seq<Chunk>) {
    [Chunk(Meta("a", 3, 0, 1, 0), [7]), Chunk(Meta("a", 2, 1, 1, 0), [8])]
  }

  lemma UnwrittenByteIsHandedOut(memory: Memory)
    ensures MergeFrom(memory, MergeState([], None), Disagreeing(), 1)
         == Ok(MergeState([Tensor("a", [7, 8, memory(0, 2)])], None))
  {
    var chunks, blank := Disagreeing(), Allocate(memory, 0, 3);
    assert Written(blank, 0, [7]) == [7, blank[1], blank[2]];
    assert Written([7, blank[1], blank[2]], 1, [8]) == [7, 8, memory(0, 2)];
    assert chunks[1..] == [chunks[1]] && chunks[1..][1..] == [];
    var s1 := MergeState([], Some(Open("a", [7, blank[1], blank[2]], 1)));
    assert MergeStep(memory, MergeState([], None), chunks[0], 1) == Ok(s1);
    var last := Tensor("a", [7, 8, memory(0, 2)]);
    assert [] + [last] == [last];
    assert MergeStep(memory, s1, chunks[1], 1) == Ok(MergeState([Tensor("a", [7, 8, memory(0, 2)])], None));
  }
}
