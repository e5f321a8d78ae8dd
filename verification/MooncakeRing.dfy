// The point-to-point weight transfer: buckets are relayed from rank to rank. Every rank has two half
// buffers; a reader acknowledges a bucket by writing four magic bytes over its first bytes, in the memory
// of the rank it read from.

module MooncakeRing {
  import opened Common
  import opened Pieces
  import opened WeightChunks
  import opened BucketPacking

  const MAGIC: seq<Byte> := [0xAB, 0xDC, 0xEF, 0x88]

  /** Whole weights to send, each as one chunk, and the number of receiving ranks. */
  datatype Job = Job(chunks: seq<Chunk>, bucketSize: nat, readers: nat) {
    function Count(): (r: nat) {
      |Buckets(chunks, bucketSize)|
    }
    function Bytes(k: nat): (r: seq<Byte>)
      requires k < Count()
    {
      BytesOf(Buckets(chunks, bucketSize)[k])
    }
    function InfoOf(k: nat): (r: Info)
      requires k < Count()
    {
      Info(Odd(k), |Bytes(k)|, k == Count() - 1)
    }
  }

  function BytesOf(bucket: seq<Chunk>): (r: seq<Byte>) {
    if bucket == [] then [] else BytesOf(bucket[..|bucket| - 1]) + bucket[|bucket| - 1].data
  }

  /** Which of the two halves bucket `k` goes to. */
  predicate Odd(k: nat) {
    k % 2 == 1
  }

  /** What one rank tells the next: where the bucket lies, how long it is, and whether it is the last. */
  datatype Info = Info(half: bool, len: nat, isLast: bool)

  type Halves = map<bool, seq<Byte>>

  /** `shipped` buckets were announced; `blocked` says that the half to fill next is not acknowledged yet;
      `pristine` that nothing was put into the current bucket since the last announcement. */
  datatype Sender = Sender(next: nat, shipped: nat, offset: nat, pristine: bool, blocked: bool, closed: bool, finished: bool)

  datatype Phase = Receiving | Blocked | Copying | Relaying | Yielding | Acknowledging | Finished

  /** `idx` buckets are acknowledged; `log` holds the bytes copied for each bucket. */
  datatype Reader = Reader(idx: nat, phase: Phase, info: Info, log: seq<seq<Byte>>)

  /** Rank 0 is the sender; rank r + 1 is `readers[r]`, which reads `queues[r]` and `halves[r]`. */
  datatype State = State(
    sender: Sender, readers: seq<Reader>, queues: seq<seq<Info>>, halves: seq<Halves>, failed: bool)

  datatype Action =
    | Ship
    | Unblock
    | Put
    | Close
    | Finish
    | Receive(rank: nat)
    | Proceed(rank: nat)
    | Copy(rank: nat)
    | Relay(rank: nat)
    | Hand(rank: nat)
    | Acknowledge(rank: nat)

  function Overlay(buf: seq<Byte>, data: seq<Byte>): (r: seq<Byte>) {
    if |data| <= |buf| then data + buf[|data|..] else buf
  }

  predicate ShowsMagic(buf: seq<Byte>) {
    |buf| >= 4 && buf[..4] == MAGIC
  }

  predicate Shaped(s: State) {
    && |s.queues| == |s.readers| && |s.halves| == |s.readers| + 1
    && forall r :: 0 <= r < |s.halves| ==> false in s.halves[r] && true in s.halves[r]
  }

  /** The half buffers start with arbitrary bytes, whatever an earlier transfer has left in them. */
  function Init(job: Job, halves: seq<Halves>): (result: State) {
    State(Sender(0, 0, 0, true, false, false, false),
          seq(job.readers, r => Reader(0, Receiving, Info(false, 0, false), [])),
          seq(job.readers, r => []), halves, false)
  }

  // ---- steps of the sender ------------------------------------------------------------------------------

  function Announce(s: State, isLast: bool): (r: seq<seq<Info>>)
  {
    if s.queues == [] then [] else s.queues[0 := s.queues[0] + [Info(Odd(s.sender.shipped), s.sender.offset, isLast)]]
  }

  function ShipStep(job: Job, s: State): (r: Option<State>) {
    var p := s.sender;
    if p.next < |job.chunks| && !p.blocked && !(p.pristine && p.shipped > 0)
       && p.offset + job.chunks[p.next].meta.chunkSize > job.bucketSize
    then
      Some(s.(queues := Announce(s, false),
              sender := p.(shipped := p.shipped + 1, offset := 0, pristine := true, blocked := p.shipped > 0)))
    else None
  }

  function UnblockStep(s: State): (r: Option<State>)
    requires Shaped(s)
  {
    var p := s.sender;
    if p.blocked && ShowsMagic(s.halves[0][Odd(p.shipped)]) then Some(s.(sender := p.(blocked := false))) else None
  }

  /** The assertion that the weight fits is part of the step. */
  function PutStep(job: Job, s: State): (r: Option<State>)
    requires Shaped(s)
  {
    var p := s.sender;
    if p.next < |job.chunks| && !p.blocked
       && (p.offset + job.chunks[p.next].meta.chunkSize <= job.bucketSize || (p.pristine && p.shipped > 0))
    then
      var c, half := job.chunks[p.next], Odd(p.shipped);
      var buf := s.halves[0][half];
      Some(s.(failed := s.failed || p.offset + c.meta.chunkSize > job.bucketSize,
              halves := s.halves[0 := s.halves[0][half := PutAt(buf, p.offset, c.data)]],
              sender := p.(next := p.next + 1, offset := p.offset + c.meta.chunkSize, pristine := false)))
    else None
  }

  function PutAt(buf: seq<Byte>, offset: nat, data: seq<Byte>): (r: seq<Byte>) {
    if offset + |data| <= |buf| then buf[..offset] + data + buf[offset + |data|..] else buf
  }

  function CloseStep(job: Job, s: State): (r: Option<State>) {
    var p := s.sender;
    if p.next == |job.chunks| && !p.blocked && !p.closed then
      Some(s.(queues := Announce(s, true), sender := p.(shipped := p.shipped + 1, closed := true)))
    else None
  }

  function FinishStep(s: State): (r: Option<State>)
    requires Shaped(s)
  {
    var p := s.sender;
    if p.closed && !p.finished && p.shipped > 0 && ShowsMagic(s.halves[0][Odd(p.shipped - 1)])
    then Some(s.(sender := p.(finished := true)))
    else None
  }

  // ---- steps of a reader ----------------------------------------------------------------------------------

  function ReceiveStep(s: State, r: nat): (result: Option<State>)
    requires Shaped(s) && r < |s.readers|
  {
    var x := s.readers[r];
    if x.phase == Receiving && s.queues[r] != [] then
      var phase := if x.idx >= 2 && r + 1 < |s.readers| then Blocked else Copying;
      Some(s.(queues := s.queues[r := s.queues[r][1..]],
              readers := s.readers[r := x.(info := s.queues[r][0], phase := phase)]))
    else None
  }

  function ProceedStep(s: State, r: nat): (result: Option<State>)
    requires Shaped(s) && r < |s.readers|
  {
    var x := s.readers[r];
    if x.phase == Blocked && ShowsMagic(s.halves[r + 1][Odd(x.idx)])
    then Some(s.(readers := s.readers[r := x.(phase := Copying)]))
    else None
  }

  function CopyStep(s: State, r: nat): (result: Option<State>)
    requires Shaped(s) && r < |s.readers|
  {
    var x := s.readers[r];
    var from := s.halves[r][x.info.half];
    if x.phase == Copying && x.info.len <= |from| then
      var data := from[..x.info.len];
      Some(s.(halves := s.halves[r + 1 := s.halves[r + 1][Odd(x.idx) := Overlay(s.halves[r + 1][Odd(x.idx)], data)]],
              readers := s.readers[r := x.(log := x.log + [data], phase := Relaying)]))
    else None
  }

  function RelayStep(s: State, r: nat): (result: Option<State>)
    requires Shaped(s) && r < |s.readers|
  {
    var x := s.readers[r];
    if x.phase != Relaying then None
    else
      var readers := s.readers[r := x.(phase := Yielding)];
      if r + 1 < |s.readers|
      then Some(s.(readers := readers, queues := s.queues[r + 1 := s.queues[r + 1] + [x.info.(half := Odd(x.idx))]]))
      else Some(s.(readers := readers))
  }

  function HandStep(s: State, r: nat): (result: Option<State>)
    requires Shaped(s) && r < |s.readers|
  {
    var x := s.readers[r];
    if x.phase == Yielding then Some(s.(readers := s.readers[r := x.(phase := Acknowledging)])) else None
  }

  function AcknowledgeStep(s: State, r: nat): (result: Option<State>)
    requires Shaped(s) && r < |s.readers|
  {
    var x := s.readers[r];
    if x.phase == Acknowledging then
      Some(s.(halves := s.halves[r := s.halves[r][x.info.half := Overlay(s.halves[r][x.info.half], MAGIC)]],
              readers := s.readers[r := x.(idx := x.idx + 1, phase := if x.info.isLast then Finished else Receiving)]))
    else None
  }

  function Step(job: Job, s: State, a: Action): (result: Option<State>) {
    if !Shaped(s) then None
    else
      match a
      case Ship => ShipStep(job, s)
      case Unblock => UnblockStep(s)
      case Put => PutStep(job, s)
      case Close => CloseStep(job, s)
      case Finish => FinishStep(s)
      case Receive(r) => if r < |s.readers| then ReceiveStep(s, r) else None
      case Proceed(r) => if r < |s.readers| then ProceedStep(s, r) else None
      case Copy(r) => if r < |s.readers| then CopyStep(s, r) else None
      case Relay(r) => if r < |s.readers| then RelayStep(s, r) else None
      case Hand(r) => if r < |s.readers| then HandStep(s, r) else None
      case Acknowledge(r) => if r < |s.readers| then AcknowledgeStep(s, r) else None
  }

  function Run(job: Job, s: State, schedule: seq<Action>): (r: Option<State>) {
    if schedule == [] then Some(s)
    else
      var before := Run(job, s, schedule[..|schedule| - 1]);
      if before.None? then None else Step(job, before.value, schedule[|schedule| - 1])
  }

  // ---- buckets that look acknowledged -----------------------------------------------------------------------

  /** Written over a half that shows the magic bytes, these bytes leave it showing them. */
  predicate LooksAcknowledged(b: seq<Byte>) {
    forall p :: 0 <= p < 4 && p < |b| ==> b[p] == MAGIC[p]
  }

  predicate Agree(a: seq<Byte>, b: seq<Byte>) {
    forall p :: 0 <= p < |a| && p < |b| ==> a[p] == b[p]
  }

  ghost predicate Looks(job: Job, k: nat) {
    k < job.Count() && LooksAcknowledged(job.Bytes(k))
  }

  /** Whoever awaits the halves of buckets `from` to `to` - 2 may go on before these buckets are read. */
  ghost predicate AllLook(job: Job, from: nat, to: nat) {
    forall k: nat :: from <= k && k + 2 <= to ==> Looks(job, k)
  }

  /** Bucket `j` may be written to the half of bucket `i` while bucket `i` is not read yet. */
  ghost predicate Overtakes(job: Job, j: nat, i: nat) {
    i + 2 <= j < job.Count() && Odd(i) == Odd(j) && AllLook(job, i, j)
  }

  /** Neither bucket can tell: the earlier one is read unchanged, and its acknowledgement spares the later one. */
  ghost predicate Indifferent(job: Job, j: nat, i: nat) {
    i < job.Count() && Looks(job, j) && Agree(job.Bytes(i), job.Bytes(j))
  }

  /** A bucket that may overtake an unread one does no harm. */
  ghost predicate Harmless(job: Job) {
    forall i: nat, j: nat :: Overtakes(job, j, i) ==> Indifferent(job, j, i)
  }

  /** Each weight fits a bucket, as the sender asserts, and there is a rank to send to. */
  ghost predicate WeightsFit(job: Job) {
    && job.bucketSize >= 4 && job.readers > 0
    && forall i :: 0 <= i < |job.chunks| ==>
         |job.chunks[i].data| == job.chunks[i].meta.chunkSize <= job.bucketSize
  }

  lemma Parity(k: nat)
    ensures Odd(k + 2) == Odd(k) && Odd(k + 1) == !Odd(k)
  {
  }

  lemma SameHalf(k: nat, n: nat)
    requires k < n && Odd(k) == Odd(n)
    ensures k + 2 <= n
  {
  }

  lemma OvertakenIsHarmless(job: Job, from: nat, k: nat, n: nat)
    requires from <= k < n < job.Count() && Odd(k) == Odd(n)
    requires AllLook(job, from, n) && Harmless(job)
    ensures Indifferent(job, n, k)
  {
    hide Looks, Odd, Indifferent;
    SameHalf(k, n);
    assert Overtakes(job, n, k);
  }

  // ---- the invariant ----------------------------------------------------------------------------------------

  /** Buckets popped from the queue, copied, and announced to the next rank. */
  function Popped(x: Reader): (r: nat) {
    if x.phase in {Receiving, Finished} then x.idx else x.idx + 1
  }

  function Announced(x: Reader): (r: nat) {
    if x.phase in {Yielding, Acknowledging} then x.idx + 1 else x.idx
  }

  ghost function Infos(job: Job, from: nat, to: nat): (r: seq<Info>)
    requires from <= to <= job.Count()
    ensures |r| == to - from && forall i :: 0 <= i < |r| ==> r[i] == job.InfoOf(from + i)
  {
    seq(to - from, i requires 0 <= i < to - from => job.InfoOf(from + i))
  }

  /** A reader's own state, given how many buckets its upstream has announced and how many its downstream
      has acknowledged (None for the last rank). */
  ghost predicate ReaderInv(
      job: Job, x: Reader, upstream: nat, queue: seq<Info>, downstream: Option<nat>, exact: bool) {
    && Popped(x) <= upstream <= job.Count()
    && queue == Infos(job, Popped(x), upstream)
    && (x.phase == Finished <==> x.idx == job.Count())
    && (x.phase in {Blocked, Copying, Relaying, Yielding, Acknowledging} ==>
          x.idx < job.Count() && x.info == job.InfoOf(x.idx))
    && |x.log| == (if x.phase in {Relaying, Yielding, Acknowledging} then x.idx + 1 else x.idx)
    && (x.phase == Blocked ==> x.idx >= 2 && downstream.Some?)
    && (exact ==> forall k :: 0 <= k < |x.log| ==> x.log[k] == job.Bytes(k))
    && (exact && downstream.Some? && x.phase == Copying ==> AllLook(job, downstream.value, x.idx))
  }

  /** The half of bucket `k` begins with the bytes of bucket `k`. */
  ghost predicate Whole(job: Job, halves: Halves, k: nat) {
    && k < job.Count() && Odd(k) in halves
    && |job.Bytes(k)| <= |halves[Odd(k)]| && halves[Odd(k)][..|job.Bytes(k)|] == job.Bytes(k)
  }

  ghost predicate Marked(halves: Halves, k: nat) {
    Odd(k) in halves && ShowsMagic(halves[Odd(k)])
  }

  ghost predicate Sized(job: Job, halves: Halves) {
    false in halves && true in halves && |halves[false]| == |halves[true]| == job.bucketSize
  }

  /** Unread buckets can be read, and a rank gets more than two buckets ahead of its reader only past buckets
      that look acknowledged. */
  ghost predicate Intact(job: Job, held: nat, acknowledged: nat, halves: Halves) {
    && (forall k: nat :: acknowledged <= k < held ==> Whole(job, halves, k))
    && (forall k: nat :: acknowledged <= k && k + 2 < held ==> Looks(job, k))
  }

  /** Acknowledged buckets from bucket `oldest` on are marked. */
  ghost predicate LinkInv(job: Job, held: nat, oldest: nat, acknowledged: nat, halves: Halves, exact: bool) {
    && acknowledged <= held <= job.Count() && oldest <= held <= oldest + 2 && Sized(job, halves)
    && (forall k: nat :: oldest <= k < held && k < acknowledged ==> Marked(halves, k))
    && (exact ==> Intact(job, held, acknowledged, halves))
  }

  /** The sender fills bucket number `shipped`. */
  ghost predicate SenderInv(job: Job, p: Sender, halves: Halves, exact: bool) {
    && p.next <= |job.chunks| && false in halves && true in halves
    && (p.finished ==> p.closed)
    && var q := Pack(job.chunks, p.next, job.bucketSize);
       if p.closed then p.next == |job.chunks| && p.shipped == |q.full| + 1 && !p.blocked
       else if p.pristine && p.shipped > 0 then
         && p.next < |job.chunks| && q.offset + job.chunks[p.next].meta.chunkSize > job.bucketSize
         && p.shipped == |q.full| + 1 && p.offset == 0
         && (p.blocked ==> p.shipped >= 2)
       else
         && !p.blocked && p.offset == q.offset && p.shipped == |q.full|
         && |BytesOf(q.current)| == q.offset <= |halves[Odd(p.shipped)]|
         && (exact ==> halves[Odd(p.shipped)][..q.offset] == BytesOf(q.current))
         && (p.pristine ==> p.next == 0)
  }

  predicate MidBucket(p: Sender) {
    !p.closed && !(p.pristine && p.shipped > 0)
  }

  function Upstream(s: State, r: nat): (result: nat)
    requires r < |s.readers|
  {
    if r == 0 then s.sender.shipped else Announced(s.readers[r - 1])
  }

  function Held(s: State, r: nat): (result: nat)
    requires r < |s.readers|
  {
    if r == 0 then s.sender.shipped else |s.readers[r - 1].log|
  }

  /** The oldest bucket that a rank's halves still hold: two are kept, one while the sender refills. */
  function Oldest(s: State, r: nat): (result: nat)
    requires r < |s.readers|
  {
    var kept := if r == 0 && !s.sender.pristine && !s.sender.closed then 1 else 2;
    if Held(s, r) < kept then 0 else Held(s, r) - kept
  }

  function Downstream(s: State, r: nat): (result: Option<nat>)
    requires r < |s.readers|
  {
    if r + 1 < |s.readers| then Some(s.readers[r + 1].idx) else None
  }

  ghost predicate RankInv(job: Job, s: State, r: nat, exact: bool)
    requires Shaped(s) && r < |s.readers|
  {
    && ReaderInv(job, s.readers[r], Upstream(s, r), s.queues[r], Downstream(s, r), exact)
    && LinkInv(job, Held(s, r), Oldest(s, r), s.readers[r].idx, s.halves[r], exact)
  }

  /** A sender that fills a bucket has passed only buckets that are acknowledged or look so. */
  ghost predicate GateInv(job: Job, p: Sender, acknowledged: nat, exact: bool) {
    exact && !p.blocked && !p.closed ==> AllLook(job, acknowledged, p.shipped)
  }

  /** What every reachable state satisfies; `exact` adds what is true of the bytes in a harmless job. */
  ghost predicate Inv(job: Job, s: State, exact: bool) {
    && Shaped(s) && |s.readers| == job.readers > 0 && !s.failed
    && SenderInv(job, s.sender, s.halves[0], exact) && GateInv(job, s.sender, s.readers[0].idx, exact)
    && (forall r :: 0 <= r < |s.readers| ==> RankInv(job, s, r, exact))
    && Sized(job, s.halves[|s.readers|])
  }

  lemma PackBytes(job: Job, n: nat)
    requires WeightsFit(job) && n <= |job.chunks|
    ensures var q := Pack(job.chunks, n, job.bucketSize);
            |BytesOf(q.current)| == q.offset <= job.bucketSize
  {
    if n > 0 {
      PackBytes(job, n - 1);
      var p, q := Pack(job.chunks, n - 1, job.bucketSize), Pack(job.chunks, n, job.bucketSize);
      assert q.current[..|q.current| - 1] == if |q.full| == |p.full| then p.current else [];
    }
  }

  lemma {:induction false} BytesOfPrefix(a: seq<Chunk>, b: seq<Chunk>)
    requires a <= b
    ensures BytesOf(a) <= BytesOf(b)
  {
    if |a| < |b| {
      BytesOfPrefix(a, b[..|b| - 1]);
    } else {
      assert a == b;
    }
  }

  /** What is in the bucket being filled is where the whole bucket will have it. */
  lemma CurrentIsPrefix(job: Job, n: nat)
    requires n <= |job.chunks|
    ensures var q := Pack(job.chunks, n, job.bucketSize);
            |q.full| < job.Count() && BytesOf(q.current) <= job.Bytes(|q.full|)
  {
    PackGrows(job.chunks, n, |job.chunks|, job.bucketSize);
    var q := Pack(job.chunks, n, job.bucketSize);
    BytesOfPrefix(q.current, Buckets(job.chunks, job.bucketSize)[|q.full|]);
  }

  lemma BytesFit(job: Job, k: nat)
    requires WeightsFit(job) && k < job.Count()
    ensures |job.Bytes(k)| <= job.bucketSize
  {
    FullFits(job, |job.chunks|, k);
  }

  lemma {:induction false} FullFits(job: Job, n: nat, k: nat)
    requires WeightsFit(job) && n <= |job.chunks|
    requires var q := Pack(job.chunks, n, job.bucketSize); k <= |q.full|
    ensures var q := Pack(job.chunks, n, job.bucketSize); |BytesOf((q.full + [q.current])[k])| <= job.bucketSize
  {
    hide BytesOf;
    PackBytes(job, n);
    var q := Pack(job.chunks, n, job.bucketSize);
    if k < |q.full| {
      FullFits(job, n - 1, k);
    }
  }

  // ---- bytes over bytes -------------------------------------------------------------------------------------

  /** Bytes of `b` do not show in the part of the half that `a` occupies. */
  lemma AgreeingPut(buf: seq<Byte>, offset: nat, data: seq<Byte>, a: seq<Byte>, b: seq<Byte>)
    requires |a| <= |buf| && buf[..|a|] == a && Agree(a, b)
    requires offset + |data| <= |b| && b[offset..offset + |data|] == data
    ensures |PutAt(buf, offset, data)| == |buf| && PutAt(buf, offset, data)[..|a|] == a
  {
    var after := PutAt(buf, offset, data);
    forall p | 0 <= p < |a| ensures after[p] == a[p] {
      assert buf[..|a|][p] == a[p];
      if offset <= p < offset + |data| {
        assert b[offset..offset + |data|][p - offset] == b[p];
      }
    }
  }

  lemma OverlayIsPut(buf: seq<Byte>, data: seq<Byte>)
    ensures Overlay(buf, data) == PutAt(buf, 0, data)
  {
    if |data| <= |buf| {
      assert buf[..0] + data == data;
    }
  }

  lemma MagicSpares(buf: seq<Byte>, a: seq<Byte>)
    requires |a| <= |buf| && 4 <= |buf| && buf[..|a|] == a && LooksAcknowledged(a)
    ensures Overlay(buf, MAGIC)[..|a|] == a
  {
    var after := Overlay(buf, MAGIC);
    forall p | 0 <= p < |a| ensures after[p] == a[p] {
      assert buf[..|a|][p] == a[p];
    }
  }

  /** A half that begins with a bucket and shows the magic bytes gives that bucket away. */
  lemma ShownBucketLooks(job: Job, halves: Halves, k: nat)
    requires Whole(job, halves, k) && Marked(halves, k)
    ensures Looks(job, k)
  {
    var buf, b := halves[Odd(k)], job.Bytes(k);
    forall p | 0 <= p < 4 && p < |b| ensures b[p] == MAGIC[p] {
      assert buf[..|b|][p] == buf[..4][p];
    }
  }

  // ---- the sender's steps keep the invariant --------------------------------------------------------------

  lemma PutExtends(buf: seq<Byte>, offset: nat, data: seq<Byte>)
    requires offset + |data| <= |buf|
    ensures PutAt(buf, offset, data)[..offset + |data|] == buf[..offset] + data
    ensures PutAt(buf, offset, data)[offset..offset + |data|] == data && |PutAt(buf, offset, data)| == |buf|
  {
  }

  /** One chunk more: behind the current bucket, or as the first of the next. */
  lemma PackedChunk(job: Job, n: nat)
    requires WeightsFit(job) && n < |job.chunks|
    ensures var q, q', c := Pack(job.chunks, n, job.bucketSize), Pack(job.chunks, n + 1, job.bucketSize), job.chunks[n];
            && |BytesOf(q'.current)| == q'.offset <= job.bucketSize
            && (q.offset + c.meta.chunkSize > job.bucketSize ==>
                  |q'.full| == |q.full| + 1 && q'.offset == c.meta.chunkSize && BytesOf(q'.current) == c.data)
            && (q.offset + c.meta.chunkSize <= job.bucketSize ==>
                  && |q'.full| == |q.full| && q'.offset == q.offset + c.meta.chunkSize
                  && BytesOf(q'.current) == BytesOf(q.current) + c.data)
  {
    PackBytes(job, n + 1);
    var q, q' := Pack(job.chunks, n, job.bucketSize), Pack(job.chunks, n + 1, job.bucketSize);
    assert q'.current[..|q'.current| - 1] == if |q'.full| == |q.full| then q.current else [];
  }

  lemma PutKeepsSender(job: Job, p: Sender, halves: Halves, p': Sender, halves': Halves, exact: bool)
    requires WeightsFit(job) && SenderInv(job, p, halves, exact) && p.next < |job.chunks| && !p.blocked && !p.closed
    requires |halves[Odd(p.shipped)]| == job.bucketSize
    requires var c := job.chunks[p.next];
             && (p.offset + c.meta.chunkSize <= job.bucketSize || (p.pristine && p.shipped > 0))
             && p' == p.(next := p.next + 1, offset := p.offset + c.meta.chunkSize, pristine := false)
             && halves' == halves[Odd(p.shipped) := PutAt(halves[Odd(p.shipped)], p.offset, c.data)]
    ensures p'.offset <= job.bucketSize && SenderInv(job, p', halves', exact)
    ensures halves'[Odd(p.shipped)][p.offset..p'.offset] == job.chunks[p.next].data
  {
    hide Pack, BytesOf, PutAt, Odd;
    PackedChunk(job, p.next);
    PutExtends(halves[Odd(p.shipped)], p.offset, job.chunks[p.next].data);
  }

  /** What a sender in the middle of a bucket has written is the beginning of that bucket. */
  lemma FilledIsPrefix(job: Job, p: Sender, halves: Halves)
    requires SenderInv(job, p, halves, true) && MidBucket(p)
    ensures p.shipped < job.Count() && p.offset <= |job.Bytes(p.shipped)| && p.offset <= |halves[Odd(p.shipped)]|
    ensures halves[Odd(p.shipped)][..p.offset] == job.Bytes(p.shipped)[..p.offset]
  {
    hide Buckets, Odd;
    CurrentIsPrefix(job, p.next);
  }

  /** Bytes of bucket `held` go over what its half held before. */
  lemma PutKeepsIntact(
    job: Job, held: nat, acknowledged: nat, halves: Halves, halves': Halves, offset: nat, data: seq<Byte>)
    requires Intact(job, held, acknowledged, halves) && held < job.Count() && Odd(held) in halves
    requires AllLook(job, acknowledged, held) && Harmless(job)
    requires offset + |data| <= |job.Bytes(held)| && job.Bytes(held)[offset..offset + |data|] == data
    requires halves' == halves[Odd(held) := PutAt(halves[Odd(held)], offset, data)]
    ensures Intact(job, held, acknowledged, halves')
  {
    hide Harmless, AllLook, Looks;
    forall k: nat | acknowledged <= k < held ensures Whole(job, halves', k) {
      assert Whole(job, halves, k);
      if Odd(k) == Odd(held) {
        OvertakenIsHarmless(job, acknowledged, k, held);
        AgreeingPut(halves[Odd(k)], offset, data, job.Bytes(k), job.Bytes(held));
      }
    }
  }

  lemma PutKeepsLink(
    job: Job, held: nat, oldest: nat, oldest': nat, acknowledged: nat, halves: Halves, halves': Halves,
    offset: nat, data: seq<Byte>, exact: bool)
    requires LinkInv(job, held, oldest, acknowledged, halves, exact) && held < job.Count()
    requires exact ==> AllLook(job, acknowledged, held) && Harmless(job)
    requires exact ==> offset + |data| <= |job.Bytes(held)| && job.Bytes(held)[offset..offset + |data|] == data
    requires halves' == halves[Odd(held) := PutAt(halves[Odd(held)], offset, data)]
    requires oldest <= oldest' <= held <= oldest' + 1
    ensures LinkInv(job, held, oldest', acknowledged, halves', exact)
  {
    hide Harmless, AllLook, Intact, ShowsMagic;
    if exact {
      PutKeepsIntact(job, held, acknowledged, halves, halves', offset, data);
    }
    forall k: nat | oldest' <= k < held && k < acknowledged ensures Marked(halves', k) {
      Parity(k);
      assert k + 1 == held && Marked(halves, k);
    }
  }

  lemma OthersUnchanged(job: Job, s: State, s': State, r: nat, exact: bool)
    requires Shaped(s) && Shaped(s') && r < |s.readers| == |s'.readers| && RankInv(job, s, r, exact)
    requires s'.readers[r] == s.readers[r] && s'.queues[r] == s.queues[r] && s'.halves[r] == s.halves[r]
    requires Upstream(s', r) == Upstream(s, r) && Downstream(s', r) == Downstream(s, r)
    requires Held(s', r) == Held(s, r) && Oldest(s', r) == Oldest(s, r)
    ensures RankInv(job, s', r, exact)
  {
  }

  lemma SameSlice(a: seq<Byte>, b: seq<Byte>, from: nat, to: nat)
    requires from <= to <= |a| && to <= |b| && a[..to] == b[..to]
    ensures a[from..to] == b[from..to]
  {
    assert a[from..to] == a[..to][from..];
  }

  lemma ShippedBelowCount(job: Job, p: Sender, halves: Halves, exact: bool)
    requires SenderInv(job, p, halves, exact) && !p.closed
    ensures p.shipped < job.Count()
  {
    if p.next < |job.chunks| {
      FlushedBucket(job.chunks, p.next, job.bucketSize);
    }
    FullBucketsFit(job.chunks, p.next, job.bucketSize);
  }

  lemma PutKeepsInv(job: Job, s: State, exact: bool)
    requires WeightsFit(job) && Inv(job, s, exact) && PutStep(job, s).Some?
    requires exact ==> Harmless(job)
    ensures Inv(job, PutStep(job, s).value, exact)
  {
    hide ReaderInv, Pack, BytesOf, Harmless, AllLook;
    var p, s' := s.sender, PutStep(job, s).value;
    assert RankInv(job, s, 0, exact);
    assert !p.closed;
    PutKeepsSender(job, p, s.halves[0], s'.sender, s'.halves[0], exact);
    ShippedBelowCount(job, p, s.halves[0], exact);
    if exact {
      FilledIsPrefix(job, s'.sender, s'.halves[0]);
      SameSlice(s'.halves[0][Odd(p.shipped)], job.Bytes(p.shipped), p.offset, s'.sender.offset);
    }
    PutKeepsLink(job, p.shipped, Oldest(s, 0), Oldest(s', 0), s.readers[0].idx, s.halves[0], s'.halves[0],
                 p.offset, job.chunks[p.next].data, exact);
    forall r | 0 <= r < |s'.readers| ensures RankInv(job, s', r, exact) {
      if r > 0 {
        assert RankInv(job, s, r, exact);
        OthersUnchanged(job, s, s', r, exact);
      }
    }
  }

  lemma BlockedBucketExists(job: Job, p: Sender, halves: Halves, exact: bool)
    requires SenderInv(job, p, halves, exact) && p.blocked
    ensures 2 <= p.shipped < job.Count() && p.pristine && !p.closed
  {
    FlushedBucket(job.chunks, p.next, job.bucketSize);
  }

  /** Passing the half of bucket `n` - 2, acknowledged or not, passes one more bucket that looks acknowledged. */
  lemma PassedBucketLooks(job: Job, n: nat, oldest: nat, acknowledged: nat, halves: Halves, exact: bool)
    requires LinkInv(job, n, oldest, acknowledged, halves, exact) && n >= 2 && Marked(halves, n)
    ensures exact ==> AllLook(job, acknowledged, n)
  {
    if exact {
      forall k: nat | acknowledged <= k && k + 2 <= n ensures Looks(job, k) {
        if k + 2 == n {
          Parity(k);
          assert Whole(job, halves, k);
          ShownBucketLooks(job, halves, k);
        }
      }
    }
  }

  lemma UnblockKeepsInv(job: Job, s: State, exact: bool)
    requires WeightsFit(job) && Inv(job, s, exact) && UnblockStep(s).Some?
    ensures Inv(job, UnblockStep(s).value, exact)
  {
    hide ReaderInv, AllLook;
    var p, s' := s.sender, UnblockStep(s).value;
    assert RankInv(job, s, 0, exact);
    BlockedBucketExists(job, p, s.halves[0], exact);
    PassedBucketLooks(job, p.shipped, Oldest(s, 0), s.readers[0].idx, s.halves[0], exact);
    forall r | 0 <= r < |s'.readers| ensures RankInv(job, s', r, exact) {
      assert RankInv(job, s, r, exact);
      OthersUnchanged(job, s, s', r, exact);
    }
  }

  lemma AnnounceKeepsReader(
    job: Job, x: Reader, upstream: nat, upstream': nat, queue: seq<Info>, queue': seq<Info>, downstream: Option<nat>, exact: bool)
    requires ReaderInv(job, x, upstream, queue, downstream, exact) && upstream' == upstream + 1 <= job.Count()
    requires queue' == queue + [job.InfoOf(upstream)]
    ensures ReaderInv(job, x, upstream', queue', downstream, exact)
  {
    assert queue' == Infos(job, Popped(x), upstream');
  }

  /** The bucket just filled is announced. */
  lemma ShippedKeepsLink(
      job: Job, held: nat, held': nat, oldest: nat, oldest': nat, acknowledged: nat, halves: Halves, exact: bool)
    requires LinkInv(job, held, oldest, acknowledged, halves, exact) && held' == held + 1 <= job.Count()
    requires oldest <= oldest' <= held' <= oldest' + 2
    requires exact ==> AllLook(job, acknowledged, held) && Whole(job, halves, held)
    ensures LinkInv(job, held', oldest', acknowledged, halves, exact)
  {
  }

  /** Shipping and closing both announce the bucket just filled. */
  lemma AnnouncementKeepsInv(job: Job, s: State, s': State, isLast: bool, exact: bool)
    requires WeightsFit(job) && Inv(job, s, exact) && !s.sender.closed && !(s.sender.pristine && s.sender.shipped > 0)
    requires s'.sender.shipped == s.sender.shipped + 1 && (s'.sender.pristine || s'.sender.closed)
    requires s' == s.(sender := s'.sender, queues := Announce(s, isLast))
    requires SenderInv(job, s'.sender, s.halves[0], exact) && GateInv(job, s'.sender, s.readers[0].idx, exact)
    requires s.sender.shipped < job.Count() && isLast == (s.sender.shipped == job.Count() - 1)
    requires job.Bytes(s.sender.shipped) == BytesOf(Pack(job.chunks, s.sender.next, job.bucketSize).current)
    ensures Inv(job, s', exact)
  {
    hide Pack, BytesOf, Buckets, AllLook;
    assert RankInv(job, s, 0, exact);
    var p := s.sender;
    assert s.queues[0] + [job.InfoOf(p.shipped)] == s'.queues[0];
    AnnounceKeepsReader(job, s.readers[0], p.shipped, s'.sender.shipped, s.queues[0], s'.queues[0], Downstream(s, 0), exact);
    assert exact ==> Whole(job, s.halves[0], p.shipped);
    ShippedKeepsLink(job, p.shipped, s'.sender.shipped, Oldest(s, 0), Oldest(s', 0), s.readers[0].idx, s.halves[0], exact);
    forall r | 0 <= r < |s'.readers| ensures RankInv(job, s', r, exact) {
      if r > 0 {
        assert RankInv(job, s, r, exact);
        OthersUnchanged(job, s, s', r, exact);
      }
    }
  }

  /** Only the first two buckets are filled without waiting. */
  lemma FirstShipsFreely(job: Job, p: Sender, acknowledged: nat, exact: bool)
    requires p.blocked || p.closed || p.shipped <= 1
    ensures GateInv(job, p, acknowledged, exact)
  {
  }

  lemma ShipKeepsInv(job: Job, s: State, exact: bool)
    requires WeightsFit(job) && Inv(job, s, exact) && ShipStep(job, s).Some?
    ensures Inv(job, ShipStep(job, s).value, exact)
  {
    hide GateInv;
    FlushedBucket(job.chunks, s.sender.next, job.bucketSize);
    FirstShipsFreely(job, ShipStep(job, s).value.sender, s.readers[0].idx, exact);
    AnnouncementKeepsInv(job, s, ShipStep(job, s).value, false, exact);
  }

  lemma CloseKeepsInv(job: Job, s: State, exact: bool)
    requires WeightsFit(job) && Inv(job, s, exact) && CloseStep(job, s).Some?
    ensures Inv(job, CloseStep(job, s).value, exact)
  {
    AnnouncementKeepsInv(job, s, CloseStep(job, s).value, true, exact);
  }

  lemma FinishKeepsInv(job: Job, s: State, exact: bool)
    requires WeightsFit(job) && Inv(job, s, exact) && FinishStep(s).Some?
    ensures Inv(job, FinishStep(s).value, exact)
  {
    hide ReaderInv, LinkInv, AllLook;
    var s' := FinishStep(s).value;
    forall r | 0 <= r < |s'.readers| ensures RankInv(job, s', r, exact) {
      assert RankInv(job, s, r, exact);
      OthersUnchanged(job, s, s', r, exact);
    }
  }

  // ---- a reader's steps keep the invariant ------------------------------------------------------------------

  /** A step of reader `r` that moves no bytes and announces nothing. */
  lemma QuietStepKeepsInv(job: Job, s: State, s': State, r: nat, exact: bool)
    requires Inv(job, s, exact) && r < |s.readers| && |s'.readers| == |s.readers| && |s'.queues| == |s.queues|
    requires s' == s.(readers := s.readers[r := s'.readers[r]], queues := s.queues[r := s'.queues[r]])
    requires s'.readers[r].idx == s.readers[r].idx && s'.readers[r].log == s.readers[r].log
    requires Announced(s'.readers[r]) == Announced(s.readers[r])
    requires ReaderInv(job, s'.readers[r], Upstream(s, r), s'.queues[r], Downstream(s, r), exact)
    ensures Inv(job, s', exact)
  {
    hide SenderInv, LinkInv, ReaderInv, GateInv, Sized;
    forall k | 0 <= k < |s'.readers| ensures RankInv(job, s', k, exact) {
      assert RankInv(job, s, k, exact);
      if k != r {
        OthersUnchanged(job, s, s', k, exact);
      }
    }
  }

  lemma ReceiveKeepsReader(job: Job, s: State, s': State, r: nat, exact: bool)
    requires Inv(job, s, exact) && r < |s.readers| && ReceiveStep(s, r) == Some(s')
    ensures |s'.readers| == |s.readers| && |s'.queues| == |s.queues|
    ensures ReaderInv(job, s'.readers[r], Upstream(s, r), s'.queues[r], Downstream(s, r), exact)
  {
    hide SenderInv, LinkInv, Odd, GateInv;
    var x := s.readers[r];
    assert RankInv(job, s, r, exact);
    assert s'.queues[r] == Infos(job, x.idx + 1, Upstream(s, r));
  }

  lemma ReceiveKeepsInv(job: Job, s: State, r: nat, exact: bool)
    requires WeightsFit(job) && Inv(job, s, exact) && r < |s.readers| && ReceiveStep(s, r).Some?
    ensures Inv(job, ReceiveStep(s, r).value, exact)
  {
    hide SenderInv, LinkInv, ReaderInv, Odd, GateInv;
    var s' := ReceiveStep(s, r).value;
    ReceiveKeepsReader(job, s, s', r, exact);
    QuietStepKeepsInv(job, s, s', r, exact);
  }

  lemma ProceedKeepsReader(job: Job, s: State, r: nat, exact: bool)
    requires WeightsFit(job) && Inv(job, s, exact) && r < |s.readers| && ProceedStep(s, r).Some?
    ensures ReaderInv(job, s.readers[r].(phase := Copying), Upstream(s, r), s.queues[r], Downstream(s, r), exact)
  {
    hide SenderInv, LinkInv, ShowsMagic, Odd, GateInv, AllLook;
    assert RankInv(job, s, r, exact) && RankInv(job, s, r + 1, exact);
    assert Marked(s.halves[r + 1], s.readers[r].idx);
    PassedBucketLooks(job, s.readers[r].idx, Oldest(s, r + 1), s.readers[r + 1].idx, s.halves[r + 1], exact);
  }

  lemma ProceedKeepsInv(job: Job, s: State, r: nat, exact: bool)
    requires WeightsFit(job) && Inv(job, s, exact) && r < |s.readers| && ProceedStep(s, r).Some?
    ensures Inv(job, ProceedStep(s, r).value, exact)
  {
    hide SenderInv, LinkInv, ReaderInv, ShowsMagic, Odd, GateInv;
    ProceedKeepsReader(job, s, r, exact);
    QuietStepKeepsInv(job, s, ProceedStep(s, r).value, r, exact);
  }

  lemma HandKeepsInv(job: Job, s: State, r: nat, exact: bool)
    requires WeightsFit(job) && Inv(job, s, exact) && r < |s.readers| && HandStep(s, r).Some?
    ensures Inv(job, HandStep(s, r).value, exact)
  {
    hide SenderInv, LinkInv, GateInv, AllLook;
    assert RankInv(job, s, r, exact);
    QuietStepKeepsInv(job, s, HandStep(s, r).value, r, exact);
  }

  lemma HeldIsAhead(job: Job, s: State, r: nat, exact: bool)
    requires Inv(job, s, exact) && r < |s.readers|
    ensures Upstream(s, r) <= Held(s, r)
  {
    if r > 0 {
      assert RankInv(job, s, r - 1, exact);
    }
  }

  /** Nobody has heard of more buckets than the sender has announced. */
  lemma {:induction false} UpstreamAtMostShipped(job: Job, s: State, r: nat, exact: bool)
    requires Inv(job, s, exact) && r < |s.readers|
    ensures Upstream(s, r) <= s.sender.shipped
  {
    hide SenderInv, LinkInv, GateInv, AllLook;
    if r > 0 {
      UpstreamAtMostShipped(job, s, r - 1, exact);
      assert RankInv(job, s, r - 1, exact);
    }
  }

  /** The heart of the matter: what is copied for bucket number `idx` is bucket number `idx`. */
  lemma CopiesTheBucket(job: Job, s: State, r: nat)
    requires Inv(job, s, true) && r < |s.readers| && CopyStep(s, r).Some?
    ensures s.readers[r].idx < job.Count()
    ensures s.halves[r][s.readers[r].info.half][..s.readers[r].info.len] == job.Bytes(s.readers[r].idx)
  {
    var x := s.readers[r];
    assert RankInv(job, s, r, true);
    HeldIsAhead(job, s, r, true);
    assert Whole(job, s.halves[r], x.idx);
  }

  /** A reader's next log entry, which is its bucket if all is exact. */
  ghost predicate Copied(job: Job, s: State, s': State, r: nat, exact: bool)
    requires Shaped(s) && r < |s.readers|
  {
    && CopyStep(s, r) == Some(s') && Shaped(s') && s.readers[r].idx < job.Count()
    && (exact ==>
          s.halves[r][s.readers[r].info.half][..s.readers[r].info.len] == job.Bytes(s.readers[r].idx))
  }

  lemma CopierCopies(job: Job, s: State, s': State, r: nat, exact: bool)
    requires Inv(job, s, exact) && r < |s.readers| && CopyStep(s, r) == Some(s') && Shaped(s')
    ensures Copied(job, s, s', r, exact)
  {
    hide SenderInv, LinkInv, Odd, Overlay, GateInv;
    assert RankInv(job, s, r, exact);
    if exact {
      CopiesTheBucket(job, s, r);
    }
  }

  lemma CopierKept(job: Job, s: State, s': State, r: nat, exact: bool)
    requires Inv(job, s, exact) && r < |s.readers| && Copied(job, s, s', r, exact)
    ensures RankInv(job, s', r, exact)
  {
    hide SenderInv, LinkInv, Odd, Overlay, GateInv;
    assert RankInv(job, s, r, exact);
  }

  lemma CopyIsLocal(s: State, s': State, r: nat)
    requires Shaped(s) && r < |s.readers| && CopyStep(s, r) == Some(s')
    ensures Shaped(s') && s'.sender == s.sender && s'.queues == s.queues && s'.failed == s.failed
    ensures |s'.readers| == |s.readers| && |s'.halves| == |s.halves|
    ensures forall k :: 0 <= k < |s.readers| && k != r ==> s'.readers[k] == s.readers[k]
    ensures forall k :: 0 <= k < |s.halves| && k != r + 1 ==> s'.halves[k] == s.halves[k]
    ensures s'.readers[r].idx == s.readers[r].idx && Announced(s'.readers[r]) == Announced(s.readers[r])
    ensures |s'.halves[r + 1][false]| == |s.halves[r + 1][false]| && |s'.halves[r + 1][true]| == |s.halves[r + 1][true]|
  {
    hide Odd;
  }

  lemma CopyKeepsInv(job: Job, s: State, r: nat, exact: bool)
    requires WeightsFit(job) && Inv(job, s, exact) && r < |s.readers| && CopyStep(s, r).Some?
    requires exact ==> Harmless(job)
    ensures Inv(job, CopyStep(s, r).value, exact)
  {
    hide SenderInv, LinkInv, ReaderInv, CopyStep, GateInv, Harmless, Copied;
    var s' := CopyStep(s, r).value;
    CopyIsLocal(s, s', r);
    CopierCopies(job, s, s', r, exact);
    CopierKept(job, s, s', r, exact);
    if r + 1 < |s.readers| {
      CopiedBucketKept(job, s, s', r, exact);
    }
    forall k | 0 <= k < |s'.readers| ensures RankInv(job, s', k, exact) {
      if k != r && k != r + 1 {
        assert RankInv(job, s, k, exact);
        OthersUnchanged(job, s, s', k, exact);
      }
    }
  }

  lemma CopiedBucketKept(job: Job, s: State, s': State, r: nat, exact: bool)
    requires WeightsFit(job) && Inv(job, s, exact) && r + 1 < |s.readers| && Copied(job, s, s', r, exact)
    requires exact ==> Harmless(job)
    ensures RankInv(job, s', r + 1, exact)
  {
    hide SenderInv, Pack, Buckets, Harmless, AllLook, GateInv, Intact;
    var x := s.readers[r];
    assert RankInv(job, s, r, exact) && RankInv(job, s, r + 1, exact);
    CopyKeepsLink(job, x.idx, |s'.readers[r].log|, Oldest(s, r + 1), Oldest(s', r + 1), s.readers[r + 1].idx,
                  s.halves[r + 1], s'.halves[r + 1], s.halves[r][x.info.half][..x.info.len], exact);
  }

  /** Bucket number `held` is copied over whatever its half held before. */
  lemma CopyKeepsLink(
    job: Job, held: nat, held': nat, oldest: nat, oldest': nat, acknowledged: nat, halves: Halves, halves': Halves,
    data: seq<Byte>, exact: bool)
    requires WeightsFit(job) && LinkInv(job, held, oldest, acknowledged, halves, exact)
    requires held' == held + 1 <= job.Count() && oldest <= oldest' <= held <= oldest' + 1
    requires exact ==> Harmless(job) && AllLook(job, acknowledged, held) && data == job.Bytes(held)
    requires halves' == halves[Odd(held) := Overlay(halves[Odd(held)], data)]
    ensures LinkInv(job, held', oldest', acknowledged, halves', exact)
  {
    hide Harmless, Overlay, Intact, AllLook;
    OverlayIsPut(halves[Odd(held)], data);
    assert data[0..0 + |data|] == data;
    PutKeepsLink(job, held, oldest, oldest', acknowledged, halves, halves', 0, data, exact);
    if exact {
      BytesFit(job, held);
      PutExtends(halves[Odd(held)], 0, data);
      assert Whole(job, halves', held);
    }
    ShippedKeepsLink(job, held, held', oldest', oldest', acknowledged, halves', exact);
  }

  lemma RelayReaches(job: Job, s: State, s': State, r: nat, exact: bool)
    requires Inv(job, s, exact) && r + 1 < |s.readers| && RelayStep(s, r) == Some(s') && Shaped(s')
    ensures RankInv(job, s', r + 1, exact)
  {
    hide SenderInv, LinkInv, GateInv, AllLook;
    assert RankInv(job, s, r, exact) && RankInv(job, s, r + 1, exact);
    AnnounceKeepsReader(job, s.readers[r + 1], s.readers[r].idx, Upstream(s', r + 1), s.queues[r + 1],
                        s'.queues[r + 1], Downstream(s, r + 1), exact);
  }

  lemma RelayerKept(job: Job, s: State, s': State, r: nat, exact: bool)
    requires Inv(job, s, exact) && r < |s.readers| && RelayStep(s, r) == Some(s') && Shaped(s')
    ensures RankInv(job, s', r, exact)
  {
    hide SenderInv, LinkInv, GateInv, AllLook;
    assert RankInv(job, s, r, exact);
  }

  lemma RelayKeepsInv(job: Job, s: State, r: nat, exact: bool)
    requires WeightsFit(job) && Inv(job, s, exact) && r < |s.readers| && RelayStep(s, r).Some?
    ensures Inv(job, RelayStep(s, r).value, exact)
  {
    hide SenderInv, LinkInv, ReaderInv, Odd, GateInv;
    var s' := RelayStep(s, r).value;
    RelayerKept(job, s, s', r, exact);
    if r + 1 < |s.readers| {
      RelayReaches(job, s, s', r, exact);
    }
    forall k | 0 <= k < |s'.readers| ensures RankInv(job, s', k, exact) {
      if k != r && k != r + 1 {
        assert RankInv(job, s, k, exact);
        OthersUnchanged(job, s, s', k, exact);
      }
    }
  }

  /** The acknowledgement of a bucket spares the buckets that have overtaken it. */
  lemma AcknowledgeKeepsIntact(
    job: Job, held: nat, acknowledged: nat, acknowledged': nat, halves: Halves, halves': Halves)
    requires WeightsFit(job) && Intact(job, held, acknowledged, halves) && Sized(job, halves)
    requires acknowledged < held && acknowledged' == acknowledged + 1 && Harmless(job)
    requires halves' == halves[Odd(acknowledged) := Overlay(halves[Odd(acknowledged)], MAGIC)]
    ensures Intact(job, held, acknowledged', halves')
  {
    hide Harmless, Overlay;
    OverlayIsPut(halves[Odd(acknowledged)], MAGIC);
    forall k: nat | acknowledged' <= k < held ensures Whole(job, halves', k) {
      assert Whole(job, halves, k);
      if Odd(k) == Odd(acknowledged) {
        OvertakenIsHarmless(job, acknowledged, acknowledged, k);
        MagicSpares(halves[Odd(k)], job.Bytes(k));
      }
    }
  }

  lemma MagicShows(buf: seq<Byte>)
    requires |buf| >= 4
    ensures ShowsMagic(Overlay(buf, MAGIC)) && |Overlay(buf, MAGIC)| == |buf|
  {
    assert Overlay(buf, MAGIC)[..4] == MAGIC;
  }

  lemma AcknowledgeKeepsLink(
    job: Job, held: nat, oldest: nat, acknowledged: nat, acknowledged': nat, halves: Halves, halves': Halves, exact: bool)
    requires WeightsFit(job) && LinkInv(job, held, oldest, acknowledged, halves, exact)
    requires acknowledged < held && acknowledged' == acknowledged + 1 && (exact ==> Harmless(job))
    requires halves' == halves[Odd(acknowledged) := Overlay(halves[Odd(acknowledged)], MAGIC)]
    ensures LinkInv(job, held, oldest, acknowledged', halves', exact)
  {
    hide Harmless, Overlay, ShowsMagic, Intact;
    MagicShows(halves[Odd(acknowledged)]);
    if exact {
      AcknowledgeKeepsIntact(job, held, acknowledged, acknowledged', halves, halves');
    }
    forall k: nat | oldest <= k < held && k < acknowledged' ensures Marked(halves', k) {
      assert k < acknowledged ==> Marked(halves, k);
    }
  }

  lemma AcknowledgeKeepsSender(job: Job, p: Sender, acknowledged: nat, halves: Halves, halves': Halves, exact: bool)
    requires WeightsFit(job) && SenderInv(job, p, halves, exact) && Sized(job, halves) && GateInv(job, p, acknowledged, exact)
    requires acknowledged < p.shipped && (exact ==> Harmless(job))
    requires halves' == halves[Odd(acknowledged) := Overlay(halves[Odd(acknowledged)], MAGIC)]
    ensures SenderInv(job, p, halves', exact)
  {
    hide Harmless, AllLook, Overlay;
    OverlayIsPut(halves[Odd(acknowledged)], MAGIC);
    if exact && MidBucket(p) && Odd(acknowledged) == Odd(p.shipped) {
      var q := Pack(job.chunks, p.next, job.bucketSize);
      CurrentIsPrefix(job, p.next);
      OvertakenIsHarmless(job, acknowledged, acknowledged, p.shipped);
      MagicSpares(halves[Odd(p.shipped)], BytesOf(q.current));
    }
  }

  lemma AcknowledgerKept(job: Job, s: State, s': State, r: nat, exact: bool)
    requires WeightsFit(job) && Inv(job, s, exact) && r < |s.readers| && AcknowledgeStep(s, r) == Some(s') && Shaped(s')
    requires exact ==> Harmless(job)
    ensures RankInv(job, s', r, exact)
  {
    hide SenderInv, LinkInv, Overlay, Odd, Harmless, GateInv, AllLook;
    var x := s.readers[r];
    assert RankInv(job, s, r, exact);
    HeldIsAhead(job, s, r, exact);
    AcknowledgeKeepsLink(job, Held(s, r), Oldest(s, r), x.idx, s'.readers[r].idx, s.halves[r], s'.halves[r], exact);
  }

  lemma AcknowledgedSenderKept(job: Job, s: State, s': State, exact: bool)
    requires WeightsFit(job) && Inv(job, s, exact) && AcknowledgeStep(s, 0) == Some(s')
    requires exact ==> Harmless(job)
    ensures SenderInv(job, s'.sender, s'.halves[0], exact) && GateInv(job, s'.sender, s'.readers[0].idx, exact)
  {
    hide SenderInv, Overlay, Harmless, ShowsMagic, Whole, Marked;
    var x := s.readers[0];
    assert RankInv(job, s, 0, exact);
    AcknowledgeKeepsSender(job, s.sender, x.idx, s.halves[0], s'.halves[0], exact);
  }

  lemma AcknowledgedKept(job: Job, s: State, s': State, r: nat, exact: bool)
    requires Inv(job, s, exact) && 0 < r < |s.readers| && AcknowledgeStep(s, r) == Some(s') && Shaped(s')
    ensures RankInv(job, s', r - 1, exact)
  {
    hide SenderInv, LinkInv, GateInv;
    assert RankInv(job, s, r - 1, exact);
  }

  lemma AcknowledgeKeepsInv(job: Job, s: State, r: nat, exact: bool)
    requires WeightsFit(job) && Inv(job, s, exact) && r < |s.readers| && AcknowledgeStep(s, r).Some?
    requires exact ==> Harmless(job)
    ensures Inv(job, AcknowledgeStep(s, r).value, exact)
  {
    hide SenderInv, LinkInv, ReaderInv, Odd, Overlay, GateInv, Harmless;
    var s' := AcknowledgeStep(s, r).value;
    AcknowledgerKept(job, s, s', r, exact);
    if r == 0 {
      AcknowledgedSenderKept(job, s, s', exact);
    }
    if r > 0 {
      AcknowledgedKept(job, s, s', r, exact);
    }
    forall k | 0 <= k < |s'.readers| ensures RankInv(job, s', k, exact) {
      if k != r && k + 1 != r {
        assert RankInv(job, s, k, exact);
        OthersUnchanged(job, s, s', k, exact);
      }
    }
  }

  // ---- what every run guarantees ------------------------------------------------------------------------------

  /** Any contents of buffers of the right size. */
  ghost predicate AnyHalves(job: Job, halves: seq<Halves>) {
    |halves| == job.readers + 1 && forall r :: 0 <= r < |halves| ==> Sized(job, halves[r])
  }

  lemma InitHolds(job: Job, halves: seq<Halves>, exact: bool)
    requires WeightsFit(job) && AnyHalves(job, halves)
    ensures Inv(job, Init(job, halves), exact)
  {
    var s := Init(job, halves);
    assert Pack(job.chunks, 0, job.bucketSize) == Packing([], [], 0);
    forall r | 0 <= r < |s.readers| ensures RankInv(job, s, r, exact) {
      assert s.queues[r] == Infos(job, 0, 0);
    }
  }

  /** Every step of every rank keeps the invariant, that of the bytes included when the job is harmless. */
  lemma StepKeepsInv(job: Job, s: State, a: Action, exact: bool)
    requires WeightsFit(job) && Inv(job, s, exact) && Step(job, s, a).Some?
    requires exact ==> Harmless(job)
    ensures Inv(job, Step(job, s, a).value, exact)
  {
    hide SenderInv, RankInv, GateInv, Harmless, ShipStep, UnblockStep, PutStep, CloseStep, FinishStep, ReceiveStep,
      ProceedStep, CopyStep, RelayStep, HandStep, AcknowledgeStep;
    match a
    case Ship => ShipKeepsInv(job, s, exact);
    case Unblock => UnblockKeepsInv(job, s, exact);
    case Put => PutKeepsInv(job, s, exact);
    case Close => CloseKeepsInv(job, s, exact);
    case Finish => FinishKeepsInv(job, s, exact);
    case Receive(r) => ReceiveKeepsInv(job, s, r, exact);
    case Proceed(r) => ProceedKeepsInv(job, s, r, exact);
    case Copy(r) => CopyKeepsInv(job, s, r, exact);
    case Relay(r) => RelayKeepsInv(job, s, r, exact);
    case Hand(r) => HandKeepsInv(job, s, r, exact);
    case Acknowledge(r) => AcknowledgeKeepsInv(job, s, r, exact);
  }

  lemma {:induction false} RunKeepsInv(job: Job, halves: seq<Halves>, schedule: seq<Action>, exact: bool)
    requires WeightsFit(job) && (exact ==> Harmless(job))
    requires AnyHalves(job, halves) && Run(job, Init(job, halves), schedule).Some?
    ensures Inv(job, Run(job, Init(job, halves), schedule).value, exact)
  {
    hide Inv, Step, Init, Harmless;
    InitHolds(job, halves, exact);
    if schedule != [] {
      RunKeepsInv(job, halves, schedule[..|schedule| - 1], exact);
      var before := Run(job, Init(job, halves), schedule[..|schedule| - 1]).value;
      StepKeepsInv(job, before, schedule[|schedule| - 1], exact);
    }
  }

  /** What the rank has copied for bucket k is bucket k of rank 0. */
  ghost predicate ExactLog(job: Job, x: Reader) {
    |x.log| <= job.Count() && forall k :: 0 <= k < |x.log| ==> x.log[k] == job.Bytes(k)
  }

  ghost predicate Exact(job: Job, s: State) {
    !s.failed && forall r :: 0 <= r < |s.readers| ==> ExactLog(job, s.readers[r])
  }

  /** In a ring of any length, in every interleaving and whatever the buffers held before, every copy is exact
      and no assertion of the sender fails. */
  lemma TransfersAreExact(job: Job, halves: seq<Halves>, schedule: seq<Action>)
    requires WeightsFit(job) && Harmless(job)
    requires AnyHalves(job, halves) && Run(job, Init(job, halves), schedule).Some?
    ensures Exact(job, Run(job, Init(job, halves), schedule).value)
  {
    hide SenderInv, RankInv, ExactLog, Harmless;
    RunKeepsInv(job, halves, schedule, true);
    var s := Run(job, Init(job, halves), schedule).value;
    forall r | 0 <= r < |s.readers| ensures ExactLog(job, s.readers[r]) {
      LogIsExact(job, s, r);
    }
  }

  lemma LogIsExact(job: Job, s: State, r: nat)
    requires Inv(job, s, true) && r < |s.readers|
    ensures ExactLog(job, s.readers[r])
  {
    hide SenderInv, LinkInv, GateInv, AllLook;
    assert RankInv(job, s, r, true);
  }

  /** A half is written again only when the rank downstream has acknowledged every bucket it held: buckets
      number `shipped` - 2 and before at the sender, `idx` - 2 and before at a relaying rank. */
  ghost predicate RefillsSafely(job: Job, s: State) {
    && Shaped(s) && s.readers != []
    && (PutStep(job, s).Some? ==> s.sender.shipped <= s.readers[0].idx + 1)
    && forall r :: 0 <= r && r + 1 < |s.readers| && s.readers[r].phase == Copying ==>
         s.readers[r].idx <= s.readers[r + 1].idx + 1
  }

  /** No bucket whose half is used again can be taken for its own acknowledgement. */
  ghost predicate NothingLooks(job: Job) {
    forall k: nat :: k + 2 < job.Count() ==> !Looks(job, k)
  }

  lemma FirstLooks(job: Job, from: nat, to: nat)
    requires AllLook(job, from, to) && from + 2 <= to
    ensures Looks(job, from)
  {
  }

  lemma NothingPassed(job: Job, from: nat, to: nat)
    requires NothingLooks(job) && AllLook(job, from, to) && to < job.Count()
    ensures to <= from + 1
  {
    if from + 2 <= to {
      FirstLooks(job, from, to);
    }
  }

  lemma NothingLooksIsHarmless(job: Job)
    requires NothingLooks(job)
    ensures Harmless(job)
  {
    forall i: nat, j: nat | j < job.Count() ensures !Overtakes(job, j, i) {
      if Overtakes(job, j, i) {
        NothingPassed(job, i, j);
      }
    }
  }

  lemma RefillsAreSafe(job: Job, s: State)
    requires Inv(job, s, true) && NothingLooks(job)
    ensures RefillsSafely(job, s)
  {
    hide AllLook, LinkInv, NothingLooks;
    if PutStep(job, s).Some? {
      ShippedBelowCount(job, s.sender, s.halves[0], true);
      NothingPassed(job, s.readers[0].idx, s.sender.shipped);
    }
    forall r | 0 <= r && r + 1 < |s.readers| && s.readers[r].phase == Copying
      ensures s.readers[r].idx <= s.readers[r + 1].idx + 1
    {
      assert RankInv(job, s, r, true);
      NothingPassed(job, s.readers[r + 1].idx, s.readers[r].idx);
    }
  }

  // ---- no deadlock ---------------------------------------------------------------------------------------------

  ghost predicate Done(job: Job, s: State) {
    s.sender.finished && forall r :: 0 <= r < |s.readers| ==> s.readers[r].phase == Finished
  }

  ghost predicate ReaderMoves(s: State, r: nat)
    requires Shaped(s) && r < |s.readers|
  {
    || ReceiveStep(s, r).Some? || ProceedStep(s, r).Some? || CopyStep(s, r).Some?
    || RelayStep(s, r).Some? || HandStep(s, r).Some? || AcknowledgeStep(s, r).Some?
  }

  /** A reader that cannot move has acknowledged all that was announced to it, or awaits an acknowledgement. */
  lemma StuckReader(job: Job, s: State, r: nat)
    requires WeightsFit(job) && Inv(job, s, false) && r < |s.readers| && !ReaderMoves(s, r)
    ensures s.readers[r].phase == Blocked || s.readers[r].idx == Upstream(s, r)
    ensures s.readers[r].phase != Blocked ==> s.readers[r].phase in {Receiving, Finished}
  {
    var x := s.readers[r];
    assert RankInv(job, s, r, false);
    if x.phase == Copying {
      CopyMoves(job, s, r);
    }
  }

  lemma CopyMoves(job: Job, s: State, r: nat)
    requires WeightsFit(job) && Inv(job, s, false) && r < |s.readers| && s.readers[r].phase == Copying
    ensures CopyStep(s, r).Some?
  {
    assert RankInv(job, s, r, false);
    BytesFit(job, s.readers[r].idx);
  }

  lemma BlockedMoves(job: Job, s: State, r: nat)
    requires Inv(job, s, false) && r + 1 < |s.readers| && s.readers[r].phase == Blocked
    requires s.readers[r + 1].idx == Upstream(s, r + 1)
    ensures ProceedStep(s, r).Some?
  {
    var x := s.readers[r];
    assert RankInv(job, s, r, false) && RankInv(job, s, r + 1, false);
    var k: nat := x.idx - 2;
    Parity(k);
    AcknowledgedShows(job, Held(s, r + 1), Oldest(s, r + 1), s.readers[r + 1].idx, s.halves[r + 1], k);
  }

  /** An acknowledged bucket shows it. */
  lemma AcknowledgedShows(job: Job, held: nat, oldest: nat, acknowledged: nat, halves: Halves, k: nat)
    requires LinkInv(job, held, oldest, acknowledged, halves, false) && oldest <= k < held && k < acknowledged
    ensures ShowsMagic(halves[Odd(k)])
  {
    assert Marked(halves, k);
  }

  /** If no reader can move, then from the last rank up every reader has acknowledged all that was announced. */
  lemma {:induction false} StuckFromBelow(job: Job, s: State, r: nat)
    requires WeightsFit(job) && Inv(job, s, false) && r < |s.readers|
    requires forall k :: r <= k < |s.readers| ==> !ReaderMoves(s, k)
    ensures s.readers[r].idx == Upstream(s, r) && s.readers[r].phase in {Receiving, Finished}
    decreases |s.readers| - r
  {
    StuckReader(job, s, r);
    assert RankInv(job, s, r, false);
    if s.readers[r].phase == Blocked {
      StuckFromBelow(job, s, r + 1);
      BlockedMoves(job, s, r);
    }
  }

  lemma StuckSender(job: Job, s: State)
    requires WeightsFit(job) && Inv(job, s, false) && s.readers[0].idx == s.sender.shipped && !s.sender.finished
    ensures ShipStep(job, s).Some? || UnblockStep(s).Some? || PutStep(job, s).Some? || CloseStep(job, s).Some?
         || FinishStep(s).Some?
  {
    var p := s.sender;
    assert RankInv(job, s, 0, false);
    BlockedShipped(job, p, s.halves[0]);
    if p.blocked || p.closed {
      var k: nat := if p.blocked then p.shipped - 2 else p.shipped - 1;
      Parity(k);
      AcknowledgedShows(job, Held(s, 0), Oldest(s, 0), s.readers[0].idx, s.halves[0], k);
    }
  }

  lemma BlockedShipped(job: Job, p: Sender, halves: Halves)
    requires SenderInv(job, p, halves, false)
    ensures p.blocked ==> p.pristine && !p.closed && p.shipped >= 2
    ensures p.closed ==> p.shipped >= 1
  {
  }

  /** No reachable state is stuck before the sender is through and every reader has finished. */
  lemma NoDeadlock(job: Job, s: State)
    requires WeightsFit(job) && Inv(job, s, false) && !Done(job, s)
    ensures exists a :: Step(job, s, a).Some?
  {
    hide SenderInv, RankInv, ShipStep, UnblockStep, PutStep, CloseStep, FinishStep, ReceiveStep, ProceedStep, CopyStep,
      RelayStep, HandStep, AcknowledgeStep;
    if r: nat :| r < |s.readers| && ReaderMoves(s, r) {
      assert Step(job, s, Receive(r)).Some? || Step(job, s, Proceed(r)).Some? || Step(job, s, Copy(r)).Some?
          || Step(job, s, Relay(r)).Some? || Step(job, s, Hand(r)).Some? || Step(job, s, Acknowledge(r)).Some?;
    } else {
      AllCaughtUp(job, s);
      if !s.sender.finished {
        StuckSender(job, s);
        assert Step(job, s, Ship).Some? || Step(job, s, Unblock).Some? || Step(job, s, Put).Some?
            || Step(job, s, Close).Some? || Step(job, s, Finish).Some?;
      } else {
        FinishedMeansDone(job, s);
      }
    }
  }

  lemma AllCaughtUp(job: Job, s: State)
    requires WeightsFit(job) && Inv(job, s, false) && forall r: nat :: r < |s.readers| ==> !ReaderMoves(s, r)
    ensures s.readers[0].idx == s.sender.shipped
    ensures forall r :: 0 <= r < |s.readers| ==>
              s.readers[r].idx == Upstream(s, r) && s.readers[r].phase in {Receiving, Finished}
  {
    hide SenderInv, RankInv, ReaderMoves;
    forall r | 0 <= r < |s.readers|
      ensures s.readers[r].idx == Upstream(s, r) && s.readers[r].phase in {Receiving, Finished}
    {
      StuckFromBelow(job, s, r);
    }
  }

  lemma {:induction false} IdxPropagates(job: Job, s: State, r: nat)
    requires Inv(job, s, false) && r < |s.readers| && s.sender.shipped == job.Count()
    requires forall k :: 0 <= k < |s.readers| ==>
               s.readers[k].idx == Upstream(s, k) && s.readers[k].phase in {Receiving, Finished}
    ensures s.readers[r].phase == Finished
  {
    assert RankInv(job, s, r, false);
    if r > 0 {
      IdxPropagates(job, s, r - 1);
      assert RankInv(job, s, r - 1, false);
    }
  }

  lemma FinishedMeansDone(job: Job, s: State)
    requires Inv(job, s, false) && s.sender.finished
    requires forall k :: 0 <= k < |s.readers| ==>
               s.readers[k].idx == Upstream(s, k) && s.readers[k].phase in {Receiving, Finished}
    ensures Done(job, s)
  {
    ClosedShippedAll(job, s.sender, s.halves[0]);
    forall r | 0 <= r < |s.readers| ensures s.readers[r].phase == Finished {
      IdxPropagates(job, s, r);
    }
  }

  lemma ClosedShippedAll(job: Job, p: Sender, halves: Halves)
    requires SenderInv(job, p, halves, false)
    ensures p.finished ==> p.shipped == job.Count()
  {
  }

  // ---- runs end, and end with everything delivered ----------------------------------------------------------------

  function PhaseRank(p: Phase): (r: nat) {
    match p
    case Receiving => 0
    case Blocked => 1
    case Copying => 2
    case Relaying => 3
    case Yielding => 4
    case Acknowledging => 5
    case Finished => 0
  }

  function ReaderProgress(readers: seq<Reader>): (r: nat) {
    if readers == [] then 0
    else
      var x := readers[|readers| - 1];
      ReaderProgress(readers[..|readers| - 1]) + 6 * x.idx + PhaseRank(x.phase)
  }

  function Progress(s: State): (r: nat) {
    var p := s.sender;
    p.next + 2 * p.shipped + (if p.blocked then 0 else 1) + (if p.finished then 1 else 0) + ReaderProgress(s.readers)
  }

  lemma {:induction false} ProgressOfUpdate(readers: seq<Reader>, r: nat, x: Reader)
    requires r < |readers|
    requires 6 * x.idx + PhaseRank(x.phase) > 6 * readers[r].idx + PhaseRank(readers[r].phase)
    ensures ReaderProgress(readers[r := x]) > ReaderProgress(readers)
  {
    var n := |readers| - 1;
    if r == n {
      assert readers[r := x][..n] == readers[..n];
    } else {
      assert readers[r := x][..n] == readers[..n][r := x];
      ProgressOfUpdate(readers[..n], r, x);
    }
  }

  /** Every step makes progress. */
  lemma StepsProgress(job: Job, s: State, a: Action)
    requires Step(job, s, a).Some?
    ensures Progress(Step(job, s, a).value) > Progress(s)
  {
    hide Odd, Overlay, PutAt, ShowsMagic, Announce, ReaderProgress;
    var s' := Step(job, s, a).value;
    match a
    case Ship =>
    case Unblock =>
    case Put =>
    case Close =>
    case Finish =>
    case Receive(r) => ProgressOfUpdate(s.readers, r, s'.readers[r]);
    case Proceed(r) => ProgressOfUpdate(s.readers, r, s'.readers[r]);
    case Copy(r) => ProgressOfUpdate(s.readers, r, s'.readers[r]);
    case Relay(r) => ProgressOfUpdate(s.readers, r, s'.readers[r]);
    case Hand(r) => ProgressOfUpdate(s.readers, r, s'.readers[r]);
    case Acknowledge(r) => ProgressOfUpdate(s.readers, r, s'.readers[r]);
  }

  lemma {:induction false} ReaderProgressIsBounded(readers: seq<Reader>, most: nat)
    requires forall r :: 0 <= r < |readers| ==> readers[r].idx <= most
    ensures ReaderProgress(readers) <= |readers| * (6 * most + 5)
  {
    if readers != [] {
      var n := |readers| - 1;
      ReaderProgressIsBounded(readers[..n], most);
      assert |readers| * (6 * most + 5) == n * (6 * most + 5) + (6 * most + 5);
    }
  }

  function StepBound(job: Job): (r: nat) {
    |job.chunks| + 2 * job.Count() + 2 + job.readers * (6 * job.Count() + 5)
  }

  lemma ProgressIsBounded(job: Job, s: State)
    requires Inv(job, s, false)
    ensures Progress(s) <= StepBound(job)
  {
    hide SenderInv, ReaderProgress, RankInv;
    forall r | 0 <= r < |s.readers| ensures s.readers[r].idx <= job.Count() {
      IdxAtMostCount(job, s, r);
    }
    ReaderProgressIsBounded(s.readers, job.Count());
    ShippedAtMostCount(job, s);
  }

  lemma IdxAtMostCount(job: Job, s: State, r: nat)
    requires Inv(job, s, false) && r < |s.readers|
    ensures s.readers[r].idx <= job.Count()
  {
    assert RankInv(job, s, r, false);
  }

  lemma ShippedAtMostCount(job: Job, s: State)
    requires Inv(job, s, false)
    ensures s.sender.shipped <= job.Count() && s.sender.next <= |job.chunks|
  {
    assert RankInv(job, s, 0, false);
  }

  lemma {:induction false} RunLength(job: Job, s: State, schedule: seq<Action>)
    requires Run(job, s, schedule).Some?
    ensures Progress(Run(job, s, schedule).value) >= Progress(s) + |schedule|
  {
    hide Step, Progress;
    if schedule != [] {
      RunLength(job, s, schedule[..|schedule| - 1]);
      StepsProgress(job, Run(job, s, schedule[..|schedule| - 1]).value, schedule[|schedule| - 1]);
    }
  }

  /** No run goes on forever. */
  lemma RunsAreFinite(job: Job, halves: seq<Halves>, schedule: seq<Action>)
    requires WeightsFit(job) && AnyHalves(job, halves) && Run(job, Init(job, halves), schedule).Some?
    ensures |schedule| <= StepBound(job)
  {
    hide Inv, Progress, StepBound, Init;
    RunLength(job, Init(job, halves), schedule);
    RunKeepsInv(job, halves, schedule, false);
    ProgressIsBounded(job, Run(job, Init(job, halves), schedule).value);
  }

  lemma BytesSnoc(bucket: seq<Chunk>, c: Chunk)
    ensures BytesOf(bucket + [c]) == BytesOf(bucket) + c.data
  {
    assert (bucket + [c])[..|bucket|] == bucket;
  }

  lemma {:induction false} BytesConcat(a: seq<Chunk>, b: seq<Chunk>)
    ensures BytesOf(a + b) == BytesOf(a) + BytesOf(b)
  {
    if b == [] {
      assert a + b == a;
    } else {
      hide BytesOf;
      var n := |b| - 1;
      BytesConcat(a, b[..n]);
      assert a + b == (a + b[..n]) + [b[n]] && b == b[..n] + [b[n]];
      BytesSnoc(a + b[..n], b[n]);
      BytesSnoc(b[..n], b[n]);
    }
  }

  /** Where a chunk sits in its bucket does not show in its bytes. */
  lemma {:induction false} SameBytes(a: seq<Chunk>, b: seq<Chunk>)
    requires SameChunks(a, b)
    ensures BytesOf(a) == BytesOf(b)
  {
    if a != [] {
      var n := |a| - 1;
      SameBytes(a[..n], b[..n]);
      assert PlaceAt(a[n], 0) == PlaceAt(b[n], 0);
    }
  }

  lemma {:induction false} LogBytes(job: Job, log: seq<seq<Byte>>)
    requires |log| <= job.Count() && forall k :: 0 <= k < |log| ==> log[k] == job.Bytes(k)
    ensures Flatten(log) == BytesOf(Flatten(Buckets(job.chunks, job.bucketSize)[..|log|]))
  {
    if log != [] {
      var n, all := |log| - 1, Buckets(job.chunks, job.bucketSize);
      LogBytes(job, log[..n]);
      assert all[..|log|] == all[..n] + [all[n]];
      FlattenSnoc(all[..n], all[n]);
      BytesConcat(Flatten(all[..n]), all[n]);
    }
  }

  /** Every run of every job can be continued until the sender is through and every rank has finished, without an
      assertion failing: wrong bytes do not stop the transfer. */
  lemma StuckRunsAreDone(job: Job, halves: seq<Halves>, schedule: seq<Action>)
    requires WeightsFit(job) && AnyHalves(job, halves) && Run(job, Init(job, halves), schedule).Some?
    requires forall a :: Step(job, Run(job, Init(job, halves), schedule).value, a).None?
    ensures var s := Run(job, Init(job, halves), schedule).value;
            Done(job, s) && !s.failed && forall r :: 0 <= r < |s.readers| ==> |s.readers[r].log| == job.Count()
  {
    hide Step, Init, RankInv, SenderInv;
    var s := Run(job, Init(job, halves), schedule).value;
    RunKeepsInv(job, halves, schedule, false);
    if !Done(job, s) {
      NoDeadlock(job, s);
    }
    forall r | 0 <= r < |s.readers| ensures |s.readers[r].log| == job.Count() {
      FinishedCount(job, s, r);
    }
  }

  lemma FinishedCount(job: Job, s: State, r: nat)
    requires Inv(job, s, false) && r < |s.readers| && s.readers[r].phase == Finished
    ensures |s.readers[r].log| == job.Count()
  {
    assert RankInv(job, s, r, false);
  }

  /** When nothing can move any more, the sender is through and every rank has copied exactly the bytes of all
      weights, in order. */
  lemma EveryRankGetsAllBytes(job: Job, halves: seq<Halves>, schedule: seq<Action>)
    requires WeightsFit(job) && Harmless(job)
    requires AnyHalves(job, halves) && Run(job, Init(job, halves), schedule).Some?
    requires forall a :: Step(job, Run(job, Init(job, halves), schedule).value, a).None?
    ensures var s := Run(job, Init(job, halves), schedule).value;
            && Done(job, s)
            && forall r :: 0 <= r < |s.readers| ==> Flatten(s.readers[r].log) == BytesOf(job.chunks)
  {
    hide Step, Init, Harmless, ExactLog, Done;
    var s := Run(job, Init(job, halves), schedule).value;
    StuckRunsAreDone(job, halves, schedule);
    TransfersAreExact(job, halves, schedule);
    forall r | 0 <= r < |s.readers| ensures Flatten(s.readers[r].log) == BytesOf(job.chunks) {
      FullLog(job, s.readers[r]);
    }
  }

  lemma FullLog(job: Job, x: Reader)
    requires ExactLog(job, x) && |x.log| == job.Count()
    ensures Flatten(x.log) == BytesOf(job.chunks)
  {
    LogBytes(job, x.log);
    var all := Buckets(job.chunks, job.bucketSize);
    assert all[..|all|] == all;
    BucketsKeepChunks(job.chunks, job.bucketSize);
    SameBytes(Flatten(all), job.chunks);
  }

  // ---- why no reused bucket may begin with the magic bytes --------------------------------------------------------

  function FourBytes(b: Byte): (r: seq<Byte>) {
    [b, b, b, b]
  }

  /** Three weights of four bytes, each a bucket; the first is the magic sequence itself. */
  function MagicJob(): (r: Job) {
    Job([Chunk(Meta("a", 4, 0, 4, 0), MAGIC), Chunk(Meta("b", 4, 0, 4, 0), FourBytes(1)),
         Chunk(Meta("c", 4, 0, 4, 0), FourBytes(2))], 4, 1)
  }

  function ZeroHalves(): (r: seq<Halves>) {
    [map[false := FourBytes(0), true := FourBytes(0)], map[false := FourBytes(0), true := FourBytes(0)]]
  }

  lemma RunOneMore(job: Job, s: State, schedule: seq<Action>, mid: State, a: Action, next: State, longer: seq<Action>)
    requires Run(job, s, schedule) == Some(mid) && Step(job, mid, a) == Some(next) && longer == schedule + [a]
    ensures Run(job, s, longer) == Some(next)
  {
    assert longer[..|schedule|] == schedule;
  }

  /** One reader, and what matters of the state. */
  ghost predicate At(s: State, sender: Sender, reader: Reader, queue: seq<Info>, left: seq<Byte>, right: seq<Byte>) {
    && Shaped(s) && s.sender == sender
    && |s.readers| == 1 && s.readers[0] == reader && |s.queues| == 1 && s.queues[0] == queue
    && s.halves[0][false] == left && s.halves[0][true] == right
  }

  lemma MagicFirst() returns (s: State)
    ensures Run(MagicJob(), Init(MagicJob(), ZeroHalves()), [Put, Ship]) == Some(s)
    ensures At(s, Sender(1, 1, 0, true, false, false, false), Reader(0, Receiving, Info(false, 0, false), []),
               [Info(false, 4, false)], MAGIC, FourBytes(0))
  {
    var job, s0, x := MagicJob(), Init(MagicJob(), ZeroHalves()), Reader(0, Receiving, Info(false, 0, false), []);
    var s1 := PutStep(job, s0).value;
    assert At(s1, Sender(1, 0, 4, false, false, false, false), x, [], MAGIC, FourBytes(0));
    RunOneMore(job, s0, [], s0, Put, s1, [Put]);
    s := ShipStep(job, s1).value;
    RunOneMore(job, s0, [Put], s1, Ship, s, [Put, Ship]);
  }

  lemma MagicSecond() returns (s: State)
    ensures Run(MagicJob(), Init(MagicJob(), ZeroHalves()), [Put, Ship, Put, Ship]) == Some(s)
    ensures At(s, Sender(2, 2, 0, true, true, false, false), Reader(0, Receiving, Info(false, 0, false), []),
               [Info(false, 4, false), Info(true, 4, false)], MAGIC, FourBytes(1))
  {
    var job, s0, x := MagicJob(), Init(MagicJob(), ZeroHalves()), Reader(0, Receiving, Info(false, 0, false), []);
    var s2 := MagicFirst();
    var s3 := PutStep(job, s2).value;
    assert At(s3, Sender(2, 1, 4, false, false, false, false), x, [Info(false, 4, false)], MAGIC, FourBytes(1));
    RunOneMore(job, s0, [Put, Ship], s2, Put, s3, [Put, Ship, Put]);
    s := ShipStep(job, s3).value;
    RunOneMore(job, s0, [Put, Ship, Put], s3, Ship, s, [Put, Ship, Put, Ship]);
  }

  /** The half of bucket 0 begins with the magic bytes, so bucket 2 is written over it. */
  lemma MagicThird() returns (s: State)
    ensures Run(MagicJob(), Init(MagicJob(), ZeroHalves()), [Put, Ship, Put, Ship, Unblock, Put]) == Some(s)
    ensures At(s, Sender(3, 2, 4, false, false, false, false), Reader(0, Receiving, Info(false, 0, false), []),
               [Info(false, 4, false), Info(true, 4, false)], FourBytes(2), FourBytes(1))
  {
    var job, s0, x := MagicJob(), Init(MagicJob(), ZeroHalves()), Reader(0, Receiving, Info(false, 0, false), []);
    var s4 := MagicSecond();
    var s5 := UnblockStep(s4).value;
    RunOneMore(job, s0, [Put, Ship, Put, Ship], s4, Unblock, s5, [Put, Ship, Put, Ship, Unblock]);
    s := PutStep(job, s5).value;
    RunOneMore(job, s0, [Put, Ship, Put, Ship, Unblock], s5, Put, s, [Put, Ship, Put, Ship, Unblock, Put]);
  }

  /** Without the condition on magic bytes the protocol is not exact: here the sender takes bucket 0 for
      acknowledged, overwrites it before it was read, and rank 1 copies bucket 2 in its place. */
  lemma MagicBucketIsLost()
    ensures exists schedule ::
              var end := Run(MagicJob(), Init(MagicJob(), ZeroHalves()), schedule);
              end.Some? && |end.value.readers| == 1 && end.value.readers[0].log == [FourBytes(2)]
    ensures MagicJob().Count() == 3 && MagicJob().Bytes(0) == MAGIC
  {
    hide Run, Buckets, Pack, BytesOf;
    var job, s0 := MagicJob(), Init(MagicJob(), ZeroHalves());
    var s6 := MagicThird();
    var s7 := ReceiveStep(s6, 0).value;
    RunOneMore(job, s0, [Put, Ship, Put, Ship, Unblock, Put], s6, Receive(0), s7,
               [Put, Ship, Put, Ship, Unblock, Put, Receive(0)]);
    var s8 := CopyStep(s7, 0).value;
    assert s7.halves[0][false][..4] == FourBytes(2);
    RunOneMore(job, s0, [Put, Ship, Put, Ship, Unblock, Put, Receive(0)], s7, Copy(0), s8,
               [Put, Ship, Put, Ship, Unblock, Put, Receive(0), Copy(0)]);
    MagicBuckets();
  }

  lemma MagicBuckets()
    ensures MagicJob().Count() == 3 && MagicJob().Bytes(0) == MAGIC
  {
    var chunks := MagicJob().chunks;
    var p1, p2, p3 := Pack(chunks, 1, 4), Pack(chunks, 2, 4), Pack(chunks, 3, 4);
    assert p1.full == [] && p2.full == [p1.current] && p3.full == [p1.current, p2.current];
    assert p1.current == [PlaceAt(chunks[0], 0)] && p1.current[..0] == [];
  }
}
