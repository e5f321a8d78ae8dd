// The broadcast weight transfer: one sender and any number of receivers, each with two buffers, whose
// steps interleave freely. A broadcast is a rendezvous: it happens when every rank has started it.

module NcclBroadcast {
  import opened Common
  import opened Pieces
  import opened WeightChunks
  import opened BucketPacking

  datatype Job = Job(chunks: seq<Chunk>, bucketSize: nat, ranks: nat) {
    function Count(): (r: nat) {
      |Buckets(chunks, bucketSize)|
    }
    function Bucket(k: nat): (r: seq<Chunk>)
      requires k < Count()
    {
      Buckets(chunks, bucketSize)[k]
    }
  }

  /** A started broadcast of the sender: which buffer it reads, and the metadata sent along. */
  datatype Sending = Sending(buf: bool, metas: seq<Meta>, isLast: bool)

  /** `next` chunks are consumed. `fill` names the buffer being filled; `flushed` says that the chunk at
      hand has just pushed out a full bucket; `closed` that the last broadcast was started. */
  datatype Sender = Sender(
    next: nat, fill: bool, metas: seq<Meta>, offset: nat, flushed: bool, closed: bool, started: nat, op: Sending,
    bufs: map<bool, seq<Byte>>)

  /** `target` names the buffer that broadcasts write (and the other one is yielded from). `opBuf` is the
      buffer of the last started broadcast, `inbox` what it delivered. `taken` broadcasts were awaited. */
  datatype Receiver = Receiver(
    started: nat, taken: nat, target: bool, opBuf: bool, inbox: (seq<Meta>, bool), metas: seq<Meta>, isLast: bool,
    yielded: nat, out: seq<Chunk>, bufs: map<bool, seq<Byte>>)

  /** `completed` broadcasts have happened; `failed` records a failed assertion of the sender. */
  datatype State = State(sender: Sender, receivers: seq<Receiver>, completed: nat, failed: bool)

  datatype Action =
    | Flush
    | Put
    | Close
    | Broadcast
    | Start(rank: nat)
    | Yield(rank: nat)
    | Take(rank: nat)

  function Zeros(n: nat): (r: seq<Byte>) {
    seq(n, i => 0 as Byte)
  }

  function FreshBufs(n: nat): (r: map<bool, seq<Byte>>) {
    map[false := Zeros(n), true := Zeros(n)]
  }

  function Init(job: Job): (result: State) {
    State(
      Sender(0, false, [], 0, false, false, 0, Sending(true, [], false), FreshBufs(job.bucketSize)),
      seq(job.ranks, r => Receiver(0, 0, false, true, ([], false), [], false, 0, [], FreshBufs(job.bucketSize))),
      0, false)
  }

  // ---- steps ----------------------------------------------------------------------------------------

  function WriteInto(buf: seq<Byte>, offset: nat, data: seq<Byte>): (r: seq<Byte>) {
    if offset + |data| <= |buf| then buf[..offset] + data + buf[offset + |data|..] else buf
  }

  function ReadFrom(buf: seq<Byte>, offset: nat, size: nat): (r: seq<Byte>) {
    if offset + size <= |buf| then buf[offset..offset + size] else []
  }

  predicate HasMeta(name: string, metas: seq<Meta>) {
    exists i :: 0 <= i < |metas| && metas[i].name == name
  }

  ghost predicate TwoBufs(bufs: map<bool, seq<Byte>>, n: nat) {
    && false in bufs && true in bufs
    && |bufs[false]| == n && |bufs[true]| == n
  }

  /** Starting a broadcast of the filled buffer, once the previous one is over. */
  function StartSending(s: Sender, isLast: bool): (r: Sender) {
    s.(started := s.started + 1, op := Sending(s.fill, s.metas, isLast))
  }

  function FlushStep(job: Job, s: State): (r: Option<State>) {
    var p := s.sender;
    if p.next < |job.chunks| && !p.flushed && p.started == s.completed
       && p.offset + job.chunks[p.next].meta.chunkSize > job.bucketSize
    then
      Some(s.(sender := StartSending(p, false).(fill := !p.fill, metas := [], offset := 0, flushed := true)))
    else None
  }

  function PutStep(job: Job, s: State): (r: Option<State>) {
    var p := s.sender;
    if p.next < |job.chunks| && p.fill in p.bufs
       && (p.flushed || p.offset + job.chunks[p.next].meta.chunkSize <= job.bucketSize)
    then
      var c := job.chunks[p.next];
      var fine := p.offset + c.meta.chunkSize <= job.bucketSize && !HasMeta(c.meta.name, p.metas);
      Some(s.(failed := s.failed || !fine,
              sender := p.(next := p.next + 1, flushed := false, metas := p.metas + [c.meta.(offset := p.offset)],
                           offset := p.offset + c.meta.chunkSize,
                           bufs := p.bufs[p.fill := WriteInto(p.bufs[p.fill], p.offset, c.data)])))
    else None
  }

  function CloseStep(job: Job, s: State): (r: Option<State>) {
    var p := s.sender;
    if p.next == |job.chunks| && !p.closed && p.started == s.completed
    then Some(s.(sender := StartSending(p, true).(closed := true)))
    else None
  }

  function Receive(r: Receiver, op: Sending, bytes: seq<Byte>): (result: Receiver) {
    r.(bufs := r.bufs[r.opBuf := bytes], inbox := (op.metas, op.isLast))
  }

  function BroadcastStep(s: State): (result: Option<State>) {
    var p := s.sender;
    if p.started == s.completed + 1 && p.op.buf in p.bufs
       && forall r :: 0 <= r < |s.receivers| ==> s.receivers[r].started == s.completed + 1
    then
      Some(s.(completed := s.completed + 1,
              receivers := seq(|s.receivers|, r requires 0 <= r < |s.receivers| =>
                Receive(s.receivers[r], p.op, p.bufs[p.op.buf]))))
    else None
  }

  function StartStep(r: Receiver): (result: Option<Receiver>) {
    if r.started == r.taken && (r.taken == 0 || !r.isLast)
    then Some(r.(started := r.started + 1, opBuf := r.target))
    else None
  }

  function YieldStep(r: Receiver): (result: Option<Receiver>) {
    if r.taken > 0 && r.yielded < |r.metas| && (r.isLast || r.started == r.taken + 1) && !r.target in r.bufs
    then
      var m := r.metas[r.yielded];
      Some(r.(out := r.out + [Chunk(m, ReadFrom(r.bufs[!r.target], m.offset, m.chunkSize))], yielded := r.yielded + 1))
    else None
  }

  function TakeStep(r: Receiver, completed: nat): (result: Option<Receiver>) {
    if r.started == r.taken + 1 && completed >= r.started && (r.taken == 0 || r.yielded == |r.metas|)
    then
      Some(r.(taken := r.taken + 1, metas := r.inbox.0, isLast := r.inbox.1, target := !r.target, yielded := 0))
    else None
  }

  function WithReceiver(s: State, k: nat, r: Option<Receiver>): (result: Option<State>)
    requires k < |s.receivers|
  {
    if r.None? then None else Some(s.(receivers := s.receivers[k := r.value]))
  }

  function Step(job: Job, s: State, a: Action): (r: Option<State>) {
    match a
    case Flush => FlushStep(job, s)
    case Put => PutStep(job, s)
    case Close => CloseStep(job, s)
    case Broadcast => BroadcastStep(s)
    case Start(k) => if k < |s.receivers| then WithReceiver(s, k, StartStep(s.receivers[k])) else None
    case Yield(k) => if k < |s.receivers| then WithReceiver(s, k, YieldStep(s.receivers[k])) else None
    case Take(k) => if k < |s.receivers| then WithReceiver(s, k, TakeStep(s.receivers[k], s.completed)) else None
  }

  /** The state after a schedule, None if some action of it was not enabled. */
  function Run(job: Job, s: State, schedule: seq<Action>): (r: Option<State>) {
    if schedule == [] then Some(s)
    else
      var before := Run(job, s, schedule[..|schedule| - 1]);
      if before.None? then None else Step(job, before.value, schedule[|schedule| - 1])
  }

  // ---- the invariant --------------------------------------------------------------------------------

  function MetasOf(bucket: seq<Chunk>): (r: seq<Meta>)
    ensures |r| == |bucket| && forall i :: 0 <= i < |r| ==> r[i] == bucket[i].meta
  {
    seq(|bucket|, i requires 0 <= i < |bucket| => bucket[i].meta)
  }

  /** The buffer has the bytes of every chunk of the bucket where the metadata says. */
  ghost predicate Holds(buf: seq<Byte>, bucket: seq<Chunk>) {
    forall i :: 0 <= i < |bucket| ==>
      && |bucket[i].data| == bucket[i].meta.chunkSize
      && bucket[i].meta.offset + |bucket[i].data| <= |buf|
      && ReadFrom(buf, bucket[i].meta.offset, |bucket[i].data|) == bucket[i].data
  }

  /** The bucket being filled is the one the packing says, and its bytes are in the filled buffer. */
  ghost predicate Filling(job: Job, p: Sender) {
    && p.next <= |job.chunks|
    && TwoBufs(p.bufs, job.bucketSize)
    && var q := Pack(job.chunks, p.next, job.bucketSize);
       if p.flushed then
         && p.next < |job.chunks| && q.offset + job.chunks[p.next].meta.chunkSize > job.bucketSize
         && p.started == |q.full| + 1 && p.metas == [] && p.offset == 0 && !p.closed
       else
         && p.metas == MetasOf(q.current) && p.offset == q.offset
         && Holds(p.bufs[p.fill], q.current)
         && p.started == |q.full| + (if p.closed then 1 else 0)
         && (p.closed ==> p.next == |job.chunks|)
  }

  /** A broadcast in flight carries bucket number `completed`, whole, from a buffer that is not being filled. */
  ghost predicate Flying(job: Job, p: Sender, completed: nat) {
    p.started == completed + 1 ==>
      && completed < job.Count()
      && p.op.metas == MetasOf(job.Bucket(completed))
      && p.op.isLast == (completed == job.Count() - 1)
      && p.op.buf in p.bufs && Holds(p.bufs[p.op.buf], job.Bucket(completed))
      && (p.closed || p.op.buf != p.fill)
  }

  ghost predicate SenderInv(job: Job, p: Sender, completed: nat) {
    completed <= p.started <= completed + 1 && Filling(job, p) && Flying(job, p, completed)
  }

  /** The receiver has yielded the taken buckets but the last, and a part of the last; its yield buffer holds
      that bucket, and its target buffer a bucket that was broadcast but not taken. */
  ghost predicate ReceiverInv(job: Job, r: Receiver, completed: nat) {
    && TwoBufs(r.bufs, job.bucketSize)
    && r.taken <= completed <= r.started <= r.taken + 1
    && r.started <= job.Count()
    && (r.started == r.taken + 1 ==> r.opBuf == r.target)
    && (if r.taken == 0 then r.out == [] && r.yielded == 0 && r.metas == []
        else
          var bucket := job.Bucket(r.taken - 1);
          && r.metas == MetasOf(bucket) && r.isLast == (r.taken == job.Count())
          && Holds(r.bufs[!r.target], bucket)
          && r.yielded <= |bucket|
          && r.out == Flatten(Buckets(job.chunks, job.bucketSize)[..r.taken - 1]) + bucket[..r.yielded])
    && (completed == r.taken + 1 ==>
          && completed <= job.Count()
          && r.inbox == (MetasOf(job.Bucket(r.taken)), completed == job.Count())
          && Holds(r.bufs[r.target], job.Bucket(r.taken)))
  }

  ghost predicate Inv(job: Job, s: State) {
    && !s.failed
    && SenderInv(job, s.sender, s.completed)
    && |s.receivers| == job.ranks
    && forall k :: 0 <= k < |s.receivers| ==> ReceiverInv(job, s.receivers[k], s.completed)
  }

  /** The jobs that the splitter produces from distinctly named weights. */
  ghost predicate Proper(job: Job) {
    && Fits(job.chunks, job.bucketSize)
    && forall i :: 0 <= i < |job.chunks| ==> FreshOrContinues(job.chunks, i, job.bucketSize)
  }

  lemma WriteKeeps(buf: seq<Byte>, offset: nat, data: seq<Byte>, from: nat, size: nat)
    requires offset + |data| <= |buf|
    ensures |WriteInto(buf, offset, data)| == |buf|
    ensures ReadFrom(WriteInto(buf, offset, data), offset, |data|) == data
    ensures from + size <= offset ==> ReadFrom(WriteInto(buf, offset, data), from, size) == ReadFrom(buf, from, size)
  {
    var w := WriteInto(buf, offset, data);
    assert w[offset..offset + |data|] == data;
    if from + size <= offset {
      assert w[from..from + size] == buf[from..from + size];
    }
  }

  /** Writing a chunk behind a laid out bucket keeps the bucket and adds the chunk. */
  lemma PutHolds(buf: seq<Byte>, bucket: seq<Chunk>, offset: nat, c: Chunk, buf': seq<Byte>, bucket': seq<Chunk>)
    requires Holds(buf, bucket) && offset + |c.data| <= |buf| && |c.data| == c.meta.chunkSize
    requires forall i :: 0 <= i < |bucket| ==> bucket[i].meta.offset + |bucket[i].data| <= offset
    requires buf' == WriteInto(buf, offset, c.data) && bucket' == bucket + [PlaceAt(c, offset)]
    ensures |buf'| == |buf| && Holds(buf', bucket')
  {
    WriteKeeps(buf, offset, c.data, 0, 0);
    forall i | 0 <= i < |bucket|
      ensures ReadFrom(buf', bucket[i].meta.offset, |bucket[i].data|) == bucket[i].data
    {
      WriteKeeps(buf, offset, c.data, bucket[i].meta.offset, |bucket[i].data|);
    }
  }

  lemma PutKeepsFilling(job: Job, p: Sender, p': Sender, c: Chunk)
    requires Proper(job) && p.next < |job.chunks| && c == job.chunks[p.next] && Filling(job, p) && !p.closed
    requires p.flushed || p.offset + c.meta.chunkSize <= job.bucketSize
    requires p' == p.(next := p.next + 1, flushed := false, metas := p.metas + [c.meta.(offset := p.offset)],
                      offset := p.offset + c.meta.chunkSize,
                      bufs := p.bufs[p.fill := WriteInto(p.bufs[p.fill], p.offset, c.data)])
    ensures Filling(job, p') && p.offset + c.meta.chunkSize <= job.bucketSize && !HasMeta(c.meta.name, p.metas)
  {
    var q, q' := Pack(job.chunks, p.next, job.bucketSize), Pack(job.chunks, p.next + 1, job.bucketSize);
    PackIsLaid(job.chunks, p.next, job.bucketSize);
    var bucket := if p.flushed then [] else q.current;
    assert q'.current == bucket + [PlaceAt(c, p.offset)];
    PutHolds(p.bufs[p.fill], bucket, p.offset, c, p'.bufs[p.fill], q'.current);
    assert p'.metas == MetasOf(q'.current);
    if !p.flushed {
      NoNameTwice(job.chunks, p.next, job.bucketSize);
      assert forall i :: 0 <= i < |p.metas| ==> p.metas[i].name == q.current[i].meta.name;
    }
  }

  lemma PutKeepsInv(job: Job, s: State)
    requires Proper(job) && Inv(job, s) && PutStep(job, s).Some?
    ensures Inv(job, PutStep(job, s).value)
  {
    var p, s' := s.sender, PutStep(job, s).value;
    PutKeepsFilling(job, p, s'.sender, job.chunks[p.next]);
    assert p.started == s.completed + 1 ==> p.op.buf != p.fill;
  }

  lemma FlushKeepsInv(job: Job, s: State)
    requires Proper(job) && Inv(job, s) && FlushStep(job, s).Some?
    ensures Inv(job, FlushStep(job, s).value)
  {
    FlushedBucket(job.chunks, s.sender.next, job.bucketSize);
  }

  lemma CloseKeepsInv(job: Job, s: State)
    requires Proper(job) && Inv(job, s) && CloseStep(job, s).Some?
    ensures Inv(job, CloseStep(job, s).value)
  {
    var q := Pack(job.chunks, |job.chunks|, job.bucketSize);
    assert job.Bucket(|q.full|) == q.current;
  }

  lemma StartedAtMostCount(job: Job, p: Sender, completed: nat)
    requires SenderInv(job, p, completed)
    ensures p.started <= job.Count()
  {
    FullBucketsFit(job.chunks, p.next, job.bucketSize);
    if p.flushed {
      FlushedBucket(job.chunks, p.next, job.bucketSize);
    }
  }

  lemma BroadcastKeepsInv(job: Job, s: State)
    requires Proper(job) && Inv(job, s) && BroadcastStep(s).Some?
    ensures Inv(job, BroadcastStep(s).value)
  {
    var s' := BroadcastStep(s).value;
    StartedAtMostCount(job, s.sender, s.completed);
    forall k | 0 <= k < |s'.receivers| ensures ReceiverInv(job, s'.receivers[k], s'.completed) {
      ReceiveKeepsInv(job, s.sender, s.receivers[k], s.completed);
    }
  }

  lemma ReceiveKeepsInv(job: Job, p: Sender, r: Receiver, completed: nat)
    requires SenderInv(job, p, completed) && ReceiverInv(job, r, completed)
    requires p.started == completed + 1 == r.started && p.op.buf in p.bufs
    ensures ReceiverInv(job, Receive(r, p.op, p.bufs[p.op.buf]), completed + 1)
  {
    assert |p.bufs[p.op.buf]| == job.bucketSize;
  }

  lemma StartKeepsInv(job: Job, r: Receiver, completed: nat)
    requires ReceiverInv(job, r, completed) && StartStep(r).Some?
    ensures ReceiverInv(job, StartStep(r).value, completed)
  {
  }

  lemma YieldKeepsInv(job: Job, r: Receiver, completed: nat)
    requires ReceiverInv(job, r, completed) && YieldStep(r).Some?
    ensures ReceiverInv(job, YieldStep(r).value, completed)
  {
    var bucket := job.Bucket(r.taken - 1);
    assert YieldStep(r).value.out == r.out + [bucket[r.yielded]];
    assert bucket[..r.yielded + 1] == bucket[..r.yielded] + [bucket[r.yielded]];
  }

  lemma TakeKeepsInv(job: Job, r: Receiver, completed: nat)
    requires ReceiverInv(job, r, completed) && TakeStep(r, completed).Some?
    ensures ReceiverInv(job, TakeStep(r, completed).value, completed)
  {
    var all, r' := Buckets(job.chunks, job.bucketSize), TakeStep(r, completed).value;
    if r.taken > 0 {
      var bucket := job.Bucket(r.taken - 1);
      assert all[..r.taken][..r.taken - 1] == all[..r.taken - 1] && all[..r.taken][r.taken - 1] == bucket;
      assert bucket[..r.yielded] == bucket;
    }
    assert job.Bucket(r.taken)[..0] == [];
    assert r'.out == Flatten(all[..r'.taken - 1]) + job.Bucket(r'.taken - 1)[..0];
  }

  lemma InitHolds(job: Job)
    requires Proper(job)
    ensures Inv(job, Init(job))
  {
    assert Pack(job.chunks, 0, job.bucketSize) == Packing([], [], 0);
    assert MetasOf([]) == [];
  }

  /** Every step of every rank keeps the invariant. */
  lemma StepKeepsInv(job: Job, s: State, a: Action)
    requires Proper(job) && Inv(job, s) && Step(job, s, a).Some?
    ensures Inv(job, Step(job, s, a).value)
  {
    hide SenderInv, ReceiverInv;
    match a
    case Flush => FlushKeepsInv(job, s);
    case Put => PutKeepsInv(job, s);
    case Close => CloseKeepsInv(job, s);
    case Broadcast => BroadcastKeepsInv(job, s);
    case Start(k) => StartKeepsInv(job, s.receivers[k], s.completed);
    case Yield(k) => YieldKeepsInv(job, s.receivers[k], s.completed);
    case Take(k) => TakeKeepsInv(job, s.receivers[k], s.completed);
  }

  lemma {:induction false} RunKeepsInv(job: Job, schedule: seq<Action>)
    requires Proper(job) && Run(job, Init(job), schedule).Some?
    ensures Inv(job, Run(job, Init(job), schedule).value)
  {
    InitHolds(job);
    if schedule != [] {
      RunKeepsInv(job, schedule[..|schedule| - 1]);
      var before := Run(job, Init(job), schedule[..|schedule| - 1]).value;
      StepKeepsInv(job, before, schedule[|schedule| - 1]);
    }
  }

  // ---- what every run guarantees ------------------------------------------------------------------------

  /** A transfer of distinctly named weights. */
  function JobFor(weights: seq<Tensor>, bucketSize: nat, ranks: nat): (r: Job)
    requires bucketSize > 0
  {
    Job(ChunksOf(weights, bucketSize), bucketSize, ranks)
  }

  lemma JobIsProper(weights: seq<Tensor>, bucketSize: nat, ranks: nat)
    requires bucketSize > 0 && DistinctNames(weights)
    ensures Proper(JobFor(weights, bucketSize, ranks))
  {
    ChunksFit(weights, bucketSize);
    forall i | 0 <= i < |ChunksOf(weights, bucketSize)|
      ensures FreshOrContinues(ChunksOf(weights, bucketSize), i, bucketSize)
    {
      ChunksAreFreshOrContinue(weights, bucketSize, i);
    }
  }

  /** In every reachable state: no sender assertion has failed; a buffer about to be written is not being
      broadcast; a buffer about to be yielded from is not being written by a broadcast; and no rank is more
      than one broadcast ahead of what has completed. */
  lemma BuffersAreSafe(job: Job, schedule: seq<Action>)
    requires Proper(job) && Run(job, Init(job), schedule).Some?
    ensures var s := Run(job, Init(job), schedule).value;
            && !s.failed
            && (PutStep(job, s).Some? && s.sender.started > s.completed ==> s.sender.op.buf != s.sender.fill)
            && (forall k :: 0 <= k < |s.receivers| ==>
                  var r := s.receivers[k];
                  && (YieldStep(r).Some? && r.started > s.completed ==> r.opBuf == r.target)
                  && s.completed <= r.started <= s.completed + 1)
            && s.completed <= s.sender.started <= s.completed + 1
  {
    RunKeepsInv(job, schedule);
  }

  /** The sender has sent its last bucket and every receiver has yielded everything. */
  ghost predicate Done(job: Job, s: State) {
    && s.sender.closed && s.sender.started == s.completed == job.Count()
    && forall k :: 0 <= k < |s.receivers| ==>
         s.receivers[k].taken == s.receivers[k].started == job.Count()
         && s.receivers[k].yielded == |s.receivers[k].metas|
  }

  ghost predicate ReceiverMoves(r: Receiver, completed: nat) {
    StartStep(r).Some? || YieldStep(r).Some? || TakeStep(r, completed).Some?
  }

  /** A receiver that cannot move has finished, or waits for a broadcast it has started. */
  lemma StuckReceiver(job: Job, r: Receiver, completed: nat)
    requires ReceiverInv(job, r, completed) && !ReceiverMoves(r, completed)
    ensures || (r.started == completed + 1 && completed < job.Count())
            || (r.taken == r.started == completed == job.Count() && r.yielded == |r.metas|)
  {
  }

  lemma SenderMoves(job: Job, p: Sender, s: State)
    requires Proper(job) && SenderInv(job, p, s.completed) && p == s.sender && p.started == s.completed
    ensures p.closed ==> s.completed == job.Count()
    ensures !p.closed ==> FlushStep(job, s).Some? || PutStep(job, s).Some? || CloseStep(job, s).Some?
  {
  }

  /** No reachable state is stuck before all is delivered. */
  lemma NoDeadlock(job: Job, s: State)
    requires Proper(job) && Inv(job, s) && !Done(job, s)
    ensures exists a :: Step(job, s, a).Some?
  {
    if k :| 0 <= k < |s.receivers| && ReceiverMoves(s.receivers[k], s.completed) {
      assert Step(job, s, Start(k)).Some? || Step(job, s, Yield(k)).Some? || Step(job, s, Take(k)).Some?;
    } else {
      forall k | 0 <= k < |s.receivers|
        ensures var r := s.receivers[k];
                || (r.started == s.completed + 1 && s.completed < job.Count())
                || (r.taken == r.started == s.completed == job.Count() && r.yielded == |r.metas|)
      {
        StuckReceiver(job, s.receivers[k], s.completed);
      }
      if s.sender.started == s.completed {
        SenderMoves(job, s.sender, s);
        assert Step(job, s, Flush).Some? || Step(job, s, Put).Some? || Step(job, s, Close).Some?;
      } else {
        StartedAtMostCount(job, s.sender, s.completed);
        assert Step(job, s, Broadcast).Some?;
      }
    }
  }

  function ReceiverProgress(receivers: seq<Receiver>): (result: nat) {
    if receivers == [] then 0
    else
      var r := receivers[|receivers| - 1];
      ReceiverProgress(receivers[..|receivers| - 1]) + r.started + r.taken + |r.out|
  }

  function Progress(s: State): (r: nat) {
    s.sender.next + s.sender.started + s.completed + ReceiverProgress(s.receivers)
  }

  lemma {:induction false} ProgressOfUpdate(receivers: seq<Receiver>, k: nat, r: Receiver)
    requires k < |receivers|
    requires r.started + r.taken + |r.out| == receivers[k].started + receivers[k].taken + |receivers[k].out| + 1
    ensures ReceiverProgress(receivers[k := r]) == ReceiverProgress(receivers) + 1
  {
    var n := |receivers| - 1;
    if k == n {
      assert receivers[k := r][..n] == receivers[..n];
    } else {
      assert receivers[k := r][..n] == receivers[..n][k := r];
      ProgressOfUpdate(receivers[..n], k, r);
    }
  }

  lemma {:induction false} ProgressOfReceive(a: seq<Receiver>, b: seq<Receiver>)
    requires |a| == |b|
    requires forall k :: 0 <= k < |a| ==> a[k].started == b[k].started && a[k].taken == b[k].taken && a[k].out == b[k].out
    ensures ReceiverProgress(a) == ReceiverProgress(b)
  {
    if a != [] {
      ProgressOfReceive(a[..|a| - 1], b[..|b| - 1]);
    }
  }

  /** Every step makes progress by one. */
  lemma StepsProgress(job: Job, s: State, a: Action)
    requires Step(job, s, a).Some?
    ensures Progress(Step(job, s, a).value) == Progress(s) + 1
  {
    match a
    case Flush =>
    case Put =>
    case Close =>
    case Broadcast => ProgressOfReceive(s.receivers, Step(job, s, a).value.receivers);
    case Start(k) => ProgressOfUpdate(s.receivers, k, StartStep(s.receivers[k]).value);
    case Yield(k) => ProgressOfUpdate(s.receivers, k, YieldStep(s.receivers[k]).value);
    case Take(k) => ProgressOfUpdate(s.receivers, k, TakeStep(s.receivers[k], s.completed).value);
  }

  /** What a receiver has yielded is a part of all chunks. */
  lemma YieldedIsPart(job: Job, r: Receiver, completed: nat)
    requires ReceiverInv(job, r, completed)
    ensures |r.out| <= |job.chunks|
    ensures r.taken == job.Count() && r.yielded == |r.metas| ==> SameChunks(r.out, job.chunks)
  {
    BucketsKeepChunks(job.chunks, job.bucketSize);
    if r.taken > 0 {
      var all := Buckets(job.chunks, job.bucketSize);
      FlattenPrefix(all, r.taken);
      assert all[..r.taken][..r.taken - 1] == all[..r.taken - 1];
      var bucket := job.Bucket(r.taken - 1);
      assert Flatten(all[..r.taken]) == Flatten(all[..r.taken - 1]) + bucket;
      if r.taken == job.Count() && r.yielded == |r.metas| {
        assert bucket[..r.yielded] == bucket && all[..r.taken] == all;
      }
    }
  }

  lemma {:induction false} FlattenPrefix(buckets: seq<seq<Chunk>>, n: nat)
    requires n <= |buckets|
    ensures |Flatten(buckets[..n])| <= |Flatten(buckets)|
  {
    if n < |buckets| {
      FlattenPrefix(buckets[..|buckets| - 1], n);
      assert buckets[..|buckets| - 1][..n] == buckets[..n];
    } else {
      assert buckets[..n] == buckets;
    }
  }

  function PerReceiver(job: Job): (r: nat) {
    2 * job.Count() + |job.chunks|
  }

  lemma OneReceiverIsBounded(job: Job, r: Receiver, completed: nat)
    requires ReceiverInv(job, r, completed)
    ensures r.started + r.taken + |r.out| <= PerReceiver(job)
  {
    YieldedIsPart(job, r, completed);
  }

  lemma {:induction false} ReceiverProgressIsBounded(receivers: seq<Receiver>, most: nat)
    requires forall k :: 0 <= k < |receivers| ==>
               receivers[k].started + receivers[k].taken + |receivers[k].out| <= most
    ensures ReceiverProgress(receivers) <= |receivers| * most
  {
    hide Buckets, Pack;
    if receivers != [] {
      var n := |receivers| - 1;
      ReceiverProgressIsBounded(receivers[..n], most);
      assert |receivers| * most == n * most + most;
    }
  }

  /** How many steps a transfer can take. */
  function StepBound(job: Job): (r: nat) {
    |job.chunks| + 2 * job.Count() + job.ranks * PerReceiver(job)
  }

  lemma ProgressIsBounded(job: Job, s: State)
    requires Inv(job, s)
    ensures Progress(s) <= StepBound(job)
  {
    hide PerReceiver, Buckets, Pack;
    StartedAtMostCount(job, s.sender, s.completed);
    forall k | 0 <= k < |s.receivers|
      ensures s.receivers[k].started + s.receivers[k].taken + |s.receivers[k].out| <= PerReceiver(job)
    {
      OneReceiverIsBounded(job, s.receivers[k], s.completed);
    }
    ReceiverProgressIsBounded(s.receivers, PerReceiver(job));
    CompletedAtMostCount(job, s);
  }

  lemma CompletedAtMostCount(job: Job, s: State)
    requires Inv(job, s)
    ensures s.completed <= job.Count() && s.sender.next <= |job.chunks|
  {
    StartedAtMostCount(job, s.sender, s.completed);
  }

  lemma {:induction false} RunLength(job: Job, schedule: seq<Action>)
    requires Run(job, Init(job), schedule).Some?
    ensures Progress(Run(job, Init(job), schedule).value) == Progress(Init(job)) + |schedule|
  {
    if schedule != [] {
      RunLength(job, schedule[..|schedule| - 1]);
      StepsProgress(job, Run(job, Init(job), schedule[..|schedule| - 1]).value, schedule[|schedule| - 1]);
    }
  }

  /** No run goes on forever: every schedule is at most `StepBound` steps long. */
  lemma RunsAreFinite(job: Job, schedule: seq<Action>)
    requires Proper(job) && Run(job, Init(job), schedule).Some?
    ensures |schedule| <= StepBound(job)
  {
    RunLength(job, schedule);
    RunKeepsInv(job, schedule);
    ProgressIsBounded(job, Run(job, Init(job), schedule).value);
  }

  /** Whatever the interleaving, when nothing can move any more every receiver's merge succeeds and returns
      the weights that were sent, in order and byte for byte (empty weights left out), and all ranks have
      started the same number of broadcasts. */
  lemma EveryReceiverGetsTheWeights(
    weights: seq<Tensor>, bucketSize: nat, ranks: nat, schedule: seq<Action>, memory: Memory)
    requires bucketSize > 0 && DistinctNames(weights)
    requires var job := JobFor(weights, bucketSize, ranks);
             && Run(job, Init(job), schedule).Some?
             && forall a :: Step(job, Run(job, Init(job), schedule).value, a).None?
    ensures var job := JobFor(weights, bucketSize, ranks);
            var s := Run(job, Init(job), schedule).value;
            && !s.failed && |s.receivers| == ranks
            && s.sender.started == s.completed == job.Count()
            && forall k :: 0 <= k < ranks ==>
                 && s.receivers[k].started == job.Count()
                 && MergeFrom(memory, MergeState([], None), s.receivers[k].out, bucketSize)
                    == Ok(MergeState(NonEmptyOnly(weights), None))
  {
    var job := JobFor(weights, bucketSize, ranks);
    var s := Run(job, Init(job), schedule).value;
    JobIsProper(weights, bucketSize, ranks);
    RunKeepsInv(job, schedule);
    if !Done(job, s) {
      NoDeadlock(job, s);
    }
    SplitMergeRoundTrip(memory, weights, bucketSize);
    forall k | 0 <= k < ranks
      ensures MergeFrom(memory, MergeState([], None), s.receivers[k].out, bucketSize)
           == Ok(MergeState(NonEmptyOnly(weights), None))
    {
      YieldedIsPart(job, s.receivers[k], s.completed);
      MergeIgnoresPlaces(memory, MergeState([], None), s.receivers[k].out, job.chunks, bucketSize);
    }
  }
}
