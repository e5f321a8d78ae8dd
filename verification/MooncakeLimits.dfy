// Exactly when the point-to-point transfer is safe. A schedule that drives the ring into the harm a bucket can
// do is built step by step; the invariant of MooncakeRing shows that nothing else can go wrong.

module MooncakeLimits {
  import opened Common
  import opened WeightChunks
  import opened BucketPacking
  import opened MooncakeRing

  // ---- building schedules -------------------------------------------------------------------------------------

  ghost predicate Reaches(job: Job, s: State, t: State) {
    exists schedule :: Run(job, s, schedule) == Some(t)
  }

  lemma {:induction false} RunConcat(job: Job, s: State, a: seq<Action>, mid: State, b: seq<Action>)
    requires Run(job, s, a) == Some(mid)
    ensures Run(job, s, a + b) == Run(job, mid, b)
  {
    hide Step;
    if b == [] {
      assert a + b == a;
    } else {
      var n := |b| - 1;
      assert (a + b)[..|a + b| - 1] == a + b[..n];
      RunConcat(job, s, a, mid, b[..n]);
    }
  }

  lemma Then(job: Job, s: State, mid: State, t: State)
    requires Reaches(job, s, mid) && Reaches(job, mid, t)
    ensures Reaches(job, s, t)
  {
    hide Run;
    var a :| Run(job, s, a) == Some(mid);
    var b :| Run(job, mid, b) == Some(t);
    RunConcat(job, s, a, mid, b);
  }

  lemma Stay(job: Job, s: State)
    ensures Reaches(job, s, s)
  {
    assert Run(job, s, []) == Some(s);
  }

  lemma OneStep(job: Job, s: State, a: Action, t: State)
    requires Step(job, s, a) == Some(t)
    ensures Reaches(job, s, t)
  {
    hide Step;
    RunOneMore(job, s, [], s, a, t, [a]);
  }

  /** What rank 0 and its reader, the readers' queue, and the halves of ranks 0 and 1 look like. */
  ghost predicate Ring(job: Job, s: State, p: Sender, x: Reader, queue: seq<Info>, own: Halves, next: Halves) {
    && Shaped(s) && |s.readers| == job.readers > 0 && !s.failed
    && s.sender == p && s.readers[0] == x && s.queues[0] == queue && s.halves[0] == own && s.halves[1] == next
  }

  ghost predicate Sending(job: Job, p: Sender, own: Halves) {
    SenderInv(job, p, own, true) && Sized(job, own) && !p.closed
  }

  /** Nothing more goes into the bucket being filled. */
  predicate Filled(job: Job, p: Sender) {
    && !(p.pristine && p.shipped > 0)
    && (p.next < |job.chunks| ==> p.offset + job.chunks[p.next].meta.chunkSize > job.bucketSize)
  }

  lemma LookingPut(buf: seq<Byte>, offset: nat, data: seq<Byte>, b: seq<Byte>)
    requires ShowsMagic(buf) && LooksAcknowledged(b)
    requires offset + |data| <= |b| && b[offset..offset + |data|] == data
    ensures ShowsMagic(PutAt(buf, offset, data))
  {
    var after := PutAt(buf, offset, data);
    forall p | 0 <= p < 4 ensures after[p] == MAGIC[p] {
      assert buf[..4][p] == buf[p];
      if offset <= p < offset + |data| {
        assert b[offset..offset + |data|][p - offset] == b[p];
      }
    }
  }

  /** One more weight goes into the half that is being filled. */
  lemma PutOne(job: Job, s: State, p: Sender, x: Reader, queue: seq<Info>, own: Halves, next: Halves)
    returns (t: State, p': Sender, own': Halves)
    requires WeightsFit(job) && Ring(job, s, p, x, queue, own, next) && Sending(job, p, own)
    requires !p.blocked && !Filled(job, p)
    ensures Reaches(job, s, t) && Ring(job, t, p', x, queue, own', next) && Sending(job, p', own')
    ensures p'.next == p.next + 1 <= |job.chunks| && p'.shipped == p.shipped && !p'.blocked && !p'.pristine
    ensures own'[!Odd(p.shipped)] == own[!Odd(p.shipped)]
    ensures Marked(own, p.shipped) && Looks(job, p.shipped) ==> Marked(own', p.shipped)
    ensures Inv(job, s, false) ==> Inv(job, t, false)
    ensures t.readers == s.readers && t.halves == s.halves[0 := own']
  {
    hide Inv, BytesOf, Pack, Looks;
    t := PutStep(job, s).value;
    p', own' := t.sender, t.halves[0];
    PutKeepsSender(job, p, own, p', own', true);
    FilledIsPrefix(job, p', own');
    SameSlice(own'[Odd(p.shipped)], job.Bytes(p.shipped), p.offset, p'.offset);
    if Marked(own, p.shipped) && Looks(job, p.shipped) {
      BucketLooks(job, p.shipped);
      LookingPut(own[Odd(p.shipped)], p.offset, job.chunks[p.next].data, job.Bytes(p.shipped));
    }
    if Inv(job, s, false) {
      PutKeepsInv(job, s, false);
    }
    assert Step(job, s, Put) == Some(t);
    OneStep(job, s, Put, t);
  }

  lemma BucketLooks(job: Job, k: nat)
    requires Looks(job, k)
    ensures k < job.Count() && LooksAcknowledged(job.Bytes(k))
  {
  }

  lemma {:induction false} FillBucket(
      job: Job, s: State, p: Sender, x: Reader, queue: seq<Info>, own: Halves, next: Halves)
    returns (t: State, p': Sender, own': Halves)
    requires WeightsFit(job) && Ring(job, s, p, x, queue, own, next) && Sending(job, p, own) && !p.blocked
    ensures Reaches(job, s, t) && Ring(job, t, p', x, queue, own', next) && Sending(job, p', own')
    ensures Filled(job, p') && p'.shipped == p.shipped && !p'.blocked
    ensures own'[!Odd(p.shipped)] == own[!Odd(p.shipped)]
    ensures Marked(own, p.shipped) && Looks(job, p.shipped) ==> Marked(own', p.shipped)
    ensures Inv(job, s, false) ==> Inv(job, t, false)
    ensures t.readers == s.readers && t.halves == s.halves[0 := own']
    decreases |job.chunks| - p.next
  {
    hide Inv, Looks, Marked, Reaches;
    if Filled(job, p) {
      t, p', own' := s, p, own;
      Stay(job, s);
    } else {
      var mid, q, half := PutOne(job, s, p, x, queue, own, next);
      t, p', own' := FillBucket(job, mid, q, x, queue, half, next);
      Then(job, s, mid, t);
    }
  }

  /** A filled bucket is a bucket of the job, and the last one when no weight is left. */
  lemma FilledIsWhole(job: Job, p: Sender, own: Halves)
    requires SenderInv(job, p, own, true) && !p.closed && Filled(job, p)
    ensures Whole(job, own, p.shipped) && p.offset == |job.Bytes(p.shipped)|
    ensures job.Bytes(p.shipped) == BytesOf(Pack(job.chunks, p.next, job.bucketSize).current)
    ensures p.next < |job.chunks| <==> p.shipped + 1 < job.Count()
  {
    if p.next < |job.chunks| {
      FlushedBucket(job.chunks, p.next, job.bucketSize);
    }
  }

  /** A filled bucket that is not the last is announced; from the second on, its successor awaits its half. */
  lemma ShipFilled(job: Job, s: State, p: Sender, x: Reader, queue: seq<Info>, own: Halves, next: Halves)
    returns (t: State, p': Sender)
    requires Ring(job, s, p, x, queue, own, next) && Sending(job, p, own) && !p.blocked
    requires Filled(job, p) && p.shipped + 1 < job.Count() && WeightsFit(job)
    ensures Reaches(job, s, t) && Ring(job, t, p', x, queue + [job.InfoOf(p.shipped)], own, next) && Sending(job, p', own)
    ensures p' == p.(shipped := p.shipped + 1, offset := 0, pristine := true, blocked := p.shipped > 0)
    ensures Inv(job, s, false) ==> Inv(job, t, false)
    ensures t.readers == s.readers && t.halves == s.halves
  {
    hide Inv, BytesOf, Pack;
    FilledIsWhole(job, p, own);
    FlushedBucket(job.chunks, p.next, job.bucketSize);
    t := ShipStep(job, s).value;
    p' := t.sender;
    if Inv(job, s, false) {
      ShipKeepsInv(job, s, false);
    }
    assert Step(job, s, Ship) == Some(t);
    OneStep(job, s, Ship, t);
  }

  lemma CloseFilled(job: Job, s: State, p: Sender, x: Reader, queue: seq<Info>, own: Halves, next: Halves)
    returns (t: State, p': Sender)
    requires Ring(job, s, p, x, queue, own, next) && Sending(job, p, own) && !p.blocked
    requires Filled(job, p) && p.shipped + 1 == job.Count() && WeightsFit(job)
    ensures Reaches(job, s, t) && Ring(job, t, p', x, queue + [job.InfoOf(p.shipped)], own, next)
    ensures Inv(job, s, false) ==> Inv(job, t, false)
    ensures t.readers == s.readers && t.halves == s.halves
  {
    hide Inv, BytesOf, Pack;
    FilledIsWhole(job, p, own);
    t := CloseStep(job, s).value;
    if Inv(job, s, false) {
      CloseKeepsInv(job, s, false);
    }
    p' := t.sender;
    assert Step(job, s, Close) == Some(t);
    OneStep(job, s, Close, t);
  }

  lemma PassHalf(job: Job, s: State, p: Sender, x: Reader, queue: seq<Info>, own: Halves, next: Halves)
    returns (t: State, p': Sender)
    requires WeightsFit(job) && Ring(job, s, p, x, queue, own, next) && Sending(job, p, own)
    requires Marked(own, p.shipped)
    ensures Reaches(job, s, t) && Ring(job, t, p', x, queue, own, next) && Sending(job, p', own)
    ensures p' == p.(blocked := false)
    ensures Inv(job, s, false) ==> Inv(job, t, false)
    ensures t.readers == s.readers && t.halves == s.halves
  {
    hide Inv, BytesOf, Pack;
    if p.blocked {
      t := UnblockStep(s).value;
      p' := t.sender;
      if Inv(job, s, false) {
        UnblockKeepsInv(job, s, false);
      }
      assert Step(job, s, Unblock) == Some(t);
      OneStep(job, s, Unblock, t);
    } else {
      t, p' := s, p;
      Stay(job, s);
    }
  }

  /** The sender is about to fill bucket `n`. */
  ghost predicate Opening(job: Job, p: Sender, own: Halves, n: nat) {
    && Sending(job, p, own) && p.shipped == n < job.Count() && p.pristine && !p.blocked
  }

  /** Bucket `n` is filled and announced, and the sender goes on: the other half shows the magic bytes. */
  lemma SendBucket(job: Job, s: State, p: Sender, x: Reader, queue: seq<Info>, own: Halves, next: Halves, n: nat)
    returns (t: State, p': Sender, own': Halves)
    requires WeightsFit(job) && Ring(job, s, p, x, queue, own, next) && Opening(job, p, own, n)
    requires n + 1 < job.Count() && ShowsMagic(own[!Odd(n)])
    ensures Reaches(job, s, t) && Ring(job, t, p', x, queue + [job.InfoOf(n)], own', next)
    ensures Opening(job, p', own', n + 1) && Whole(job, own', n)
    ensures own'[!Odd(n)] == own[!Odd(n)]
    ensures Marked(own, n) && Looks(job, n) ==> Marked(own', n)
  {
    hide SenderInv, Looks, Reaches, ShowsMagic, Inv;
    var s1, p1, own1 := FillBucket(job, s, p, x, queue, own, next);
    FilledIsWhole(job, p1, own1);
    var s2, p2 := ShipFilled(job, s1, p1, x, queue, own1, next);
    Parity(n);
    assert Marked(own1, p2.shipped);
    var s3, p3 := PassHalf(job, s2, p2, x, queue + [job.InfoOf(n)], own1, next);
    Then(job, s, s1, s2);
    Then(job, s, s2, s3);
    t, p', own' := s3, p3, own1;
  }

  // ---- driving the whole ring up to a bucket --------------------------------------------------------------------

  predicate ReaderActs(a: Action) {
    a.Receive? || a.Proceed? || a.Copy? || a.Relay? || a.Hand? || a.Acknowledge?
  }

  lemma ReaderCanAct(job: Job, s: State, r: nat) returns (a: Action)
    requires Shaped(s) && r < |s.readers| && ReaderMoves(s, r)
    ensures ReaderActs(a) && Step(job, s, a).Some?
  {
    hide ReceiveStep, ProceedStep, CopyStep, RelayStep, HandStep, AcknowledgeStep;
    a := if ReceiveStep(s, r).Some? then Receive(r) else if ProceedStep(s, r).Some? then Proceed(r)
         else if CopyStep(s, r).Some? then Copy(r) else if RelayStep(s, r).Some? then Relay(r)
         else if HandStep(s, r).Some? then Hand(r) else Acknowledge(r);
  }

  lemma ReadersSpareSender(job: Job, s: State, a: Action, t: State)
    requires ReaderActs(a) && Step(job, s, a) == Some(t)
    ensures t.sender == s.sender
  {
    hide Odd, Overlay, ShowsMagic, Shaped;
  }

  /** The half for odd buckets shows the magic bytes on every rank. */
  ghost predicate OddMagic(s: State) {
    Shaped(s) && forall r :: 0 <= r < |s.halves| ==> ShowsMagic(s.halves[r][true])
  }

  lemma CopiedIsShipped(job: Job, s: State, r: nat)
    requires Inv(job, s, false) && r < |s.readers| && s.readers[r].phase in {Copying, Acknowledging}
    ensures s.readers[r].idx < s.sender.shipped && s.readers[r].info.half == Odd(s.readers[r].idx)
  {
    hide SenderInv, LinkInv, GateInv, AllLook;
    UpstreamAtMostShipped(job, s, r, false);
    assert RankInv(job, s, r, false);
  }

  lemma CopyKeepsOddMagic(job: Job, s: State, r: nat, t: State)
    requires Inv(job, s, false) && s.sender.shipped <= 1 && OddMagic(s) && r < |s.readers| && CopyStep(s, r) == Some(t)
    ensures OddMagic(t)
  {
    hide Inv, ShowsMagic, Overlay;
    CopiedIsShipped(job, s, r);
    assert t.halves[r + 1][true] == s.halves[r + 1][true];
  }

  lemma AcknowledgeKeepsOddMagic(job: Job, s: State, r: nat, t: State)
    requires Inv(job, s, false) && s.sender.shipped <= 1 && OddMagic(s) && r < |s.readers| && AcknowledgeStep(s, r) == Some(t)
    ensures OddMagic(t)
  {
    hide Inv, ShowsMagic, Overlay;
    CopiedIsShipped(job, s, r);
    assert t.halves[r][true] == s.halves[r][true];
  }

  lemma ReadersKeepOddMagic(job: Job, s: State, a: Action, t: State)
    requires Inv(job, s, false) && s.sender.shipped <= 1 && OddMagic(s) && ReaderActs(a) && Step(job, s, a) == Some(t)
    ensures OddMagic(t)
  {
    hide Inv, ShowsMagic, Overlay, Odd;
    match a
    case Copy(r) => CopyKeepsOddMagic(job, s, r, t);
    case Acknowledge(r) => AcknowledgeKeepsOddMagic(job, s, r, t);
    case _ =>
  }

  /** The readers go on until none of them can. */
  lemma {:induction false} Drain(job: Job, s: State) returns (t: State)
    requires WeightsFit(job) && Inv(job, s, false)
    ensures Reaches(job, s, t) && Inv(job, t, false) && t.sender == s.sender
    ensures forall r: nat :: r < |t.readers| ==> !ReaderMoves(t, r)
    ensures s.sender.shipped <= 1 && OddMagic(s) ==> OddMagic(t)
    decreases StepBound(job) - Progress(s)
  {
    hide Inv, Progress, StepBound, OddMagic, Step, Reaches, ReaderMoves;
    WellShaped(job, s);
    if r: nat :| r < |s.readers| && ReaderMoves(s, r) {
      var a := ReaderCanAct(job, s, r);
      var mid := Step(job, s, a).value;
      ReaderStepGoesOn(job, s, a, mid);
      t := Drain(job, mid);
      OneStep(job, s, a, mid);
      Then(job, s, mid, t);
    } else {
      t := s;
      Stay(job, s);
    }
  }

  lemma WellShaped(job: Job, s: State)
    requires Inv(job, s, false)
    ensures Shaped(s) && |s.readers| == job.readers > 0 && !s.failed
  {
  }

  lemma ReaderStepGoesOn(job: Job, s: State, a: Action, t: State)
    requires WeightsFit(job) && Inv(job, s, false)
    requires ReaderActs(a) && Step(job, s, a) == Some(t)
    ensures Inv(job, t, false) && t.sender == s.sender && Progress(s) < Progress(t) <= StepBound(job)
    ensures s.sender.shipped <= 1 && OddMagic(s) ==> OddMagic(t)
  {
    hide Inv, Progress, StepBound, OddMagic, Step, ReaderMoves;
    StepKeepsInv(job, s, a, false);
    ReadersSpareSender(job, s, a, t);
    StepsProgress(job, s, a);
    ProgressIsBounded(job, t);
    if s.sender.shipped <= 1 && OddMagic(s) {
      ReadersKeepOddMagic(job, s, a, t);
    }
  }

  /** All buckets before bucket `k` are acknowledged on every rank, and the sender is about to fill bucket `k`. */
  ghost predicate Ready(job: Job, s: State, k: nat) {
    && Inv(job, s, false) && k < job.Count() && s.sender.shipped == k
    && s.sender.pristine && !s.sender.blocked && !s.sender.closed && AllAt(s, k)
    && (k <= 1 ==> OddMagic(s))
    && (k == 0 ==> forall r :: 0 <= r < |s.halves| ==> ShowsMagic(s.halves[r][false]))
  }

  ghost predicate AllAt(s: State, k: nat) {
    forall r :: 0 <= r < |s.readers| ==> s.readers[r].idx == k && s.readers[r].phase == Receiving
  }

  lemma {:induction false} CaughtUpAt(job: Job, s: State, r: nat)
    requires Inv(job, s, false) && r < |s.readers| && s.sender.shipped < job.Count()
    requires forall k :: 0 <= k < |s.readers| ==>
               s.readers[k].idx == Upstream(s, k) && s.readers[k].phase in {Receiving, Finished}
    ensures s.readers[r].idx == s.sender.shipped && s.readers[r].phase == Receiving
  {
    hide SenderInv, LinkInv, GateInv, AllLook;
    assert RankInv(job, s, r, false);
    if r > 0 {
      CaughtUpAt(job, s, r - 1);
    }
  }

  /** Acknowledged by rank `r` + 1, the last two buckets leave both halves of rank `r` marked. */
  lemma CaughtUpShows(job: Job, s: State, r: nat, k: nat)
    requires Inv(job, s, false) && r < |s.readers| && AllAt(s, k) && s.sender.shipped == k && s.sender.pristine
    ensures k >= 1 ==> ShowsMagic(s.halves[r][Odd(k - 1)])
    ensures k >= 2 ==> ShowsMagic(s.halves[r][Odd(k)])
  {
    hide SenderInv, GateInv, AllLook, ShowsMagic, Whole, Looks, Odd;
    assert RankInv(job, s, r, false);
    assert r > 0 ==> RankInv(job, s, r - 1, false);
    if k >= 1 {
      assert Marked(s.halves[r], k - 1);
    }
    if k >= 2 {
      assert Marked(s.halves[r], k - 2);
      Parity(k - 2);
    }
  }

  lemma ReadyShows(job: Job, s: State, k: nat, r: nat)
    requires Ready(job, s, k) && r < |s.readers|
    ensures Shaped(s) && ShowsMagic(s.halves[r][false]) && ShowsMagic(s.halves[r][true])
  {
    hide Inv, ShowsMagic;
    WellShaped(job, s);
    CaughtUpShows(job, s, r, k);
    if k >= 1 {
      Parity(k - 1);
    }
  }

  /** Before the first put into a bucket there are no bytes to lose. */
  lemma PristineSends(job: Job, p: Sender, halves: Halves)
    requires SenderInv(job, p, halves, false) && p.pristine && !p.closed
    ensures SenderInv(job, p, halves, true)
  {
    if p.next == 0 {
      assert Pack(job.chunks, 0, job.bucketSize).current == [];
    }
  }

  lemma SenderSends(job: Job, s: State)
    requires Inv(job, s, false) && !s.sender.closed && s.sender.pristine
    ensures Sending(job, s.sender, s.halves[0])
  {
    hide SenderInv;
    assert RankInv(job, s, 0, false);
    PristineSends(job, s.sender, s.halves[0]);
  }

  lemma ReadyRing(job: Job, s: State, k: nat)
    requires Ready(job, s, k)
    ensures Shaped(s) && |s.readers| == job.readers > 0 && |s.readers[0].log| == k && s.readers[0].idx == k
    ensures Ring(job, s, s.sender, s.readers[0], [], s.halves[0], s.halves[1])
    ensures Opening(job, s.sender, s.halves[0], k)
  {
    hide SenderInv, GateInv, AllLook, ShowsMagic, Whole, Looks, Odd;
    SenderSends(job, s);
    assert RankInv(job, s, 0, false);
  }

  /** Bucket `k` is sent around the whole ring. */
  lemma Advance(job: Job, s: State, k: nat, k': nat) returns (t: State)
    requires WeightsFit(job) && Ready(job, s, k) && k' == k + 1 < job.Count()
    ensures Reaches(job, s, t) && Ready(job, t, k')
  {
    hide Inv, SenderInv, Reaches, ShowsMagic, ReaderMoves;
    ReadyRing(job, s, k);
    var x := s.readers[0];
    var s1, p1, own1 := FillBucket(job, s, s.sender, x, [], s.halves[0], s.halves[1]);
    FilledIsWhole(job, p1, own1);
    var s2, p2 := ShipFilled(job, s1, p1, x, [], own1, s.halves[1]);
    var s3 := Drain(job, s2);
    Then(job, s, s1, s2);
    Then(job, s, s2, s3);
    t := FinishAdvance(job, s3, k');
    Then(job, s, s3, t);
  }

  lemma FinishAdvance(job: Job, s: State, k: nat) returns (t: State)
    requires WeightsFit(job) && Inv(job, s, false) && 0 < k < job.Count() && s.sender.shipped == k
    requires s.sender.pristine && !s.sender.closed && (k <= 1 ==> OddMagic(s))
    requires forall r: nat :: r < |s.readers| ==> !ReaderMoves(s, r)
    ensures Reaches(job, s, t) && Ready(job, t, k)
  {
    hide Inv, SenderInv, Reaches, ShowsMagic, ReaderMoves;
    WellShaped(job, s);
    AllCaughtUp(job, s);
    forall r: nat | r < |s.readers| ensures s.readers[r].idx == k && s.readers[r].phase == Receiving {
      CaughtUpAt(job, s, r);
    }
    CaughtUpShows(job, s, 0, k);
    SenderSends(job, s);
    var p: Sender;
    t, p := PassHalf(job, s, s.sender, s.readers[0], s.queues[0], s.halves[0], s.halves[1]);
  }

  /** Halves that show the magic bytes before anything was sent. */
  function MagicHalves(job: Job): (result: seq<Halves>)
    requires job.bucketSize >= 4
  {
    var half := MAGIC + seq(job.bucketSize - 4, i => 0);
    seq(job.readers + 1, r => map[false := half, true := half])
  }

  lemma MagicHalvesShow(job: Job)
    requires WeightsFit(job)
    ensures AnyHalves(job, MagicHalves(job))
    ensures forall r :: 0 <= r < |MagicHalves(job)| ==>
              ShowsMagic(MagicHalves(job)[r][false]) && ShowsMagic(MagicHalves(job)[r][true])
  {
    var half := MAGIC + seq(job.bucketSize - 4, i => 0);
    assert half[..4] == MAGIC;
  }

  /** The ring can be brought to the beginning of any bucket before which nothing does harm. */
  lemma {:induction false} DriveTo(job: Job, k: nat) returns (t: State)
    requires WeightsFit(job) && k < job.Count()
    ensures Reaches(job, Init(job, MagicHalves(job)), t) && Ready(job, t, k)
  {
    hide Reaches;
    if k == 0 {
      t := Init(job, MagicHalves(job));
      Stay(job, t);
      InitIsReady(job);
    } else {
      var mid := DriveTo(job, k - 1);
      t := Advance(job, mid, k - 1, k);
      Then(job, Init(job, MagicHalves(job)), mid, t);
    }
  }

  lemma InitIsReady(job: Job)
    requires WeightsFit(job)
    ensures Ready(job, Init(job, MagicHalves(job)), 0)
  {
    hide Inv, ShowsMagic, MagicHalves;
    MagicHalvesShow(job);
    InitHolds(job, MagicHalves(job), false);
    WellShaped(job, Init(job, MagicHalves(job)));
  }

  // ---- one reader goes on alone ---------------------------------------------------------------------------------

  function Grown(x: Reader, info: Info, data: seq<Byte>): (r: Reader) {
    Reader(x.idx, Acknowledging, info, x.log + [data])
  }

  /** Rank 1 takes the next announcement, and copies; it may have to find a marked half for the copy. */
  lemma FetchBucket(job: Job, s: State, p: Sender, x: Reader, info: Info, queue: seq<Info>, own: Halves, next: Halves)
    returns (t: State, x': Reader)
    requires Ring(job, s, p, x, [info] + queue, own, next) && x.phase == Receiving
    requires job.readers > 1 && x.idx >= 2 ==> Marked(next, x.idx)
    ensures Reaches(job, s, t) && Ring(job, t, p, x', queue, own, next)
    ensures x' == x.(info := info, phase := Copying)
  {
    hide ShowsMagic, Odd, Reaches;
    var s1 := ReceiveStep(s, 0).value;
    assert Step(job, s, Receive(0)) == Some(s1);
    OneStep(job, s, Receive(0), s1);
    t := s1;
    if s1.readers[0].phase == Blocked {
      t := ProceedStep(s1, 0).value;
      assert Step(job, s1, Proceed(0)) == Some(t);
      OneStep(job, s1, Proceed(0), t);
      Then(job, s, s1, t);
    }
    x' := t.readers[0];
  }

  lemma CopyBucket(
    job: Job, s: State, p: Sender, x: Reader, queue: seq<Info>, own: Halves, next: Halves, data: seq<Byte>)
    returns (t: State, x': Reader, next': Halves)
    requires Ring(job, s, p, x, queue, own, next) && x.phase == Copying
    requires x.info.half in own && x.info.len <= |own[x.info.half]| && data == own[x.info.half][..x.info.len]
    requires Odd(x.idx) in next
    ensures Reaches(job, s, t) && Ring(job, t, p, x', queue, own, next')
    ensures x' == x.(log := x.log + [data], phase := Relaying)
    ensures next' == next[Odd(x.idx) := Overlay(next[Odd(x.idx)], data)]
  {
    hide Odd, Overlay, Reaches;
    t := CopyStep(s, 0).value;
    x', next' := t.readers[0], t.halves[1];
    assert Step(job, s, Copy(0)) == Some(t);
    OneStep(job, s, Copy(0), t);
  }

  lemma PassOn(job: Job, s: State, p: Sender, x: Reader, queue: seq<Info>, own: Halves, next: Halves)
    returns (t: State, x': Reader)
    requires Ring(job, s, p, x, queue, own, next) && x.phase == Relaying
    ensures Reaches(job, s, t) && Ring(job, t, p, x', queue, own, next)
    ensures x' == x.(phase := Acknowledging)
  {
    hide Odd, Reaches;
    var s1 := RelayStep(s, 0).value;
    assert Step(job, s, Relay(0)) == Some(s1);
    OneStep(job, s, Relay(0), s1);
    t := HandStep(s1, 0).value;
    x' := t.readers[0];
    assert Step(job, s1, Hand(0)) == Some(t);
    OneStep(job, s1, Hand(0), t);
    Then(job, s, s1, t);
  }

  /** Rank 1 copies what lies where the next bucket was announced, up to its acknowledgement. */
  lemma Serve(
    job: Job, s: State, p: Sender, x: Reader, info: Info, queue: seq<Info>, own: Halves, next: Halves, data: seq<Byte>)
    returns (t: State, next': Halves)
    requires Ring(job, s, p, x, [info] + queue, own, next) && x.phase == Receiving
    requires job.readers > 1 && x.idx >= 2 ==> Marked(next, x.idx)
    requires info.half in own && info.len <= |own[info.half]| && data == own[info.half][..info.len]
    ensures Reaches(job, s, t) && Ring(job, t, p, Grown(x, info, data), queue, own, next')
    ensures Odd(x.idx) in next && next' == next[Odd(x.idx) := Overlay(next[Odd(x.idx)], data)]
  {
    hide Overlay, Reaches, Marked;
    var s1, x1 := FetchBucket(job, s, p, x, info, queue, own, next);
    assert Odd(x.idx) in next by { BothHalves(job, s, p, x, [info] + queue, own, next); }
    var s2, x2, next2 := CopyBucket(job, s1, p, x1, queue, own, next, data);
    var s3, x3 := PassOn(job, s2, p, x2, queue, own, next2);
    Then(job, s, s1, s2);
    Then(job, s, s2, s3);
    t, next' := s3, next2;
  }

  lemma BothHalves(job: Job, s: State, p: Sender, x: Reader, queue: seq<Info>, own: Halves, next: Halves)
    requires Ring(job, s, p, x, queue, own, next)
    ensures false in own && true in own && false in next && true in next
  {
  }

  lemma MarkBucket(job: Job, s: State, p: Sender, x: Reader, queue: seq<Info>, own: Halves, next: Halves)
    returns (t: State, x': Reader, own': Halves)
    requires Ring(job, s, p, x, queue, own, next) && x.phase == Acknowledging && !x.info.isLast
    ensures Reaches(job, s, t) && Ring(job, t, p, x', queue, own', next)
    ensures x' == x.(idx := x.idx + 1, phase := Receiving)
    ensures x.info.half in own && own' == own[x.info.half := Overlay(own[x.info.half], MAGIC)]
  {
    hide Overlay, Reaches;
    t := AcknowledgeStep(s, 0).value;
    x', own' := t.readers[0], t.halves[0];
    assert Step(job, s, Acknowledge(0)) == Some(t);
    OneStep(job, s, Acknowledge(0), t);
  }

  // ---- when refills are safe --------------------------------------------------------------------------------------

  ghost predicate AlwaysRefillsSafely(job: Job) {
    forall halves, schedule ::
      AnyHalves(job, halves) && Run(job, Init(job, halves), schedule).Some? ==>
        RefillsSafely(job, Run(job, Init(job, halves), schedule).value)
  }

  lemma ReachedState(job: Job, t: State) returns (schedule: seq<Action>)
    requires WeightsFit(job) && Reaches(job, Init(job, MagicHalves(job)), t)
    ensures AnyHalves(job, MagicHalves(job)) && Run(job, Init(job, MagicHalves(job)), schedule) == Some(t)
  {
    hide MagicHalves, Run;
    MagicHalvesShow(job);
    schedule :| Run(job, Init(job, MagicHalves(job)), schedule) == Some(t);
  }

  /** Bucket `k` lets its own half pass for acknowledged, so bucket `k` + 2 is put over it before it is read. */
  lemma UnsafeRefill(job: Job, k: nat)
    requires WeightsFit(job) && k + 2 < job.Count() && Looks(job, k)
    ensures !AlwaysRefillsSafely(job)
  {
    hide Inv, SenderInv, Reaches, ShowsMagic, Looks, Ready, MagicHalves, Init, Run;
    var s0 := DriveTo(job, k);
    ReadyRing(job, s0, k);
    ReadyShows(job, s0, k, 0);
    var x, own0, next := s0.readers[0], s0.halves[0], s0.halves[1];
    var s1, p1, own1 := SendBucket(job, s0, s0.sender, x, [], own0, next, k);
    Parity(k);
    var s2, p2, own2 := SendBucket(job, s1, p1, x, [] + [job.InfoOf(k)], own1, next, k + 1);
    Then(job, s0, s1, s2);
    Then(job, Init(job, MagicHalves(job)), s0, s2);
    OpenMeansPut(job, s2, p2, own2, k + 2);
    var schedule := ReachedState(job, s2);
  }

  lemma OpenMeansPut(job: Job, s: State, p: Sender, own: Halves, n: nat)
    requires Shaped(s) && s.sender == p && s.halves[0] == own && Opening(job, p, own, n) && n > 0
    ensures PutStep(job, s).Some?
  {
  }

  /** In every run, whatever the buffers held before, halves are refilled only after they were read, exactly when
      no bucket whose half is used again looks acknowledged. */
  lemma RefillsAreSafeIff(job: Job)
    requires WeightsFit(job)
    ensures AlwaysRefillsSafely(job) <==> NothingLooks(job)
  {
    if NothingLooks(job) {
      forall halves, schedule | AnyHalves(job, halves) && Run(job, Init(job, halves), schedule).Some?
        ensures RefillsSafely(job, Run(job, Init(job, halves), schedule).value)
      {
        RunSafely(job, halves, schedule);
      }
    } else {
      var k: nat :| k + 2 < job.Count() && Looks(job, k);
      UnsafeRefill(job, k);
    }
  }

  lemma RunSafely(job: Job, halves: seq<Halves>, schedule: seq<Action>)
    requires WeightsFit(job) && NothingLooks(job)
    requires AnyHalves(job, halves) && Run(job, Init(job, halves), schedule).Some?
    ensures RefillsSafely(job, Run(job, Init(job, halves), schedule).value)
  {
    hide Inv, Run, Init, NothingLooks;
    NothingLooksIsHarmless(job);
    RunKeepsInv(job, halves, schedule, true);
    RefillsAreSafe(job, Run(job, Init(job, halves), schedule).value);
  }

  // ---- when transfers are exact -----------------------------------------------------------------------------------

  ghost predicate AlwaysExact(job: Job) {
    forall halves, schedule ::
      AnyHalves(job, halves) && Run(job, Init(job, halves), schedule).Some? ==>
        Exact(job, Run(job, Init(job, halves), schedule).value)
  }

  lemma WrongLog(job: Job, t: State, k: nat)
    requires WeightsFit(job) && Reaches(job, Init(job, MagicHalves(job)), t) && t.readers != []
    requires k < |t.readers[0].log| && k < job.Count() && t.readers[0].log[k] != job.Bytes(k)
    ensures !AlwaysExact(job)
  {
    hide MagicHalves, Init, Run, Reaches, AnyHalves;
    var schedule := ReachedState(job, t);
    assert !ExactLog(job, t.readers[0]);
  }

  /** The sender runs ahead to bucket `j`: all buckets it has to pass look acknowledged. */
  lemma {:induction false} RunAhead(
    job: Job, s: State, p: Sender, x: Reader, queue: seq<Info>, own: Halves, next: Halves, i: nat, n: nat, j: nat)
    returns (t: State, p': Sender, own': Halves, queue': seq<Info>)
    requires WeightsFit(job) && Ring(job, s, p, x, queue, own, next) && Opening(job, p, own, n)
    requires i <= n <= j < job.Count() && AllLook(job, i, j)
    requires n < j ==> ShowsMagic(own[false]) && ShowsMagic(own[true])
    ensures Reaches(job, s, t) && Ring(job, t, p', x, queue', own', next) && Opening(job, p', own', j)
    ensures queue <= queue' && (n < j ==> |queue| < |queue'| && queue'[|queue|] == job.InfoOf(n))
    decreases j - n
  {
    hide SenderInv, Looks, Reaches, ShowsMagic, Whole;
    if n == j {
      t, p', own', queue' := s, p, own, queue;
      Stay(job, s);
    } else {
      var mid, q, half := SendBucket(job, s, p, x, queue, own, next, n);
      assert n + 2 <= j ==> Looks(job, n) && Marked(half, n);
      t, p', own', queue' := RunAhead(job, mid, q, x, queue + [job.InfoOf(n)], half, next, i, n + 1, j);
      Then(job, s, mid, t);
    }
  }

  /** Bucket `j` is written over the unread bucket `i`, and rank 1 reads its bytes in place of those of `i`. */
  lemma Misread(job: Job, i: nat, j: nat)
    requires WeightsFit(job) && Overtakes(job, j, i)
    requires !Agree(job.Bytes(i), job.Bytes(j))
    ensures !AlwaysExact(job)
  {
    hide Inv, SenderInv, Reaches, ShowsMagic, Ready, MagicHalves, Init, Run, AllLook, Agree, Odd;
    var s0 := DriveTo(job, i);
    ReadyRing(job, s0, i);
    ReadyShows(job, s0, i, 0);
    var x, next := s0.readers[0], s0.halves[1];
    ReaderIsReceiving(job, s0, i);
    var s1, p1, own1, queue1 := RunAhead(job, s0, s0.sender, x, [], s0.halves[0], next, i, i, j);
    var s2, p2, own2 := FillBucket(job, s1, p1, x, queue1, own1, next);
    FilledIsWhole(job, p2, own2);
    BytesFit(job, i);
    NextShows(job, s0, i);
    var data := own2[Odd(i)][..|job.Bytes(i)|];
    assert queue1 == [job.InfoOf(i)] + queue1[1..];
    var s3, next3 := Serve(job, s2, p2, x, job.InfoOf(i), queue1[1..], own2, next, data);
    Covered(own2[Odd(j)], job.Bytes(i), job.Bytes(j));
    Then(job, s0, s1, s2);
    Then(job, s0, s2, s3);
    Then(job, Init(job, MagicHalves(job)), s0, s3);
    WrongLog(job, s3, i);
  }

  lemma Covered(buf: seq<Byte>, a: seq<Byte>, b: seq<Byte>)
    requires |a| <= |buf| && |b| <= |buf| && buf[..|b|] == b && !Agree(a, b)
    ensures buf[..|a|] != a
  {
    var p :| 0 <= p < |a| && p < |b| && a[p] != b[p];
    assert buf[..|b|][p] == b[p] && buf[..|a|][p] == buf[p];
  }

  lemma ReaderIsReceiving(job: Job, s: State, k: nat)
    requires Ready(job, s, k)
    ensures s.readers != [] && s.readers[0].phase == Receiving
  {
    WellShaped(job, s);
  }

  lemma NextShows(job: Job, s: State, k: nat)
    requires Ready(job, s, k)
    ensures Shaped(s) && s.readers != []
    ensures job.readers > 1 ==> forall n: nat :: Marked(s.halves[1], n)
  {
    hide Ready, Inv, ShowsMagic, Odd;
    ReadyRing(job, s, k);
    if job.readers > 1 {
      ReadyShows(job, s, k, 1);
    }
  }

  lemma LookingOverlay(buf: seq<Byte>, data: seq<Byte>)
    requires ShowsMagic(buf) && LooksAcknowledged(data)
    ensures ShowsMagic(Overlay(buf, data))
  {
    OverlayIsPut(buf, data);
    assert data[0..0 + |data|] == data;
    LookingPut(buf, 0, data, data);
  }

  lemma ShownPrefixLooks(buf: seq<Byte>, n: nat)
    requires ShowsMagic(buf) && n <= |buf|
    ensures LooksAcknowledged(buf[..n])
  {
    forall p | 0 <= p < 4 && p < n ensures buf[..n][p] == MAGIC[p] {
      assert buf[..4][p] == buf[p];
    }
  }

  lemma AnnounceFilled(job: Job, s: State, p: Sender, x: Reader, queue: seq<Info>, own: Halves, next: Halves)
    returns (t: State, p': Sender)
    requires WeightsFit(job) && Ring(job, s, p, x, queue, own, next) && Sending(job, p, own) && !p.blocked
    requires Filled(job, p) && p.shipped < job.Count()
    ensures Reaches(job, s, t) && Ring(job, t, p', x, queue + [job.InfoOf(p.shipped)], own, next)
    ensures Inv(job, s, false) ==> Inv(job, t, false)
    ensures t.readers == s.readers && t.halves == s.halves
  {
    hide Inv, SenderInv, Reaches, Filled;
    if p.shipped + 1 < job.Count() {
      t, p' := ShipFilled(job, s, p, x, queue, own, next);
    } else {
      t, p' := CloseFilled(job, s, p, x, queue, own, next);
    }
  }

  /** Rank 1 acknowledges a bucket and copies what was announced next. */
  lemma MarkAndServe(job: Job, s: State, p: Sender, x: Reader, info: Info, queue: seq<Info>, own: Halves, next: Halves)
    returns (t: State, x': Reader, own': Halves, next': Halves)
    requires Ring(job, s, p, x, [info] + queue, own, next) && x.phase == Acknowledging && !x.info.isLast
    requires job.readers > 1 ==> Marked(next, x.idx + 1)
    requires info.half in own && info.len <= |own[info.half]|
    ensures Reaches(job, s, t) && Ring(job, t, p, x', queue, own', next')
    ensures x.info.half in own && own' == own[x.info.half := Overlay(own[x.info.half], MAGIC)]
    ensures info.len <= |own'[info.half]| && Odd(x.idx + 1) in next
    ensures var data := own'[info.half][..info.len];
            && x' == Reader(x.idx + 1, Acknowledging, info, x.log + [data])
            && next' == next[Odd(x.idx + 1) := Overlay(next[Odd(x.idx + 1)], data)]
  {
    hide Reaches, Marked, Odd, Overlay;
    var s1, x1, own1 := MarkBucket(job, s, p, x, [info] + queue, own, next);
    OverlayKeepsLength(own[x.info.half], MAGIC);
    var s2, next2 := Serve(job, s1, p, x1, info, queue, own1, next, own1[info.half][..info.len]);
    Then(job, s, s1, s2);
    t, x', own', next' := s2, Grown(x1, info, own1[info.half][..info.len]), own1, next2;
  }

  lemma OverlayKeepsLength(buf: seq<Byte>, data: seq<Byte>)
    ensures |Overlay(buf, data)| == |buf|
  {
  }

  ghost predicate AllMarked(job: Job, next: Halves) {
    job.readers > 1 ==> forall n: nat :: Marked(next, n)
  }

  lemma LookingCopyKeepsMarks(job: Job, next: Halves, n: nat, data: seq<Byte>, next': Halves)
    requires AllMarked(job, next) && LooksAcknowledged(data) && Odd(n) in next
    requires next' == next[Odd(n) := Overlay(next[Odd(n)], data)]
    ensures AllMarked(job, next')
  {
    hide ShowsMagic, LooksAcknowledged, Odd, Overlay;
    if job.readers > 1 {
      assert Marked(next, n);
      LookingOverlay(next[Odd(n)], data);
      forall k: nat ensures Marked(next', k) {
        assert Marked(next, k);
      }
    }
  }

  /** Buckets `i` and `i` + 1 are sent, bucket `i` copied, and bucket `i` + 2 put over it and announced before
      rank 1 acknowledges bucket `i`. */
  lemma Overrun(job: Job, i: nat, j: nat)
    returns (t: State, p: Sender, x: Reader, own: Halves, next: Halves)
    requires WeightsFit(job) && j == i + 2 < job.Count() && Looks(job, i)
    ensures Reaches(job, Init(job, MagicHalves(job)), t)
    ensures Ring(job, t, p, x, [job.InfoOf(i + 1), job.InfoOf(j)], own, next) && AllMarked(job, next)
    ensures x.idx == i && x.phase == Acknowledging && x.info == job.InfoOf(i) && |x.log| == i + 1
    ensures Sized(job, own)
  {
    hide Inv, SenderInv, Reaches, ShowsMagic, Ready, MagicHalves, Init, Looks, Odd, AllMarked;
    var s0 := DriveTo(job, i);
    ReadyRing(job, s0, i);
    ReadyShows(job, s0, i, 0);
    ReaderIsReceiving(job, s0, i);
    var x0, next0 := s0.readers[0], s0.halves[1];
    assert AllMarked(job, next0) by { NextIsMarked(job, s0, i); }
    var s1, p1, own1 := SendBucket(job, s0, s0.sender, x0, [], s0.halves[0], next0, i);
    assert [] + [job.InfoOf(i)] == [job.InfoOf(i)] + [];
    assert job.readers > 1 ==> Marked(next0, i) by { OneOfAllMarked(job, next0, i); }
    var s2, next2 := Serve(job, s1, p1, x0, job.InfoOf(i), [], own1, next0, job.Bytes(i));
    BucketLooks(job, i);
    LookingCopyKeepsMarks(job, next0, i, job.Bytes(i), next2);
    Parity(i);
    var s3, p3, own3 := SendBucket(job, s2, p1, Grown(x0, job.InfoOf(i), job.Bytes(i)), [], own1, next2, i + 1);
    x, next := Grown(x0, job.InfoOf(i), job.Bytes(i)), next2;
    var s4: State;
    s4, p, own := FillAndAnnounce(job, s3, p3, x, [] + [job.InfoOf(i + 1)], own3, next, j);
    assert [] + [job.InfoOf(i + 1)] + [job.InfoOf(j)] == [job.InfoOf(i + 1), job.InfoOf(j)];
    Then(job, Init(job, MagicHalves(job)), s0, s1);
    Then(job, Init(job, MagicHalves(job)), s1, s2);
    Then(job, Init(job, MagicHalves(job)), s2, s3);
    Then(job, Init(job, MagicHalves(job)), s3, s4);
    t := s4;
  }

  lemma FillAndAnnounce(job: Job, s: State, p: Sender, x: Reader, queue: seq<Info>, own: Halves, next: Halves, n: nat)
    returns (t: State, p': Sender, own': Halves)
    requires WeightsFit(job) && Ring(job, s, p, x, queue, own, next) && Opening(job, p, own, n)
    ensures Reaches(job, s, t) && Ring(job, t, p', x, queue + [job.InfoOf(n)], own', next) && Sized(job, own')
    ensures Inv(job, s, false) ==> Inv(job, t, false)
    ensures t.readers == s.readers
  {
    hide SenderInv, Reaches, Marked, Inv, Filled;
    var s1, p1, own1 := FillBucket(job, s, p, x, queue, own, next);
    var s2, p2 := AnnounceFilled(job, s1, p1, x, queue, own1, next);
    Then(job, s, s1, s2);
    t, p', own' := s2, p2, own1;
  }

  lemma NextIsMarked(job: Job, s: State, k: nat)
    requires Ready(job, s, k)
    ensures Shaped(s) && s.readers != [] && AllMarked(job, s.halves[1])
  {
    hide Ready, Marked;
    NextShows(job, s, k);
  }

  lemma OneOfAllMarked(job: Job, next: Halves, n: nat)
    requires AllMarked(job, next)
    ensures job.readers > 1 ==> Marked(next, n)
  {
  }

  /** The acknowledgement of bucket `i` destroys bucket `i` + 2, which was put over it too early. */
  lemma Spoiled(job: Job, i: nat, j: nat)
    requires WeightsFit(job) && j == i + 2 < job.Count() && Looks(job, i) && !Looks(job, j)
    ensures !AlwaysExact(job)
  {
    hide Reaches, ShowsMagic, MagicHalves, Init, Run, AllMarked, Odd, Overlay, Marked, LooksAcknowledged,
      AlwaysExact;
    var s0, p, x0, own0, next0 := Overrun(job, i, j);
    BytesFit(job, i + 1);
    BytesFit(job, j);
    Parity(i);
    OneOfAllMarked(job, next0, i + 1);
    OneOfAllMarked(job, next0, j);
    assert [job.InfoOf(i + 1), job.InfoOf(j)] == [job.InfoOf(i + 1)] + [job.InfoOf(j)];
    var s1, x1, own1, next1 := MarkAndServe(job, s0, p, x0, job.InfoOf(i + 1), [job.InfoOf(j)], own0, next0);
    MagicShows(own0[Odd(i)]);
    SameHalfMarked(next0, next1, j);
    assert [job.InfoOf(j)] == [job.InfoOf(j)] + [];
    var s2, x2, own2, next2 := MarkAndServe(job, s1, p, x1, job.InfoOf(j), [], own1, next1);
    var data := own2[Odd(j)][..|job.Bytes(j)|];
    ShownPrefixLooks(own2[Odd(j)], |job.Bytes(j)|);
    assert x2.log[j] == data;
    Then(job, s0, s1, s2);
    Then(job, Init(job, MagicHalves(job)), s0, s2);
    WrongLog(job, s2, j);
  }

  lemma SameHalfMarked(a: Halves, b: Halves, n: nat)
    requires Odd(n) in a && Odd(n) in b && a[Odd(n)] == b[Odd(n)]
    ensures Marked(a, n) == Marked(b, n)
  {
  }

  /** In every run, whatever the buffers held before, every copy is exact, exactly when a bucket that may overtake
      an unread one does no harm. */
  lemma TransfersAreExactIff(job: Job)
    requires WeightsFit(job)
    ensures AlwaysExact(job) <==> Harmless(job)
  {
    hide AlwaysExact, Overtakes, Looks, Agree;
    if Harmless(job) {
      HarmlessMeansExact(job);
    } else {
      var i: nat, j: nat :| Overtakes(job, j, i) && !Indifferent(job, j, i);
      HarmIsDone(job, j, i);
    }
  }

  lemma HarmIsDone(job: Job, j: nat, i: nat)
    requires WeightsFit(job) && Overtakes(job, j, i) && !Indifferent(job, j, i)
    ensures !AlwaysExact(job)
  {
    hide AlwaysExact, Looks, Agree, AllLook;
    if Agree(job.Bytes(i), job.Bytes(j)) {
      LookedBefore(job, j, i);
      Spoiled(job, j - 2, j);
    } else {
      Misread(job, i, j);
    }
  }

  lemma HarmlessMeansExact(job: Job)
    requires WeightsFit(job) && Harmless(job)
    ensures AlwaysExact(job)
  {
    hide Harmless, Run, Init, Exact;
    forall halves, schedule | AnyHalves(job, halves) && Run(job, Init(job, halves), schedule).Some?
      ensures Exact(job, Run(job, Init(job, halves), schedule).value)
    {
      TransfersAreExact(job, halves, schedule);
    }
  }

  lemma LookedBefore(job: Job, j: nat, i: nat)
    requires Overtakes(job, j, i)
    ensures 2 <= j < job.Count() && Looks(job, j - 2)
  {
  }

  // ---- damage goes unnoticed --------------------------------------------------------------------------------------

  ghost predicate Continues(s: State, t: State) {
    |s.readers| == |t.readers| && forall r :: 0 <= r < |s.readers| ==> s.readers[r].log <= t.readers[r].log
  }

  lemma StepContinues(job: Job, s: State, a: Action, t: State)
    requires Step(job, s, a) == Some(t)
    ensures Continues(s, t)
  {
    hide Odd, Overlay, PutAt, ShowsMagic, Announce;
  }

  /** Any run can be completed, and copies once made stay. */
  lemma {:induction false} Complete(job: Job, s: State) returns (t: State)
    requires WeightsFit(job) && Inv(job, s, false)
    ensures Reaches(job, s, t) && Continues(s, t) && Done(job, t) && Inv(job, t, false)
    decreases StepBound(job) - Progress(s)
  {
    hide Inv, Progress, StepBound, Step, Reaches, Done;
    if Done(job, s) {
      t := s;
      Stay(job, s);
    } else {
      NoDeadlock(job, s);
      var a :| Step(job, s, a).Some?;
      var mid := Step(job, s, a).value;
      StepKeepsInv(job, s, a, false);
      StepsProgress(job, s, a);
      ProgressIsBounded(job, mid);
      StepContinues(job, s, a, mid);
      t := Complete(job, mid);
      OneStep(job, s, a, mid);
      Then(job, s, mid, t);
    }
  }

  ghost predicate CompletesExactly(job: Job) {
    forall halves, schedule ::
      AnyHalves(job, halves) && Run(job, Init(job, halves), schedule).Some?
      && Done(job, Run(job, Init(job, halves), schedule).value) ==>
        Exact(job, Run(job, Init(job, halves), schedule).value)
  }

  lemma DamageStays(job: Job, s: State, t: State)
    requires Inv(job, s, false) && !Exact(job, s) && Continues(s, t)
    ensures !Exact(job, t)
  {
    hide SenderInv, LinkInv, GateInv;
    var r :| 0 <= r < |s.readers| && !ExactLog(job, s.readers[r]);
    assert RankInv(job, s, r, false);
    var k :| 0 <= k < |s.readers[r].log| && s.readers[r].log[k] != job.Bytes(k);
    assert s.readers[r].log[k] == t.readers[r].log[k];
    assert !ExactLog(job, t.readers[r]);
  }

  lemma DamagedRunCompletes(job: Job, halves: seq<Halves>, schedule: seq<Action>)
    requires WeightsFit(job) && AnyHalves(job, halves) && Run(job, Init(job, halves), schedule).Some?
    requires !Exact(job, Run(job, Init(job, halves), schedule).value)
    ensures !CompletesExactly(job)
  {
    hide Inv, Init, Run, Exact, Done, AnyHalves;
    RunKeepsInv(job, halves, schedule, false);
    var s := Run(job, Init(job, halves), schedule).value;
    var t := Complete(job, s);
    DamageStays(job, s, t);
    var more :| Run(job, s, more) == Some(t);
    RunConcat(job, Init(job, halves), schedule, s, more);
  }

  /** Transfers that come to their regular end have delivered every bucket unchanged to every rank, exactly when a
      bucket that may overtake an unread one does no harm. */
  lemma CompletedTransfersAreExactIff(job: Job)
    requires WeightsFit(job)
    ensures CompletesExactly(job) <==> Harmless(job)
  {
    hide Harmless, Run, Init, Exact, Done;
    TransfersAreExactIff(job);
    if !AlwaysExact(job) {
      var halves, schedule :| AnyHalves(job, halves) && Run(job, Init(job, halves), schedule).Some?
        && !Exact(job, Run(job, Init(job, halves), schedule).value);
      DamagedRunCompletes(job, halves, schedule);
    }
  }
}
