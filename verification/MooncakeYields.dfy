// What a rank of the point-to-point transfer hands to its consumer: views of its own half, which the rank
// downstream may mark as read while the consumer is still looking.

module MooncakeYields {
  import opened Common
  import opened WeightChunks
  import opened BucketPacking
  import opened MooncakeRing
  import opened MooncakeLimits

  /** As long as a rank hands out a bucket, its half holds the bytes of that bucket. */
  ghost predicate YieldsExactly(job: Job, s: State) {
    && Shaped(s)
    && forall r :: 0 <= r < |s.readers| && s.readers[r].phase == Yielding ==>
         Whole(job, s.halves[r + 1], s.readers[r].idx)
  }

  ghost predicate AlwaysYieldsExactly(job: Job) {
    forall halves, schedule ::
      AnyHalves(job, halves) && Run(job, Init(job, halves), schedule).Some? ==>
        YieldsExactly(job, Run(job, Init(job, halves), schedule).value)
  }

  /** Nobody marks the halves of a single reader; otherwise marking must not show in any bucket. */
  ghost predicate MarksDoNotShow(job: Job) {
    job.readers == 1 || forall k: nat :: k < job.Count() ==> Looks(job, k)
  }

  // ---- when marks do not show ---------------------------------------------------------------------------------

  predicate HasCopied(p: Phase) {
    p in {Relaying, Yielding, Acknowledging}
  }

  /** From its copy to its acknowledgement a bucket stays whole in the rank's own half. */
  ghost predicate CopiesStay(job: Job, s: State) {
    && Shaped(s)
    && forall r :: 0 <= r < |s.readers| && HasCopied(s.readers[r].phase) ==>
         Whole(job, s.halves[r + 1], s.readers[r].idx)
  }

  lemma CopyIsWhole(job: Job, s: State, r: nat, t: State)
    requires WeightsFit(job) && Inv(job, s, true) && r < |s.readers| && CopyStep(s, r) == Some(t) && Shaped(t)
    ensures Whole(job, t.halves[r + 1], t.readers[r].idx)
  {
    hide SenderInv, ReaderInv, GateInv, Intact;
    CopiesTheBucket(job, s, r);
    HalvesAreSized(job, s, r + 1);
    BytesFit(job, s.readers[r].idx);
    PutExtends(s.halves[r + 1][Odd(s.readers[r].idx)], 0, job.Bytes(s.readers[r].idx));
    OverlayIsPut(s.halves[r + 1][Odd(s.readers[r].idx)], job.Bytes(s.readers[r].idx));
  }

  lemma HalvesAreSized(job: Job, s: State, r: nat)
    requires Inv(job, s, false) || Inv(job, s, true)
    requires r < |s.halves|
    ensures Sized(job, s.halves[r])
  {
    hide SenderInv, ReaderInv, GateInv, Intact;
    assert r < |s.readers| ==> RankInv(job, s, r, true) || RankInv(job, s, r, false);
  }

  lemma CopyKeepsCopies(job: Job, s: State, r: nat, t: State)
    requires WeightsFit(job) && Inv(job, s, true) && r < |s.readers| && CopyStep(s, r) == Some(t)
    requires CopiesStay(job, s)
    ensures CopiesStay(job, t)
  {
    hide Inv, Whole, CopyStep;
    CopyIsLocal(s, t, r);
    CopyIsWhole(job, s, r, t);
  }

  lemma MarkKeepsCopies(job: Job, s: State, r: nat, t: State)
    requires WeightsFit(job) && Inv(job, s, true) && r < |s.readers| && AcknowledgeStep(s, r) == Some(t)
    requires CopiesStay(job, s) && MarksDoNotShow(job)
    ensures CopiesStay(job, t)
  {
    hide Inv, Whole, Overlay, Looks;
    HalvesAreSized(job, s, r);
    RankCount(job, s);
    forall q | 0 <= q < |t.readers| && HasCopied(t.readers[q].phase)
      ensures Whole(job, t.halves[q + 1], t.readers[q].idx)
    {
      if q + 1 == r {
        LookingStaysWhole(job, s.halves[r], t.halves[r], s.readers[r].info.half, s.readers[q].idx);
      }
    }
  }

  lemma RankCount(job: Job, s: State)
    requires Inv(job, s, true)
    ensures |s.readers| == job.readers
  {
  }

  lemma LookingStaysWhole(job: Job, halves: Halves, halves': Halves, half: bool, k: nat)
    requires WeightsFit(job) && Sized(job, halves) && Whole(job, halves, k) && (k < job.Count() ==> Looks(job, k))
    requires half in halves && halves' == halves[half := Overlay(halves[half], MAGIC)]
    ensures Whole(job, halves', k)
  {
    hide Overlay;
    if half == Odd(k) {
      MagicSpares(halves[half], job.Bytes(k));
      OverlayKeepsLength(halves[half], MAGIC);
    }
  }

  lemma StepKeepsCopies(job: Job, s: State, a: Action, t: State)
    requires WeightsFit(job) && Inv(job, s, true) && Step(job, s, a) == Some(t)
    requires CopiesStay(job, s) && MarksDoNotShow(job)
    ensures CopiesStay(job, t)
  {
    hide Inv, Whole, Overlay, PutAt, ShowsMagic, Odd, MarksDoNotShow;
    match a
    case Copy(r) => CopyKeepsCopies(job, s, r, t);
    case Acknowledge(r) => MarkKeepsCopies(job, s, r, t);
    case Ship =>
    case Unblock =>
    case Put =>
    case Close =>
    case Finish =>
    case Receive(r) =>
    case Proceed(r) =>
    case Relay(r) =>
    case Hand(r) =>
  }

  lemma {:induction false} RunKeepsCopies(job: Job, halves: seq<Halves>, schedule: seq<Action>)
    requires WeightsFit(job) && Harmless(job) && MarksDoNotShow(job)
    requires AnyHalves(job, halves) && Run(job, Init(job, halves), schedule).Some?
    ensures CopiesStay(job, Run(job, Init(job, halves), schedule).value)
  {
    hide Inv, Step, Harmless, MarksDoNotShow, AnyHalves, CopiesStay;
    if schedule == [] {
      NothingCopied(job, halves);
    } else {
      var init := schedule[..|schedule| - 1];
      RunKeepsCopies(job, halves, init);
      RunKeepsInv(job, halves, init, true);
      StepKeepsCopies(job, Run(job, Init(job, halves), init).value, schedule[|schedule| - 1],
                      Run(job, Init(job, halves), schedule).value);
    }
  }

  lemma NothingCopied(job: Job, halves: seq<Halves>)
    requires AnyHalves(job, halves)
    ensures CopiesStay(job, Init(job, halves))
  {
  }

  // ---- a wrong copy is handed out -------------------------------------------------------------------------------

  /** The first wrong entry of a log is the wrong copy just made, and it is handed out next. */
  lemma {:induction false} WrongCopyIsYielded(job: Job, halves: seq<Halves>, schedule: seq<Action>)
    requires WeightsFit(job) && AnyHalves(job, halves) && Run(job, Init(job, halves), schedule).Some?
    requires !Exact(job, Run(job, Init(job, halves), schedule).value)
    ensures !AlwaysYieldsExactly(job)
  {
    hide Inv, Step, Exact, AnyHalves, YieldsExactly;
    if schedule == [] {
      InitIsExact(job, halves);
    } else {
      var init, a := schedule[..|schedule| - 1], schedule[|schedule| - 1];
      var s := Run(job, Init(job, halves), init).value;
      if Exact(job, s) {
        RunKeepsInv(job, halves, init, false);
        var r := CopyWentWrong(job, s, a, Run(job, Init(job, halves), schedule).value);
        var t := HandOutWrong(job, s, r, Run(job, Init(job, halves), schedule).value);
        assert (schedule + [Relay(r)])[..|schedule|] == schedule;
        assert Run(job, Init(job, halves), schedule + [Relay(r)]) == Some(t);
      } else {
        WrongCopyIsYielded(job, halves, init);
      }
    }
  }

  lemma InitIsExact(job: Job, halves: seq<Halves>)
    ensures Exact(job, Init(job, halves))
  {
  }

  /** Only a copy can make a log wrong, by its last entry. */
  lemma CopyWentWrong(job: Job, s: State, a: Action, t: State) returns (r: nat)
    requires WeightsFit(job) && Inv(job, s, false) && Step(job, s, a) == Some(t) && Exact(job, s) && !Exact(job, t)
    ensures r < |s.readers| && CopyStep(s, r) == Some(t) && Shaped(s)
    ensures s.readers[r].idx < job.Count() && s.readers[r].info == job.InfoOf(s.readers[r].idx)
    ensures s.halves[r][s.readers[r].info.half][..s.readers[r].info.len] != job.Bytes(s.readers[r].idx)
  {
    hide Inv, Odd, Overlay, PutAt, ShowsMagic, Announce, ExactLog;
    StepKeepsInv(job, s, a, false);
    WellShaped(job, s);
    WellShaped(job, t);
    r :| 0 <= r < |t.readers| && !ExactLog(job, t.readers[r]);
    if a != Copy(r) {
      LogStays(job, s, a, t, r);
    }
    CopierKnows(job, s, r);
    LongerLog(job, s.readers[r], t.readers[r]);
  }

  lemma LogStays(job: Job, s: State, a: Action, t: State, r: nat)
    requires Step(job, s, a) == Some(t) && r < |s.readers| && a != Copy(r) && r < |t.readers|
    ensures ExactLog(job, t.readers[r]) == ExactLog(job, s.readers[r])
  {
    hide Odd, Overlay, PutAt, ShowsMagic, Announce, ExactLog;
    assert t.readers[r].log == s.readers[r].log;
    SameLog(job, s.readers[r], t.readers[r]);
  }

  lemma SameLog(job: Job, x: Reader, y: Reader)
    requires x.log == y.log
    ensures ExactLog(job, x) == ExactLog(job, y)
  {
  }

  lemma CopierKnows(job: Job, s: State, r: nat)
    requires Inv(job, s, false) && r < |s.readers| && s.readers[r].phase == Copying
    ensures s.readers[r].idx < job.Count() && s.readers[r].info == job.InfoOf(s.readers[r].idx)
    ensures |s.readers[r].log| == s.readers[r].idx
  {
    hide SenderInv, LinkInv, GateInv, AllLook;
    assert RankInv(job, s, r, false);
  }

  lemma LongerLog(job: Job, x: Reader, y: Reader)
    requires ExactLog(job, x) && !ExactLog(job, y) && |x.log| < job.Count()
    requires |y.log| == |x.log| + 1 && y.log[..|x.log|] == x.log
    ensures y.log[|x.log|] != job.Bytes(|x.log|)
  {
    assert forall k :: 0 <= k < |x.log| ==> y.log[k] == y.log[..|x.log|][k];
  }

  lemma HandOutWrong(job: Job, s: State, r: nat, mid: State) returns (t: State)
    requires WeightsFit(job) && Inv(job, s, false) && r < |s.readers| && CopyStep(s, r) == Some(mid)
    requires s.readers[r].idx < job.Count() && s.readers[r].info == job.InfoOf(s.readers[r].idx)
    requires s.halves[r][s.readers[r].info.half][..s.readers[r].info.len] != job.Bytes(s.readers[r].idx)
    ensures Step(job, mid, Relay(r)) == Some(t) && !YieldsExactly(job, t)
  {
    hide Inv, Odd, Overlay, PutAt, Whole;
    WellShaped(job, s);
    var k, data := s.readers[r].idx, s.halves[r][s.readers[r].info.half][..s.readers[r].info.len];
    HalvesAreSized(job, s, r + 1);
    CopyIsLocal(s, mid, r);
    t := RelayStep(mid, r).value;
    BytesFit(job, k);
    OverlayIsPut(s.halves[r + 1][Odd(k)], data);
    PutExtends(s.halves[r + 1][Odd(k)], 0, data);
    assert t.readers[r].phase == Yielding && t.readers[r].idx == k;
    NotWhole(job, t.halves[r + 1], k, data);
  }

  lemma NotWhole(job: Job, halves: Halves, k: nat, data: seq<Byte>)
    requires k < job.Count() && |data| == |job.Bytes(k)| && data != job.Bytes(k)
    requires Odd(k) in halves && |data| <= |halves[Odd(k)]| && halves[Odd(k)][..|data|] == data
    ensures !Whole(job, halves, k)
  {
  }

  // ---- a mark that shows ------------------------------------------------------------------------------------------

  /** One step of one reader, whatever the bytes. */
  lemma Act(job: Job, s: State, a: Action) returns (t: State)
    requires WeightsFit(job) && Inv(job, s, false) && Step(job, s, a).Some?
    ensures Step(job, s, a) == Some(t) && Reaches(job, s, t) && Inv(job, t, false)
  {
    hide Inv, Step, Reaches;
    t := Step(job, s, a).value;
    StepKeepsInv(job, s, a, false);
    OneStep(job, s, a, t);
  }

  lemma ReaderCanActFrom(job: Job, s: State, r: nat) returns (a: Action)
    requires Shaped(s) && 1 <= r < |s.readers| && ReaderMoves(s, r)
    ensures Step(job, s, a).Some?
    ensures forall t :: Step(job, s, a) == Some(t) ==> |t.readers| == |s.readers| && t.readers[0] == s.readers[0]
  {
    hide Odd, Overlay, ShowsMagic;
    a := if ReceiveStep(s, r).Some? then Receive(r) else if ProceedStep(s, r).Some? then Proceed(r)
         else if CopyStep(s, r).Some? then Copy(r) else if RelayStep(s, r).Some? then Relay(r)
         else if HandStep(s, r).Some? then Hand(r) else Acknowledge(r);
  }

  /** All readers but the first go on until none of them can. */
  lemma {:induction false} DrainBelow(job: Job, s: State) returns (t: State)
    requires WeightsFit(job) && Inv(job, s, false)
    ensures Reaches(job, s, t) && Inv(job, t, false)
    ensures |t.readers| == |s.readers| > 0 && t.readers[0] == s.readers[0]
    ensures forall r: nat :: 1 <= r < |t.readers| ==> !ReaderMoves(t, r)
    decreases StepBound(job) - Progress(s)
  {
    hide Inv, Progress, StepBound, Step, Reaches, ReaderMoves;
    WellShaped(job, s);
    if r: nat :| 1 <= r < |s.readers| && ReaderMoves(s, r) {
      var a := ReaderCanActFrom(job, s, r);
      var mid := Act(job, s, a);
      StepsProgress(job, s, a);
      ProgressIsBounded(job, mid);
      t := DrainBelow(job, mid);
      Then(job, s, mid, t);
    } else {
      t := s;
      Stay(job, s);
    }
  }

  /** Rank 1 hands out bucket `k` while rank 2 has already marked it. */
  lemma MarkedWhileYielding(job: Job, s: State, k: nat)
    requires WeightsFit(job) && Inv(job, s, false) && |s.readers| > 1
    requires s.readers[0].phase == Yielding && s.readers[0].idx == k
    requires forall r: nat :: 1 <= r < |s.readers| ==> !ReaderMoves(s, r)
    requires !Looks(job, k)
    ensures !YieldsExactly(job, s)
  {
    hide SenderInv, GateInv, AllLook, ReaderMoves, ShowsMagic, Looks, Whole;
    StuckFromBelow(job, s, 1);
    assert RankInv(job, s, 0, false) && RankInv(job, s, 1, false);
    assert Marked(s.halves[1], k);
    if Whole(job, s.halves[1], k) {
      ShownBucketLooks(job, s.halves[1], k);
    }
  }

  /** Rank 1 takes the bucket that was announced, copies it and passes it on. */
  lemma TakeAndPassOn(job: Job, s: State, k: nat) returns (t: State)
    requires WeightsFit(job) && Inv(job, s, false) && s.readers[0].phase == Receiving && s.readers[0].idx == k
    requires s.queues[0] != [] && (|s.readers| > 1 ==> ShowsMagic(s.halves[1][Odd(k)]))
    ensures Reaches(job, s, t) && Inv(job, t, false) && t.readers[0].phase == Yielding && t.readers[0].idx == k
  {
    hide Inv, ShowsMagic, Odd, Overlay, Reaches;
    WellShaped(job, s);
    var s1 := Act(job, s, Receive(0));
    Stay(job, s1);
    var s2 := s1;
    if s1.readers[0].phase == Blocked {
      s2 := Act(job, s1, Proceed(0));
    }
    WellShaped(job, s2);
    CopyMoves(job, s2, 0);
    var s3 := Act(job, s2, Copy(0));
    WellShaped(job, s3);
    t := Act(job, s3, Relay(0));
    Then(job, s, s1, s2);
    Then(job, s, s2, s3);
    Then(job, s, s3, t);
  }

  lemma MarkShows(job: Job, k: nat)
    requires WeightsFit(job) && job.readers > 1 && k < job.Count() && !Looks(job, k)
    ensures !AlwaysYieldsExactly(job)
  {
    hide Inv, SenderInv, Reaches, ShowsMagic, Looks, Ready, MagicHalves, Init, Run, ReaderMoves, YieldsExactly, Odd;
    var s0 := DriveTo(job, k);
    ReadyRing(job, s0, k);
    ReaderIsReceiving(job, s0, k);
    ReadyShows(job, s0, k, 1);
    ReadyHolds(job, s0, k);
    var s1, p1, own1 :=
      FillAndAnnounce(job, s0, s0.sender, s0.readers[0], [], s0.halves[0], s0.halves[1], k);
    var s2 := TakeAndPassOn(job, s1, k);
    WellShaped(job, s2);
    var s3 := DrainBelow(job, s2);
    WellShaped(job, s3);
    MarkedWhileYielding(job, s3, k);
    Then(job, Init(job, MagicHalves(job)), s0, s1);
    Then(job, Init(job, MagicHalves(job)), s1, s2);
    Then(job, Init(job, MagicHalves(job)), s2, s3);
    var schedule := ReachedState(job, s3);
  }

  lemma ReadyHolds(job: Job, s: State, k: nat)
    requires Ready(job, s, k)
    ensures Inv(job, s, false)
  {
  }

  // ---- the exact condition ----------------------------------------------------------------------------------------

  /** In every run, whatever the buffers held before, every rank hands exactly the sent bytes to its consumer,
      exactly when no bucket can do harm and either there is one receiving rank or every bucket looks acknowledged. */
  lemma YieldsAreExactIff(job: Job)
    requires WeightsFit(job)
    ensures AlwaysYieldsExactly(job) <==> Harmless(job) && MarksDoNotShow(job)
  {
    hide Harmless, AlwaysYieldsExactly, Looks, AlwaysExact;
    TransfersAreExactIff(job);
    if !AlwaysExact(job) {
      SomeYieldIsWrong(job);
    } else if MarksDoNotShow(job) {
      AllYieldsAreRight(job);
    } else {
      var k: nat :| k < job.Count() && !Looks(job, k);
      MarkShows(job, k);
    }
  }

  lemma SomeYieldIsWrong(job: Job)
    requires WeightsFit(job) && !AlwaysExact(job)
    ensures !AlwaysYieldsExactly(job)
  {
    hide Run, Init, Exact, AlwaysYieldsExactly;
    var halves, schedule :| AnyHalves(job, halves) && Run(job, Init(job, halves), schedule).Some?
      && !Exact(job, Run(job, Init(job, halves), schedule).value);
    WrongCopyIsYielded(job, halves, schedule);
  }

  lemma AllYieldsAreRight(job: Job)
    requires WeightsFit(job) && Harmless(job) && MarksDoNotShow(job)
    ensures AlwaysYieldsExactly(job)
  {
    hide Harmless, MarksDoNotShow, Run, Init, Whole;
    forall halves, schedule | AnyHalves(job, halves) && Run(job, Init(job, halves), schedule).Some?
      ensures YieldsExactly(job, Run(job, Init(job, halves), schedule).value)
    {
      RunKeepsCopies(job, halves, schedule);
    }
  }
}
