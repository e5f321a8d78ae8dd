// From a rollout's token IDs to its scores: split the decoded text, align the steps to tokens, build the answer probe,
// score both ways.

module RolloutPipeline {
  import opened Common
  import opened Spans
  import opened MaskedProbe
  import opened TokenMapping
  import opened AnswerProbes
  import opened RolloutScoring
  import TextLines
  import StepSpans
  import StepSplitter

  /** What the tokenizer does: to the response, where special tokens are left out, and to the probe. */
  datatype Tokenizer = Tokenizer(decode: Decoder, encodeProbe: Encoder, decodeProbe: Decoder)

  datatype RolloutError = ProbeFailed(probe: ProbeError) | ScoringFailed(scoring: ScoringError)

  type Scores = Result<Computation, RolloutError>

  function Wrapped(r: Result<Computation, ScoringError>): (s: Scores)
    ensures s.Ok? <==> r.Ok?
    ensures r.Ok? ==> s.value == r.value
  {
    match r
    case Ok(c) => Ok(c)
    case Err(e) => Err(ScoringFailed(e))
  }

  /** The steps of the response that are scored. */
  method ReasoningSteps(cues: StepSpans.Cues, decode: Decoder, disclosure: Disclosure, response: seq<int>)
    returns (spans: seq<Span>, steps: seq<TokenStep>)
    requires TextLines.LineMachine(cues.step) && StepSplitter.CuesFit(cues) && decode([]) == ""
    ensures spans == [] || Partitions(spans, decode(response))
    ensures spans == [] <==> StepSplitter.OnlyBreaksBefore(cues, decode(response), |decode(response)|)
    ensures forall k :: 0 < k < |spans| ==> StepSpans.StepMayStart(cues.step, decode(response), spans[k].start)
    ensures forall k :: 0 < k < |spans| ==> StepSplitter.StepFollows(cues, decode(response), spans[k].start)
    ensures Contiguous(steps, |response|) && AreReasoningSteps(steps, spans, decode, disclosure, response)
  {
    spans := StepSplitter.SplitSemanticHybrid(cues, decode(response));
    var mapped := MapResponseSteps(decode, response, spans);
    steps := ReasoningStepsBeforeAnswer(mapped.value, disclosure);
    ReasoningStepsAreAPrefix(mapped.value, |response|, disclosure);
  }

  /** The computation is the scoring of the Teacher's values with a probe that ends in the answer. */
  ghost predicate ScoredByProbe<S>(
    t: Teacher<S>, tokenizer: Tokenizer, prompt: seq<int>, response: seq<int>, steps: seq<TokenStep>, answer: string,
    w: Weighting, c: Computation)
    requires Contiguous(steps, |response|)
  {
    exists probe ::
      && (steps == [] || ProbeFits(tokenizer.encodeProbe, tokenizer.decodeProbe, answer, probe))
      && Scored(c, BoundaryValues(Asking(t), prompt, response, steps, probe), steps, |response|, w)
  }

  /** The whole way of one rollout. The probe is built, and can fail, only if there are steps to score; then both
      computations fail alike with the first check that fails. Otherwise the batched computation succeeds, and the
      packed one returns the same, unless the prompt is empty or the first token of the probe is scored itself. */
  method ScoreRollout<S>(
    t: Teacher<S>, cues: StepSpans.Cues, tokenizer: Tokenizer, disclosure: Disclosure,
    prompt: seq<int>, response: seq<int>, answer: string, w: Weighting, batchSize: int)
    returns (spans: seq<Span>, steps: seq<TokenStep>, fast: Scores, batched: Scores)
    requires TextLines.LineMachine(cues.step) && StepSplitter.CuesFit(cues)
    requires tokenizer.decode([]) == "" && w.beta > 0.0 && 1 <= batchSize <= 8
    ensures spans == [] || Partitions(spans, tokenizer.decode(response))
    ensures spans == [] <==>
              StepSplitter.OnlyBreaksBefore(cues, tokenizer.decode(response), |tokenizer.decode(response)|)
    ensures forall k :: 0 < k < |spans| ==>
              StepSpans.StepMayStart(cues.step, tokenizer.decode(response), spans[k].start)
    ensures forall k :: 0 < k < |spans| ==>
              StepSplitter.StepFollows(cues, tokenizer.decode(response), spans[k].start)
    ensures Contiguous(steps, |response|) && AreReasoningSteps(steps, spans, tokenizer.decode, disclosure, response)
    ensures batched.Ok? <==> steps == [] || ProbeCheck(tokenizer.encodeProbe, tokenizer.decodeProbe, answer).None?
    ensures fast.Ok? <==>
              batched.Ok?
              && (steps == []
                  || (prompt != [] && !FirstTokenIsScored(tokenizer.encodeProbe, tokenizer.decodeProbe, answer)))
    ensures fast.Ok? ==> fast == batched
    ensures batched.Err? ==>
              && ProbeCheck(tokenizer.encodeProbe, tokenizer.decodeProbe, answer).Some?
              && fast == batched
              && batched.error == ProbeFailed(ProbeCheck(tokenizer.encodeProbe, tokenizer.decodeProbe, answer).value)
    ensures batched.Ok? && fast.Err? ==> fast.error.ScoringFailed? && fast.error.scoring.BadLayout?
    ensures batched.Ok? ==> ScoredByProbe(t, tokenizer, prompt, response, steps, answer, w, batched.value)
    ensures batched.Ok? && Saturating(w) ==> Reports(batched.value, steps, w)
  {
    hide Scoreable, ProbeFits, ProbeCheck, FirstTokenIsScored, Contiguous, Scored, BoundaryValues, AreReasoningSteps,
         StepSplitter.StepFollows, Saturating, Reports;
    spans, steps := ReasoningSteps(cues, tokenizer.decode, disclosure, response);
    var probe := AnswerProbe([], []);
    if steps != [] {
      var built := BuildAnswerProbe(tokenizer.encodeProbe, tokenizer.decodeProbe, answer);
      if built.Err? {
        fast, batched := Err(ProbeFailed(built.error)), Err(ProbeFailed(built.error));
        return;
      }
      probe := built.value;
      ScoreableProbe(tokenizer.encodeProbe, tokenizer.decodeProbe, answer, probe);
    }
    var packed, separate := ScoreStepsBothWays(t, prompt, response, steps, probe, w, batchSize);
    fast, batched := Wrapped(packed), Wrapped(separate);
    assert steps == [] || ProbeFits(tokenizer.encodeProbe, tokenizer.decodeProbe, answer, probe);
  }

  lemma ScoreableProbe(encode: Encoder, decode: Decoder, answer: string, probe: AnswerProbe)
    requires ProbeFits(encode, decode, answer, probe)
    requires ProbeCheck(encode, decode, answer).None?
    ensures Scoreable(probe) <==> !FirstTokenIsScored(encode, decode, answer)
  {
    var offsets := OffsetsOf(encode, decode, ProbeText(answer)).value;
    var p :| 0 <= p < |offsets| && Overlaps(offsets[p], |PROBE_PREFIX|, |PROBE_PREFIX| + |answer|);
    assert p in probe.answerPositions;
    ScoreableIff(probe, offsets, |PROBE_PREFIX|, |PROBE_PREFIX| + |answer|);
  }
}
