// Per-rollout outcome-aware weights, computed by one teacher call per boundary or by one packed call.

module RolloutScoring {
  import opened Common
  import opened Spans
  import opened Attention
  import opened MaskedProbe
  import opened TokenMapping

  /** What awaiting one teacher call can give. */
  datatype Reply = Score(value: real) | NonFinite | Raised

  datatype Computation = Computation(
    tokenWeights: seq<real>, numSteps: nat, activeSteps: nat, probeFailures: nat,
    values: seq<Option<real>>, deltas: seq<Option<real>>)

  datatype ScoringError = BadBeta | BadBatchSize | BadLayout(cause: LayoutError) | WrongValueCount

  /** `saturation(x)` stands for the computed value of 1 - exp(-x). */
  datatype Weighting = Weighting(tau: real, beta: real, saturation: real -> real)

  const LARGEST_FLOAT32_BELOW_ONE: real := 16777215.0 / 16777216.0

  function InterventionWeight(w: Weighting, delta: real): (r: real) {
    var margin := if w.tau - delta > 0.0 then w.tau - delta else 0.0;
    if margin <= 0.0 then 0.0
    else
      var weight := w.saturation(w.beta * margin);
      if weight < LARGEST_FLOAT32_BELOW_ONE then weight else LARGEST_FLOAT32_BELOW_ONE
  }

  /** All that is assumed of the computed exponential: between 0 and 1 on positive arguments (1 included,
      because it may round up), and not decreasing. */
  ghost predicate Saturating(w: Weighting) {
    && w.beta > 0.0
    && (forall x :: x > 0.0 ==> 0.0 < w.saturation(x) <= 1.0)
    && (forall x, y :: 0.0 < x <= y ==> w.saturation(x) <= w.saturation(y))
  }

  /** Weights stay in [0, 1), are positive exactly below tau, and never grow with the delta. */
  lemma WeightShape(w: Weighting, delta: real, larger: real)
    requires Saturating(w) && delta <= larger
    ensures 0.0 <= InterventionWeight(w, delta) < 1.0
    ensures InterventionWeight(w, delta) > 0.0 <==> delta < w.tau
    ensures InterventionWeight(w, larger) <= InterventionWeight(w, delta)
  {
    var m, n := w.tau - delta, w.tau - larger;
    if m > 0.0 {
      assert w.beta * m > 0.0;
      if n > 0.0 {
        assert w.beta * m - w.beta * n == w.beta * (larger - delta) >= 0.0;
        assert w.beta * n > 0.0;
        assert 0.0 < w.beta * n <= w.beta * m;
      }
    }
  }

  // ---- the result as a function of the boundary values -----------------------------------------

  function DeltaOf(values: seq<Option<real>>, k: nat): (r: Option<real>)
    requires k + 1 < |values|
  {
    if values[k].None? || values[k + 1].None? then None else Some(values[k + 1].value - values[k].value)
  }

  function StepWeight(values: seq<Option<real>>, k: nat, w: Weighting): (r: real)
    requires k + 1 < |values|
  {
    var delta := DeltaOf(values, k);
    if delta.None? then 0.0 else InterventionWeight(w, delta.value)
  }

  function Actives(values: seq<Option<real>>, n: nat, w: Weighting): (r: nat)
    requires n < |values| || n == 0
  {
    if n == 0 then 0 else Actives(values, n - 1, w) + if StepWeight(values, n - 1, w) > 0.0 then 1 else 0
  }

  function Failures(values: seq<Option<real>>): (r: nat) {
    if values == [] then 0 else Failures(values[..|values| - 1]) + if values[|values| - 1].None? then 1 else 0
  }

  /** The tokens of the first `n` steps carry their step's weight and every other token carries zero. */
  ghost predicate WeightsFollowSteps(
    weights: seq<real>, values: seq<Option<real>>, steps: seq<TokenStep>, n: nat, w: Weighting)
    requires n <= |steps| && (n < |values| || n == 0)
  {
    && (forall k, i :: 0 <= k < n && 0 <= i < |weights| && steps[k].tokenStart <= i < steps[k].tokenEnd ==>
          weights[i] == StepWeight(values, k, w))
    && (forall i :: 0 <= i < |weights| && StepStart(steps, n) <= i ==> weights[i] == 0.0)
  }

  /** `c` is the result of scoring `steps` over a response of `responseLength` tokens with these values. */
  ghost predicate Scored(
    c: Computation, values: seq<Option<real>>, steps: seq<TokenStep>, responseLength: nat, w: Weighting)
  {
    && |values| == (if steps == [] then 0 else |steps| + 1)
    && c.values == values
    && c.numSteps == |steps| == |c.deltas|
    && (forall k :: 0 <= k < |steps| ==> c.deltas[k] == DeltaOf(values, k))
    && c.activeSteps == Actives(values, |steps|, w)
    && c.probeFailures == Failures(values)
    && |c.tokenWeights| == responseLength
    && WeightsFollowSteps(c.tokenWeights, values, steps, |steps|, w)
  }

  /** The step that owns token `i` among the first `n`. */
  ghost function StepOwning(steps: seq<TokenStep>, n: nat, i: int, responseLength: nat): (k: nat)
    requires Contiguous(steps, responseLength) && n <= |steps| && 0 <= i < StepStart(steps, n)
    ensures k < n && steps[k].tokenStart <= i < steps[k].tokenEnd
  {
    assert n > 0 && StepFits(steps, n - 1, responseLength);
    if steps[n - 1].tokenStart <= i then n - 1 else StepOwning(steps, n - 1, i, responseLength)
  }

  /** The boundary values determine the whole result. */
  lemma ScoredIsUnique(
    c: Computation, d: Computation, values: seq<Option<real>>, steps: seq<TokenStep>, responseLength: nat,
    w: Weighting)
    requires Contiguous(steps, responseLength)
    requires Scored(c, values, steps, responseLength, w) && Scored(d, values, steps, responseLength, w)
    ensures c == d
  {
    assert c.deltas == d.deltas;
    forall i | 0 <= i < responseLength ensures c.tokenWeights[i] == d.tokenWeights[i] {
      if i < StepStart(steps, |steps|) {
        var k := StepOwning(steps, |steps|, i, responseLength);
        assert c.tokenWeights[i] == StepWeight(values, k, w);
      }
    }
    assert c.tokenWeights == d.tokenWeights;
  }

  // ---- what the weights say about the values ------------------------------------------------------

  ghost predicate BothThere(c: Computation, k: nat) {
    k + 1 < |c.values| && c.values[k].Some? && c.values[k + 1].Some?
  }

  ghost predicate StepIsActive(c: Computation, steps: seq<TokenStep>, k: nat) {
    k < |steps| && forall i :: 0 <= i < |c.tokenWeights| && steps[k].tokenStart <= i < steps[k].tokenEnd ==>
      c.tokenWeights[i] > 0.0
  }

  /** A token weighs something exactly if the value after its step is below the value before it plus tau, and then as
      much as the shortfall saturates to, up to the largest float below one. */
  ghost predicate ShowsShortfall(c: Computation, k: nat, weight: real, w: Weighting) {
    if BothThere(c, k) && c.values[k + 1].value < c.values[k].value + w.tau then
      var weighed := w.saturation(w.beta * (c.values[k].value + w.tau - c.values[k + 1].value));
      0.0 < weight < 1.0 && weight == if weighed < LARGEST_FLOAT32_BELOW_ONE then weighed else LARGEST_FLOAT32_BELOW_ONE
    else weight == 0.0
  }

  ghost function MissingAt(values: seq<Option<real>>): (r: set<nat>) {
    set k: nat | k < |values| && values[k].None?
  }

  /** What a computation reports, in terms of its values and its weights. */
  ghost predicate Reports(c: Computation, steps: seq<TokenStep>, w: Weighting) {
    && |c.values| == (if steps == [] then 0 else |steps| + 1) && |c.deltas| == |steps|
    && (forall k: nat :: k < |steps| ==>
          c.deltas[k] == if BothThere(c, k) then Some(c.values[k + 1].value - c.values[k].value) else None)
    && (forall k: nat, i :: k < |steps| && 0 <= i < |c.tokenWeights| && steps[k].tokenStart <= i < steps[k].tokenEnd ==>
          ShowsShortfall(c, k, c.tokenWeights[i], w))
    && c.activeSteps == |set k: nat | k < |steps| && StepIsActive(c, steps, k)|
    && c.probeFailures == |MissingAt(c.values)|
  }

  lemma {:induction false} FailuresAreCounted(values: seq<Option<real>>)
    ensures Failures(values) == |MissingAt(values)|
  {
    if values != [] {
      var n := |values| - 1;
      FailuresAreCounted(values[..n]);
      if values[n].None? {
        assert MissingAt(values) == MissingAt(values[..n]) + {n};
      } else {
        assert MissingAt(values) == MissingAt(values[..n]);
      }
    }
  }

  lemma {:induction false} ActivesAreCounted(values: seq<Option<real>>, n: nat, w: Weighting)
    requires n < |values| || n == 0
    ensures Actives(values, n, w) == |set k: nat | k < n && StepWeight(values, k, w) > 0.0|
  {
    hide StepWeight;
    if n > 0 {
      ActivesAreCounted(values, n - 1, w);
      var before := set k: nat | k < n - 1 && StepWeight(values, k, w) > 0.0;
      var here: set<nat> := if StepWeight(values, n - 1, w) > 0.0 then {n - 1} else {};
      assert (set k: nat | k < n && StepWeight(values, k, w) > 0.0) == before + here;
    }
  }

  lemma WeightShows(c: Computation, k: nat, w: Weighting)
    requires Saturating(w) && k + 1 < |c.values|
    ensures ShowsShortfall(c, k, StepWeight(c.values, k, w), w)
  {
    if BothThere(c, k) {
      var delta := c.values[k + 1].value - c.values[k].value;
      WeightShape(w, delta, delta);
      assert w.tau - delta == c.values[k].value + w.tau - c.values[k + 1].value;
    }
  }

  lemma ActiveIs(
    c: Computation, values: seq<Option<real>>, steps: seq<TokenStep>, responseLength: nat, w: Weighting, k: nat)
    requires Contiguous(steps, responseLength) && Scored(c, values, steps, responseLength, w) && k < |steps|
    ensures StepIsActive(c, steps, k) <==> StepWeight(values, k, w) > 0.0
  {
    hide StepWeight, Actives, Failures, DeltaOf;
    assert StepFits(steps, k, responseLength);
    assert c.tokenWeights[steps[k].tokenStart] == StepWeight(values, k, w);
  }

  lemma ScoredReports(
    c: Computation, values: seq<Option<real>>, steps: seq<TokenStep>, responseLength: nat, w: Weighting)
    requires Contiguous(steps, responseLength) && Scored(c, values, steps, responseLength, w)
    ensures Saturating(w) ==> Reports(c, steps, w)
  {
    if Saturating(w) {
      ScoredCounts(c, values, steps, responseLength, w);
      ScoredWeights(c, values, steps, responseLength, w);
      hide Saturating, ShowsShortfall, StepWeight, StepIsActive, Actives, Failures, Contiguous, WeightsFollowSteps;
    }
  }

  lemma ScoredCounts(
    c: Computation, values: seq<Option<real>>, steps: seq<TokenStep>, responseLength: nat, w: Weighting)
    requires Contiguous(steps, responseLength) && Scored(c, values, steps, responseLength, w)
    ensures c.activeSteps == |set k: nat | k < |steps| && StepIsActive(c, steps, k)|
    ensures c.probeFailures == |MissingAt(c.values)|
  {
    hide StepWeight, StepIsActive, WeightsFollowSteps, Contiguous, DeltaOf, Actives, Failures;
    FailuresAreCounted(values);
    ActivesAreCounted(values, |steps|, w);
    forall k: nat | k < |steps| ensures StepIsActive(c, steps, k) <==> StepWeight(values, k, w) > 0.0 {
      ActiveIs(c, values, steps, responseLength, w, k);
    }
    assert (set k: nat | k < |steps| && StepIsActive(c, steps, k))
        == (set k: nat | k < |steps| && StepWeight(values, k, w) > 0.0);
  }

  lemma ScoredWeights(
    c: Computation, values: seq<Option<real>>, steps: seq<TokenStep>, responseLength: nat, w: Weighting)
    requires Scored(c, values, steps, responseLength, w) && Saturating(w)
    ensures forall k: nat, i :: k < |steps| && 0 <= i < |c.tokenWeights| && steps[k].tokenStart <= i < steps[k].tokenEnd ==>
              ShowsShortfall(c, k, c.tokenWeights[i], w)
  {
    hide Saturating, ShowsShortfall, StepWeight, Actives, Failures, DeltaOf;
    forall k: nat | k < |steps| ensures ShowsShortfall(c, k, StepWeight(values, k, w), w) {
      WeightShows(c, k, w);
    }
  }

  /** A higher value after a step or a lower one before it never makes its tokens weigh more. */
  lemma HelpNeverCosts(c: Computation, d: Computation, steps: seq<TokenStep>, w: Weighting, k: nat, i: nat)
    requires Saturating(w) && Reports(c, steps, w) && Reports(d, steps, w)
    requires k < |steps| && steps[k].tokenStart <= i < steps[k].tokenEnd && i < |c.tokenWeights| && i < |d.tokenWeights|
    requires BothThere(c, k) && BothThere(d, k)
    requires c.values[k + 1].value <= d.values[k + 1].value && d.values[k].value <= c.values[k].value
    ensures d.tokenWeights[i] <= c.tokenWeights[i]
  {
    hide StepIsActive;
    assert ShowsShortfall(c, k, c.tokenWeights[i], w) && ShowsShortfall(d, k, d.tokenWeights[i], w);
    ShortfallShape(w, d.values[k].value + w.tau - d.values[k + 1].value, c.values[k].value + w.tau - c.values[k + 1].value);
  }

  lemma ShortfallShape(w: Weighting, less: real, more: real)
    requires Saturating(w) && less <= more
    ensures less > 0.0 ==> w.saturation(w.beta * less) <= w.saturation(w.beta * more)
  {
    if less > 0.0 {
      Scales(w.beta, less, more);
    }
  }

  lemma Scales(beta: real, less: real, more: real)
    requires beta > 0.0 && 0.0 < less <= more
    ensures 0.0 < beta * less <= beta * more
  {
    var gap := more - less;
    assert beta * gap >= 0.0;
    assert beta * more == beta * less + beta * gap;
  }

  lemma FailuresMore(values: seq<Option<real>>, value: Option<real>)
    ensures Failures(values + [value]) == Failures(values) + if value.None? then 1 else 0
    ensures Failures([]) == 0
  {
    assert (values + [value])[..|values|] == values;
  }

  lemma NothingToScore(responseLength: nat, w: Weighting)
    ensures var c := Computation(seq(responseLength, i => 0.0), 0, 0, 0, [], []);
            Scored(c, [], [], responseLength, w) && (Saturating(w) ==> Reports(c, [], w))
  {
    ScoredReports(Computation(seq(responseLength, i => 0.0), 0, 0, 0, [], []), [], [], responseLength, w);
  }

  method WeighTokens(weights: array<real>, from: int, to: int, weight: real)
    requires 0 <= from <= to <= weights.Length
    modifies weights
    ensures forall j :: 0 <= j < weights.Length ==> weights[j] == if from <= j < to then weight else old(weights[j])
  {
    for i := from to to
      invariant forall j :: 0 <= j < weights.Length ==> weights[j] == if from <= j < i then weight else old(weights[j])
    {
      weights[i] := weight;
    }
  }

  /** The loop that both implementations run once the boundary values are known. */
  method WeighSteps(
    values: seq<Option<real>>, failures: nat, steps: seq<TokenStep>, responseLength: nat, w: Weighting)
    returns (c: Computation)
    requires steps != [] && |values| == |steps| + 1 && failures == Failures(values)
    requires Contiguous(steps, responseLength)
    ensures Scored(c, values, steps, responseLength, w) && (Saturating(w) ==> Reports(c, steps, w))
  {
    hide Saturating, Reports;
    var weights := new real[responseLength](i => 0.0);
    var active := 0;
    var deltas: seq<Option<real>> := [];
    for k := 0 to |steps|
      invariant |deltas| == k && forall j :: 0 <= j < k ==> deltas[j] == DeltaOf(values, j)
      invariant active == Actives(values, k, w)
      invariant WeightsFollowSteps(weights[..], values, steps, k, w)
    {
      assert StepFits(steps, k, responseLength);
      var before, after := values[k], values[k + 1];
      if before.None? || after.None? {
        deltas := deltas + [None];
        EarlierStepsEndBefore(steps, k, responseLength);
        continue;
      }
      var delta := after.value - before.value;
      deltas := deltas + [Some(delta)];
      var weight := InterventionWeight(w, delta);
      if weight > 0.0 {
        active := active + 1;
      }
      EarlierStepsEndBefore(steps, k, responseLength);
      WeighTokens(weights, steps[k].tokenStart, steps[k].tokenEnd, weight);
    }
    c := Computation(weights[..], |steps|, active, failures, values, deltas);
    ScoredReports(c, values, steps, responseLength, w);
  }

  lemma {:induction false} EarlierStepsEndBefore(steps: seq<TokenStep>, n: nat, responseLength: nat)
    requires Contiguous(steps, responseLength) && n <= |steps|
    ensures forall k :: 0 <= k < n ==> steps[k].tokenEnd <= StepStart(steps, n)
  {
    if n > 0 {
      EarlierStepsEndBefore(steps, n - 1, responseLength);
      assert StepFits(steps, n - 1, responseLength);
    }
  }

  // ---- one teacher call per boundary -------------------------------------------------------------

  type ProbeTeacher = (seq<int>, seq<int>) -> Reply

  function ValueOf(reply: Reply): (r: Option<real>) {
    if reply.Score? then Some(reply.value) else None
  }

  /** The reply to the probe that follows the first `end` response tokens. */
  function ProbeReply(
    teacher: ProbeTeacher, prompt: seq<int>, response: seq<int>, probe: AnswerProbe, end: int): (r: Reply)
    requires 0 <= end <= |response|
  {
    var prefix := prompt + response[..end];
    teacher(prefix + probe.tokenIds, ShiftBy(probe.answerPositions, |prefix|))
  }

  function BoundaryValues(
    teacher: ProbeTeacher, prompt: seq<int>, response: seq<int>, steps: seq<TokenStep>, probe: AnswerProbe)
    : (r: seq<Option<real>>)
    requires Contiguous(steps, |response|)
  {
    seq(if steps == [] then 0 else |steps| + 1, k requires 0 <= k <= |steps| =>
      ValueOf(ProbeReply(teacher, prompt, response, probe, Boundary(steps, k, |response|))))
  }

  /** Batches of at most eight concurrent probes; a failed probe becomes a missing value. The result does
      not depend on the batch size. */
  method ComputeOaOpd(
    teacher: ProbeTeacher, prompt: seq<int>, response: seq<int>, steps: seq<TokenStep>, probe: AnswerProbe,
    w: Weighting, batchSize: int)
    returns (r: Result<Computation, ScoringError>)
    requires Contiguous(steps, |response|)
    ensures r.Ok? <==> w.beta > 0.0 && 1 <= batchSize <= 8
    ensures w.beta <= 0.0 ==> r == Err(BadBeta)
    ensures r.Ok? ==>
              Scored(r.value, BoundaryValues(teacher, prompt, response, steps, probe), steps, |response|, w)
    ensures r.Ok? && Saturating(w) ==> Reports(r.value, steps, w)
  {
    hide Scored, Failures, Reports, Saturating;
    if w.beta <= 0.0 {
      return Err(BadBeta);
    }
    if !(1 <= batchSize <= 8) {
      return Err(BadBatchSize);
    }
    if steps == [] {
      NothingToScore(|response|, w);
      assert BoundaryValues(teacher, prompt, response, steps, probe) == [];
      return Ok(Computation(seq(|response|, i => 0.0), 0, 0, 0, [], []));
    }
    ghost var expected := BoundaryValues(teacher, prompt, response, steps, probe);
    var values: seq<Option<real>>, failures := [], 0;
    FailuresMore(values, None);
    var start := 0;
    while start < |steps| + 1
      invariant 0 <= start && |values| == (if start < |steps| + 1 then start else |steps| + 1)
      invariant values <= expected && failures == Failures(values)
      decreases |steps| + 1 - start
    {
      var stop := if start + batchSize < |steps| + 1 then start + batchSize else |steps| + 1;
      var replies: seq<Reply> := [];
      for k := start to stop
        invariant |replies| == k - start
        invariant forall j :: 0 <= j < |replies| ==> ValueOf(replies[j]) == expected[start + j]
      {
        replies := replies + [ProbeReply(teacher, prompt, response, probe, Boundary(steps, k, |response|))];
      }
      for j := 0 to |replies|
        invariant |values| == start + j && values <= expected && failures == Failures(values)
      {
        var value := ValueOf(replies[j]);
        if value.None? {
          failures := failures + 1;
        }
        FailuresMore(values, value);
        values := values + [value];
      }
      start := start + batchSize;
    }
    assert values == expected;
    var c := WeighSteps(values, failures, steps, |response|, w);
    return Ok(c);
  }

  // ---- one packed teacher call -------------------------------------------------------------------

  /** The packed call returns one float per branch; a missing value stands for a float that is not finite. */
  type PackedTeacher = Layout -> seq<Option<real>>

  method ReadValues(rawValues: seq<Option<real>>) returns (values: seq<Option<real>>, failures: nat)
    ensures values == rawValues && failures == Failures(rawValues)
  {
    values, failures := [], 0;
    for j := 0 to |rawValues|
      invariant values == rawValues[..j] && failures == Failures(values)
    {
      if rawValues[j].None? {
        failures := failures + 1;
      }
      assert rawValues[..j + 1][..j] == rawValues[..j];
      values := values + [rawValues[j]];
    }
    assert rawValues[..|rawValues|] == rawValues;
  }

  method ComputeFastOaOpd(
    teacher: PackedTeacher, prompt: seq<int>, response: seq<int>, steps: seq<TokenStep>, probe: AnswerProbe,
    w: Weighting)
    returns (r: Result<Computation, ScoringError>, ghost sent: Layout)
    requires Contiguous(steps, |response|)
    ensures w.beta <= 0.0 <==> r == Err(BadBeta)
    ensures w.beta > 0.0 && r.Err? ==> r.error.BadLayout? || r.error.WrongValueCount?
    ensures w.beta > 0.0 && steps == [] ==> r.Ok? && Scored(r.value, [], steps, |response|, w)
    ensures w.beta > 0.0 && steps != [] ==>
              (r.Err? && r.error.BadLayout? <==> prompt == [] || !Scoreable(probe))
    ensures r.Ok? && steps != [] ==>
              && ValidLayout(sent) && Packs(sent, prompt, response, steps, probe)
              && Scored(r.value, teacher(sent), steps, |response|, w)
    ensures r == Err(WrongValueCount) ==>
              ValidLayout(sent) && Packs(sent, prompt, response, steps, probe) && |teacher(sent)| != |steps| + 1
    ensures r.Ok? && Saturating(w) ==> Reports(r.value, steps, w)
  {
    hide Scored, ValidLayout, Scoreable, Reports, Saturating;
    sent := Layout([], [], 0, []);
    if w.beta <= 0.0 {
      return Err(BadBeta), sent;
    }
    if steps == [] {
      NothingToScore(|response|, w);
      return Ok(Computation(seq(|response|, i => 0.0), 0, 0, 0, [], [])), sent;
    }
    var built := BuildMaskedProbeLayout(prompt, response, steps, probe);
    if built.Err? {
      return Err(BadLayout(built.error)), sent;
    }
    var layout := built.value;
    sent := layout;
    var rawValues := teacher(layout);
    if |rawValues| != |layout.branches| {
      return Err(WrongValueCount), sent;
    }
    var values, failures := ReadValues(rawValues);
    var c := WeighSteps(values, failures, steps, |response|, w);
    return Ok(c), sent;
  }

  // ---- the packed call refines the independent calls ----------------------------------------------

  /** A teacher that is a layered attention network: it scores each answer token from the state of the
      preceding row, its predictor. */
  datatype Teacher<!S> = Teacher(net: Net<S>, depth: nat, score: seq<(S, int)> -> Option<real>)

  function Predictions<S>(rows: seq<S>, ids: seq<int>, positions: seq<int>): (r: seq<(S, int)>)
    requires |rows| == |ids| && forall p :: p in positions ==> 0 < p < |ids|
  {
    seq(|positions|, i requires 0 <= i < |positions| =>
      assert positions[i] in positions; (rows[positions[i] - 1], ids[positions[i]]))
  }

  /** An ordinary causal call. Positions without a token or a predictor make the call fail. */
  function AskOne<S>(t: Teacher<S>, ids: seq<int>, positions: seq<int>): (r: Reply) {
    if exists p :: p in positions && !(0 < p < |ids|) then Raised
    else
      var value := t.score(Predictions(CausalStates(t.net, ids, t.depth), ids, positions));
      if value.None? then NonFinite else Score(value.value)
  }

  function Asking<S>(t: Teacher<S>): (r: ProbeTeacher) {
    (ids, positions) => AskOne(t, ids, positions)
  }

  /** A masked call: one score per branch. */
  function AskPacked<S>(t: Teacher<S>, layout: Layout): (r: seq<Option<real>>) {
    if !ValidLayout(layout) then []
    else
      seq(|layout.branches|, k requires 0 <= k < |layout.branches| =>
        assert ValidBranch(layout, k);
        t.score(Predictions(PackedStates(t.net, layout, t.depth), layout.sequenceIds, layout.branches[k].answerPositions)))
  }

  /** A row range that agrees with an independent run yields the same predictions. */
  lemma PredictionsAgree<S>(
    rows: seq<S>, ids: seq<int>, plainRows: seq<S>, plainIds: seq<int>, positions: seq<int>, m: nat,
    start: nat, plainStart: nat)
    requires |rows| == |ids| && |plainRows| == |plainIds| == plainStart + m && start + m <= |ids|
    requires rows[start..start + m] == plainRows[plainStart..]
    requires ids[start..start + m] == plainIds[plainStart..]
    requires forall p :: p in positions ==> 0 < p < m
    requires forall p :: p in ShiftBy(positions, start) ==> 0 < p < |ids|
    requires forall p :: p in ShiftBy(positions, plainStart) ==> 0 < p < |plainIds|
    ensures Predictions(rows, ids, ShiftBy(positions, start))
         == Predictions(plainRows, plainIds, ShiftBy(positions, plainStart))
  {
    forall i | 0 <= i < |positions|
      ensures 0 < positions[i] < m
      ensures rows[start + positions[i] - 1] == plainRows[plainStart + positions[i] - 1]
      ensures ids[start + positions[i]] == plainIds[plainStart + positions[i]]
    {
      var p := positions[i];
      assert p in positions;
      assert rows[start..start + m][p - 1] == plainRows[plainStart..][p - 1];
      assert ids[start..start + m][p] == plainIds[plainStart..][p];
    }
  }

  lemma BranchValueIsBoundaryValue<S>(
    t: Teacher<S>, layout: Layout, prompt: seq<int>, response: seq<int>, steps: seq<TokenStep>, probe: AnswerProbe,
    k: nat)
    requires ValidLayout(layout) && Packs(layout, prompt, response, steps, probe)
    requires Contiguous(steps, |response|) && Scoreable(probe) && k <= |steps|
    ensures AskPacked(t, layout)[k]
         == ValueOf(ProbeReply(Asking(t), prompt, response, probe, Boundary(steps, k, |response|)))
  {
    var b := layout.branches[k];
    assert ValidBranch(layout, k) && PacksBranch(layout, k, prompt, steps, probe);
    var ids := IndependentIds(prompt, response, steps, probe, k);
    var prefix := prompt + response[..Boundary(steps, k, |response|)];
    assert ids == prefix + probe.tokenIds;
    ShiftedPositions(probe.answerPositions, |prefix|, 0, |ids|);
    PackedBranchEqualsIndependentRun(t.net, layout, prompt, response, steps, probe, k, t.depth);
    PredictionsAgree(PackedStates(t.net, layout, t.depth), layout.sequenceIds, CausalStates(t.net, ids, t.depth), ids,
                     probe.answerPositions, |probe.tokenIds|, b.probeStart, |prefix|);
  }

  /** For every network, the one packed call returns the boundary values of the K+1 independent calls. */
  lemma PackedValuesAreBoundaryValues<S>(
    t: Teacher<S>, layout: Layout, prompt: seq<int>, response: seq<int>, steps: seq<TokenStep>, probe: AnswerProbe)
    requires ValidLayout(layout) && Packs(layout, prompt, response, steps, probe)
    requires Contiguous(steps, |response|) && Scoreable(probe) && steps != []
    ensures AskPacked(t, layout)
         == BoundaryValues(Asking(t), prompt, response, steps, probe)
  {
    forall k | 0 <= k <= |steps|
      ensures AskPacked(t, layout)[k]
           == BoundaryValues(Asking(t), prompt, response, steps, probe)[k]
    {
      BranchValueIsBoundaryValue(t, layout, prompt, response, steps, probe, k);
    }
  }

  lemma NoBoundaries<S>(t: Teacher<S>, prompt: seq<int>, response: seq<int>, probe: AnswerProbe)
    ensures BoundaryValues(Asking(t), prompt, response, [], probe) == []
  {
  }

  lemma BoundaryCount<S>(
    t: Teacher<S>, prompt: seq<int>, response: seq<int>, steps: seq<TokenStep>, probe: AnswerProbe)
    requires Contiguous(steps, |response|) && steps != []
    ensures |BoundaryValues(Asking(t), prompt, response, steps, probe)| == |steps| + 1
  {
  }

  /** The two implementations on the same steps and probe. For every network teacher, the packed result is the
      batched result, whatever the batch size; with steps to score, the packed path rejects exactly an empty prompt
      and a probe whose scored tokens lack a predictor inside the probe. */
  method ScoreStepsBothWays<S>(
    t: Teacher<S>, prompt: seq<int>, response: seq<int>, steps: seq<TokenStep>, probe: AnswerProbe, w: Weighting,
    batchSize: int)
    returns (fast: Result<Computation, ScoringError>, batched: Result<Computation, ScoringError>)
    requires Contiguous(steps, |response|) && w.beta > 0.0 && 1 <= batchSize <= 8
    ensures batched.Ok? && (fast.Ok? ==> fast == batched)
    ensures fast.Ok? <==> steps == [] || (prompt != [] && Scoreable(probe))
    ensures fast.Err? ==> fast.error.BadLayout?
    ensures batched.Ok? ==>
              Scored(batched.value, BoundaryValues(Asking(t), prompt, response, steps, probe), steps, |response|, w)
    ensures batched.Ok? && Saturating(w) ==> Reports(batched.value, steps, w)
  {
    hide Scored, BoundaryValues, Scoreable, ValidLayout, Reports, Saturating;
    batched := ComputeOaOpd(Asking(t), prompt, response, steps, probe, w, batchSize);
    ghost var sent;
    fast, sent := ComputeFastOaOpd(layout => AskPacked(t, layout), prompt, response, steps, probe, w);
    if steps == [] {
      NoBoundaries(t, prompt, response, probe);
      ScoredIsUnique(fast.value, batched.value, [], steps, |response|, w);
    } else if fast.Ok? || fast == Err(WrongValueCount) {
      PackedValuesAreBoundaryValues(t, sent, prompt, response, steps, probe);
      BoundaryCount(t, prompt, response, steps, probe);
      if fast.Ok? {
        ScoredIsUnique(fast.value, batched.value, AskPacked(t, sent), steps, |response|, w);
      }
    }
  }

  /** The reasoning steps before the answer among those that spans, tokens and decoder leave. */
  ghost predicate AreReasoningSteps(
    steps: seq<TokenStep>, spans: seq<Span>, decode: Decoder, disclosure: Disclosure, response: seq<int>)
  {
    if spans == [] then steps == []
    else
      exists all :: AreSteps(all, spans, decode, response, decode(response))
                    && steps == ReasoningStepsBeforeAnswer(all, disclosure)
  }

  /** The two implementations on one rollout, from its token IDs on. For every network teacher and every
      decoder, the packed result is the batched result, whatever the batch size; the packed path rejects
      only an empty prompt or a probe whose scored tokens lack a predictor inside the probe. */
  method ScoreRolloutBothWays<S>(
    t: Teacher<S>, decode: Decoder, spans: seq<Span>, disclosure: Disclosure,
    prompt: seq<int>, response: seq<int>, probe: AnswerProbe, w: Weighting, batchSize: int)
    returns (
      steps: seq<TokenStep>, fast: Result<Computation, ScoringError>, batched: Result<Computation, ScoringError>)
    requires decode([]) == "" && (spans == [] || Partitions(spans, decode(response)))
    requires w.beta > 0.0 && 1 <= batchSize <= 8
    ensures batched.Ok?
    ensures fast.Ok? ==> fast == batched
    ensures prompt != [] && Scoreable(probe) ==> fast.Ok?
    ensures fast.Err? ==> fast.error.BadLayout?
    ensures Contiguous(steps, |response|) && AreReasoningSteps(steps, spans, decode, disclosure, response)
    ensures batched.Ok? ==>
              Scored(batched.value, BoundaryValues(Asking(t), prompt, response, steps, probe), steps, |response|, w)
  {
    hide Scored, BoundaryValues, Scoreable;
    var mapped := MapResponseSteps(decode, response, spans);
    steps := ReasoningStepsBeforeAnswer(mapped.value, disclosure);
    ReasoningStepsAreAPrefix(mapped.value, |response|, disclosure);
    fast, batched := ScoreStepsBothWays(t, prompt, response, steps, probe, w, batchSize);
  }
}
