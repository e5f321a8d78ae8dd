// One masked sequence [prompt, response, probe_0, ..., probe_K] in place of K+1 teacher calls.

module MaskedProbe {
  import opened Common
  import opened Attention

  /** A response step aligned to character and token offsets of the decoded response. */
  datatype TokenStep = TokenStep(
    index: int, charStart: int, charEnd: int, tokenStart: int, tokenEnd: int, text: string)

  datatype AnswerProbe = AnswerProbe(tokenIds: seq<int>, answerPositions: seq<int>)

  datatype Branch = Branch(
    index: int, visiblePrefixEnd: int, probeStart: int, probeEnd: int, answerPositions: seq<int>)

  datatype Layout = Layout(
    sequenceIds: seq<int>, positionIds: seq<int>, originalLength: int, branches: seq<Branch>)

  datatype LayoutError =
    | EmptyPrompt
    | EmptyProbe
    | NoAnswerPosition
    | UnpredictedAnswer
    | BadStepIndex
    | BadStepInterval
    | StepGap
    | BadLength
    | BadOriginalPositions
    | BadBranch
    | BadBranchPositions
    | BadAnswerPosition
    | TrailingTokens

  // ---- what the layout is for -------------------------------------------------------------

  /** Step `k` carries its own number and starts where its predecessor ends. */
  ghost predicate StepFits(steps: seq<TokenStep>, k: int, responseLength: int)
    requires 0 <= k < |steps|
  {
    && steps[k].index == k
    && steps[k].tokenStart == StepStart(steps, k)
    && 0 <= steps[k].tokenStart < steps[k].tokenEnd <= responseLength
  }

  /** Numbered steps that start at response token zero and follow each other without a gap. */
  ghost predicate Contiguous(steps: seq<TokenStep>, responseLength: int) {
    forall k :: 0 <= k < |steps| ==> StepFits(steps, k, responseLength)
  }

  function StepStart(steps: seq<TokenStep>, k: int): (r: int)
    requires 0 <= k <= |steps|
  {
    if k == 0 then 0 else steps[k - 1].tokenEnd
  }

  /** Response boundary `k`: zero, or the token end of step `k - 1`. */
  function Boundary(steps: seq<TokenStep>, k: int, responseLength: nat): (r: nat)
    requires 0 <= k <= |steps| && Contiguous(steps, responseLength)
    ensures r == StepStart(steps, k) <= responseLength
  {
    assert k > 0 ==> StepFits(steps, k - 1, responseLength);
    StepStart(steps, k)
  }

  /** An answer probe whose scored tokens all have a predecessor inside the probe. */
  predicate Scoreable(probe: AnswerProbe) {
    && |probe.tokenIds| > 0
    && |probe.answerPositions| > 0
    && forall p :: p in probe.answerPositions ==> 0 < p < |probe.tokenIds|
  }

  function ShiftBy(positions: seq<int>, base: int): (r: seq<int>)
    ensures |r| == |positions| && forall i :: 0 <= i < |r| ==> r[i] == base + positions[i]
  {
    seq(|positions|, i requires 0 <= i < |positions| => base + positions[i])
  }

  /** Where branch `k` has to begin: right after what precedes it. */
  function BranchFloor(layout: Layout, k: int): (r: int)
    requires 0 <= k <= |layout.branches|
  {
    if k == 0 then layout.originalLength else layout.branches[k - 1].probeEnd
  }

  /** Branch `k` holds the probe at boundary `k`, at the positions of the sequence it stands for. */
  ghost predicate PacksBranch(
    layout: Layout, k: int, prompt: seq<int>, steps: seq<TokenStep>, probe: AnswerProbe)
    requires 0 <= k < |layout.branches| && k <= |steps|
  {
    var b := layout.branches[k];
    && b == Branch(k, |prompt| + StepStart(steps, k), BranchFloor(layout, k),
                   BranchFloor(layout, k) + |probe.tokenIds|,
                   ShiftBy(probe.answerPositions, BranchFloor(layout, k)))
    && 0 <= layout.originalLength <= b.probeStart
    && b.probeEnd <= |layout.sequenceIds| == |layout.positionIds|
    && layout.sequenceIds[b.probeStart..b.probeEnd] == probe.tokenIds
    && layout.positionIds[b.probeStart..b.probeEnd] == ShiftBy(Iota(|probe.tokenIds|), b.visiblePrefixEnd)
  }

  /** The original rollout first, at its own positions, and then `n` packed branches. */
  ghost predicate PacksFirst(
    layout: Layout, n: int, prompt: seq<int>, response: seq<int>, steps: seq<TokenStep>, probe: AnswerProbe)
  {
    && 0 <= n == |layout.branches| <= |steps| + 1
    && |layout.sequenceIds| == |layout.positionIds| == BranchFloor(layout, n)
    && layout.originalLength == |prompt| + |response| <= |layout.sequenceIds|
    && layout.sequenceIds[..layout.originalLength] == prompt + response
    && layout.positionIds[..layout.originalLength] == Iota(layout.originalLength)
    && (forall k :: 0 <= k < n ==> PacksBranch(layout, k, prompt, steps, probe))
  }

  /** One branch per boundary 0, end_0, ..., end_{K-1}. */
  ghost predicate Packs(
    layout: Layout, prompt: seq<int>, response: seq<int>, steps: seq<TokenStep>, probe: AnswerProbe)
  {
    PacksFirst(layout, |steps| + 1, prompt, response, steps, probe)
  }

  // ---- validation -------------------------------------------------------------------------

  predicate ValidBranch(layout: Layout, k: int)
    requires 0 <= k < |layout.branches| && |layout.sequenceIds| == |layout.positionIds|
  {
    var b := layout.branches[k];
    && b.index == k
    && b.probeStart == BranchFloor(layout, k)
    && 1 <= b.visiblePrefixEnd <= layout.originalLength <= b.probeStart < b.probeEnd <= |layout.sequenceIds|
    && (forall i :: b.probeStart <= i < b.probeEnd ==>
          layout.positionIds[i] == b.visiblePrefixEnd + (i - b.probeStart))
    && |b.answerPositions| > 0
    && forall p :: p in b.answerPositions ==> b.probeStart < p < b.probeEnd
  }

  predicate ValidLayout(layout: Layout) {
    && |layout.sequenceIds| == |layout.positionIds|
    && 1 <= layout.originalLength <= |layout.sequenceIds|
    && (forall i :: 0 <= i < layout.originalLength ==> layout.positionIds[i] == i)
    && (forall k :: 0 <= k < |layout.branches| ==> ValidBranch(layout, k))
    && BranchFloor(layout, |layout.branches|) == |layout.sequenceIds|
  }

  method ValidateMaskedProbeLayout(layout: Layout) returns (error: Option<LayoutError>)
    ensures error.None? <==> ValidLayout(layout)
  {
    var length := |layout.sequenceIds|;
    if length != |layout.positionIds| || !(1 <= layout.originalLength <= length) {
      return Some(BadLength);
    }
    if layout.positionIds[..layout.originalLength] != Iota(layout.originalLength) {
      assert exists i :: 0 <= i < layout.originalLength && layout.positionIds[i] != i;
      return Some(BadOriginalPositions);
    }
    assert forall i :: 0 <= i < layout.originalLength ==>
        layout.positionIds[i] == layout.positionIds[..layout.originalLength][i];
    var previousEnd := layout.originalLength;
    for k := 0 to |layout.branches|
      invariant previousEnd == BranchFloor(layout, k)
      invariant forall i :: 0 <= i < k ==> ValidBranch(layout, i)
    {
      var b := layout.branches[k];
      if b.index != k || b.probeStart != previousEnd {
        assert !ValidBranch(layout, k);
        return Some(BadBranch);
      }
      if !(1 <= b.visiblePrefixEnd <= layout.originalLength <= b.probeStart < b.probeEnd <= length) {
        assert !ValidBranch(layout, k);
        return Some(BadBranch);
      }
      if exists i :: b.probeStart <= i < b.probeEnd &&
           layout.positionIds[i] != b.visiblePrefixEnd + (i - b.probeStart) {
        assert !ValidBranch(layout, k);
        return Some(BadBranchPositions);
      }
      if |b.answerPositions| == 0 || exists p :: p in b.answerPositions && !(b.probeStart < p < b.probeEnd) {
        assert !ValidBranch(layout, k);
        return Some(BadAnswerPosition);
      }
      previousEnd := b.probeEnd;
    }
    if previousEnd != length {
      return Some(TrailingTokens);
    }
    return None;
  }

  // ---- building ---------------------------------------------------------------------------

  method CheckSteps(steps: seq<TokenStep>, responseLength: int) returns (error: Option<LayoutError>)
    ensures error.None? <==> Contiguous(steps, responseLength)
    ensures error.Some? ==> error.value in {BadStepIndex, BadStepInterval, StepGap}
  {
    var previousEnd := 0;
    for k := 0 to |steps|
      invariant previousEnd == StepStart(steps, k)
      invariant forall i :: 0 <= i < k ==> StepFits(steps, i, responseLength)
    {
      var step := steps[k];
      assert StepFits(steps, k, responseLength) <==>
        step.index == k && step.tokenStart == previousEnd && 0 <= step.tokenStart < step.tokenEnd <= responseLength;
      if step.index != k {
        return Some(BadStepIndex);
      }
      if !(0 <= step.tokenStart < step.tokenEnd <= responseLength) {
        return Some(BadStepInterval);
      }
      if step.tokenStart != previousEnd {
        return Some(StepGap);
      }
      previousEnd := step.tokenEnd;
    }
    return None;
  }

  lemma AppendKeepsBranch(
    before: Layout, layout: Layout, k: int, i: int, prompt: seq<int>, steps: seq<TokenStep>, probe: AnswerProbe)
    requires 0 <= i < k == |before.branches| <= |steps| && PacksBranch(before, i, prompt, steps, probe)
    requires layout.originalLength == before.originalLength && |layout.positionIds| == |layout.sequenceIds|
    requires before.sequenceIds <= layout.sequenceIds && before.positionIds <= layout.positionIds
    requires before.branches <= layout.branches
    ensures PacksBranch(layout, i, prompt, steps, probe)
  {
    assert BranchFloor(layout, i) == BranchFloor(before, i);
    var b := before.branches[i];
    assert layout.sequenceIds[b.probeStart..b.probeEnd] == before.sequenceIds[b.probeStart..b.probeEnd];
    assert layout.positionIds[b.probeStart..b.probeEnd] == before.positionIds[b.probeStart..b.probeEnd];
  }

  lemma AppendKeepsPacking(
    before: Layout, layout: Layout, k: int,
    prompt: seq<int>, response: seq<int>, steps: seq<TokenStep>, probe: AnswerProbe)
    requires 0 <= k <= |steps| && PacksFirst(before, k, prompt, response, steps, probe)
    requires layout == Layout(
      before.sequenceIds + probe.tokenIds,
      before.positionIds + ShiftBy(Iota(|probe.tokenIds|), |prompt| + StepStart(steps, k)),
      before.originalLength,
      before.branches + [Branch(k, |prompt| + StepStart(steps, k), |before.sequenceIds|,
                                |before.sequenceIds| + |probe.tokenIds|,
                                ShiftBy(probe.answerPositions, |before.sequenceIds|))])
    ensures PacksFirst(layout, k + 1, prompt, response, steps, probe)
  {
    var n := layout.originalLength;
    assert layout.sequenceIds[..n] == before.sequenceIds[..n];
    assert layout.positionIds[..n] == before.positionIds[..n];
    forall i | 0 <= i < k
      ensures PacksBranch(layout, i, prompt, steps, probe)
    {
      AppendKeepsBranch(before, layout, k, i, prompt, steps, probe);
    }
    assert BranchFloor(layout, k) == BranchFloor(before, k);
    assert PacksBranch(layout, k, prompt, steps, probe);
  }

  lemma ShiftedPositions(positions: seq<int>, base: int, lo: int, hi: int)
    ensures (forall p :: p in ShiftBy(positions, base) ==> lo < p < hi)
       <==> (forall p :: p in positions ==> lo - base < p < hi - base)
  {
    var shifted := ShiftBy(positions, base);
    if forall p :: p in shifted ==> lo < p < hi {
      forall i | 0 <= i < |positions| ensures lo - base < positions[i] < hi - base {
        assert shifted[i] in shifted;
      }
    }
    if forall p :: p in positions ==> lo - base < p < hi - base {
      forall i | 0 <= i < |positions| ensures lo < shifted[i] < hi {
        assert positions[i] in positions;
      }
    }
  }

  lemma PackedBranchIsValid(
    layout: Layout, k: int, prompt: seq<int>, response: seq<int>, steps: seq<TokenStep>, probe: AnswerProbe)
    requires 0 <= k < |layout.branches| && k <= |steps| && PacksBranch(layout, k, prompt, steps, probe)
    requires layout.originalLength == |prompt| + |response| && Contiguous(steps, |response|)
    requires prompt != [] && |probe.tokenIds| > 0 && |probe.answerPositions| > 0
    ensures ValidBranch(layout, k) <==> Scoreable(probe)
  {
    var b := layout.branches[k];
    var _ := Boundary(steps, k, |response|);
    ShiftedPositions(probe.answerPositions, b.probeStart, b.probeStart, b.probeEnd);
    forall i | b.probeStart <= i < b.probeEnd
      ensures layout.positionIds[i] == b.visiblePrefixEnd + (i - b.probeStart)
    {
      assert layout.positionIds[b.probeStart..b.probeEnd][i - b.probeStart] == layout.positionIds[i];
    }
  }

  /** A packed layout is all the validator asks for, except that the validator also insists on answer
      positions inside the probe. */
  lemma PackedIsValid(
    layout: Layout, prompt: seq<int>, response: seq<int>, steps: seq<TokenStep>, probe: AnswerProbe)
    requires prompt != [] && |probe.tokenIds| > 0 && |probe.answerPositions| > 0
    requires Contiguous(steps, |response|) && Packs(layout, prompt, response, steps, probe)
    ensures ValidLayout(layout) <==> Scoreable(probe)
  {
    forall k | 0 <= k <= |steps|
      ensures ValidBranch(layout, k) <==> Scoreable(probe)
    {
      PackedBranchIsValid(layout, k, prompt, response, steps, probe);
    }
    assert ValidBranch(layout, 0) <==> Scoreable(probe);
    forall i | 0 <= i < layout.originalLength ensures layout.positionIds[i] == i {
      assert layout.positionIds[i] == layout.positionIds[..layout.originalLength][i];
    }
  }

  method BuildMaskedProbeLayout(
    prompt: seq<int>, response: seq<int>, steps: seq<TokenStep>, probe: AnswerProbe)
    returns (r: Result<Layout, LayoutError>)
    ensures r.Ok? <==> prompt != [] && Scoreable(probe) && Contiguous(steps, |response|)
    ensures r.Ok? ==> ValidLayout(r.value) && Packs(r.value, prompt, response, steps, probe)
    ensures prompt == [] ==> r == Err(EmptyPrompt)
    ensures prompt != [] && Scoreable(probe) && r.Err? ==> r.error in {BadStepIndex, BadStepInterval, StepGap}
  {
    if prompt == [] {
      return Err(EmptyPrompt);
    }
    if probe.tokenIds == [] {
      assert |probe.tokenIds| == 0;
      return Err(EmptyProbe);
    }
    if probe.answerPositions == [] {
      return Err(NoAnswerPosition);
    }
    if exists p :: p in probe.answerPositions && p <= 0 {
      return Err(UnpredictedAnswer);
    }
    var stepError := CheckSteps(steps, |response|);
    if stepError.Some? {
      return Err(stepError.value);
    }
    var original := prompt + response;
    var ids, positions, branches := original, Iota(|original|), [];
    ghost var layout := Layout(ids, positions, |original|, branches);
    for k := 0 to |steps| + 1
      invariant layout == Layout(ids, positions, |original|, branches)
      invariant PacksFirst(layout, k, prompt, response, steps, probe)
    {
      var visiblePrefixEnd := |prompt| + StepStart(steps, k);
      var probeStart := |ids|;
      ghost var before := layout;
      ids := ids + probe.tokenIds;
      positions := positions + ShiftBy(Iota(|probe.tokenIds|), visiblePrefixEnd);
      var answerPositions := ShiftBy(probe.answerPositions, probeStart);
      // The predictor of every answer token lies inside the branch, so this check never fires.
      assert forall i :: 0 <= i < |answerPositions| ==> probeStart <= answerPositions[i] - 1 by {
        assert forall i :: 0 <= i < |probe.answerPositions| ==> probe.answerPositions[i] in probe.answerPositions;
      }
      branches := branches + [Branch(k, visiblePrefixEnd, probeStart, probeStart + |probe.tokenIds|, answerPositions)];
      layout := Layout(ids, positions, |original|, branches);
      AppendKeepsPacking(before, layout, k, prompt, response, steps, probe);
    }
    var built := Layout(ids, positions, |original|, branches);
    var error := ValidateMaskedProbeLayout(built);
    PackedIsValid(built, prompt, response, steps, probe);
    if error.Some? {
      return Err(error.value);
    }
    return Ok(built);
  }

  // ---- the visibility matrix --------------------------------------------------------------

  predicate InBranch(layout: Layout, k: int, q: int)
    requires 0 <= k < |layout.branches|
  {
    layout.branches[k].probeStart <= q < layout.branches[k].probeEnd
  }

  /** Row `q` of branch `k` sees the rollout prefix of its boundary and its own probe prefix. */
  predicate BranchSees(layout: Layout, k: int, q: int, c: int)
    requires 0 <= k < |layout.branches|
  {
    InBranch(layout, k, q) && (c < layout.branches[k].visiblePrefixEnd || layout.branches[k].probeStart <= c <= q)
  }

  /** Rollout rows are causal; a probe row sees what its branch sees; nothing else is visible. */
  predicate Sees(layout: Layout, q: int, c: int) {
    if q < layout.originalLength then c <= q
    else exists k :: 0 <= k < |layout.branches| && BranchSees(layout, k, q, c)
  }

  lemma {:induction false} BranchesAreOrdered(layout: Layout, i: int, k: int)
    requires ValidLayout(layout) && 0 <= i <= k < |layout.branches|
    ensures layout.originalLength <= layout.branches[i].probeStart
    ensures i < k ==> layout.branches[i].probeEnd <= layout.branches[k].probeStart
    decreases k - i
  {
    assert ValidBranch(layout, i) && ValidBranch(layout, k);
    if i < k - 1 {
      BranchesAreOrdered(layout, i, k - 1);
      assert ValidBranch(layout, k - 1);
    }
  }

  method BuildDenseAttentionMask(layout: Layout) returns (error: Option<LayoutError>, mask: array2<bool>)
    ensures error.None? <==> ValidLayout(layout)
    ensures error.None? ==> mask.Length0 == mask.Length1 == |layout.sequenceIds|
    ensures error.None? ==> forall q, c :: 0 <= q < mask.Length0 && 0 <= c < mask.Length1 ==>
                              (mask[q, c] <==> Sees(layout, q, c))
    ensures fresh(mask)
  {
    error := ValidateMaskedProbeLayout(layout);
    if error.Some? {
      mask := new bool[0, 0];
      return;
    }
    var n := |layout.sequenceIds|;
    mask := new bool[n, n]((q, c) => false);
    forall q, c | 0 <= q < layout.originalLength && 0 <= c < layout.originalLength {
      mask[q, c] := c <= q;
    }
    for k := 0 to |layout.branches|
      invariant forall q, c :: 0 <= q < layout.originalLength && 0 <= c < n ==> (mask[q, c] <==> c <= q)
      invariant layout.originalLength <= BranchFloor(layout, k)
      invariant forall q, c :: BranchFloor(layout, k) <= q < n && 0 <= c < n ==> !mask[q, c]
      invariant forall i, q, c :: 0 <= i < k && 0 <= q < n && InBranch(layout, i, q) && 0 <= c < n ==>
                  (mask[q, c] <==> BranchSees(layout, i, q, c))
    {
      var b := layout.branches[k];
      assert ValidBranch(layout, k);
      forall i | 0 <= i < k ensures layout.branches[i].probeEnd <= b.probeStart {
        BranchesAreOrdered(layout, i, k);
      }
      forall q, c | b.probeStart <= q < b.probeEnd && 0 <= c < b.visiblePrefixEnd {
        mask[q, c] := true;
      }
      forall q, c | b.probeStart <= q < b.probeEnd && b.probeStart <= c < b.probeEnd {
        mask[q, c] := c <= q;
      }
    }
    forall q, c | layout.originalLength <= q < n && 0 <= c < n
      ensures mask[q, c] <==> Sees(layout, q, c)
    {
      var k := OwnerOf(layout, q, |layout.branches|);
      assert mask[q, c] <==> BranchSees(layout, k, q, c);
      OnlyOwnerSees(layout, k, q, c);
    }
  }

  /** The branch that owns packed row `q`. */
  ghost function OwnerOf(layout: Layout, q: int, upto: int): (k: int)
    requires ValidLayout(layout) && 0 <= upto <= |layout.branches|
    requires layout.originalLength <= q < BranchFloor(layout, upto)
    ensures 0 <= k < upto && InBranch(layout, k, q)
    decreases upto
  {
    assert upto > 0 && ValidBranch(layout, upto - 1);
    if layout.branches[upto - 1].probeStart <= q then upto - 1 else OwnerOf(layout, q, upto - 1)
  }

  lemma OnlyOwnerSees(layout: Layout, k: int, q: int, c: int)
    requires ValidLayout(layout) && 0 <= k < |layout.branches| && InBranch(layout, k, q)
    ensures Sees(layout, q, c) <==> BranchSees(layout, k, q, c)
  {
    BranchesAreOrdered(layout, k, k);
    forall i | 0 <= i < |layout.branches| && BranchSees(layout, i, q, c) ensures i == k {
      if i < k { BranchesAreOrdered(layout, i, k); }
      if k < i { BranchesAreOrdered(layout, k, i); }
    }
  }

  // ---- one masked run equals K+1 independent runs ------------------------------------------

  /** The independent sequence that branch `k` stands for. */
  function IndependentIds(
    prompt: seq<int>, response: seq<int>, steps: seq<TokenStep>, probe: AnswerProbe, k: int): (r: seq<int>)
    requires 0 <= k <= |steps| && Contiguous(steps, |response|)
  {
    prompt + response[..Boundary(steps, k, |response|)] + probe.tokenIds
  }

  function PackedStates<S>(net: Net<S>, layout: Layout, depth: nat): (rows: seq<S>)
    requires |layout.sequenceIds| == |layout.positionIds|
    ensures |rows| == |layout.sequenceIds|
  {
    States(net, layout.sequenceIds, layout.positionIds, (q, c) => Sees(layout, q, c), depth)
  }

  /** Where row `i` of the independent sequence of branch `b` sits in the packed sequence. */
  function PlaceOf(b: Branch, i: nat): (r: nat)
    requires 0 <= b.visiblePrefixEnd <= b.probeStart
  {
    if i < b.visiblePrefixEnd then i else b.probeStart + (i - b.visiblePrefixEnd)
  }

  lemma BranchIsPlaced(
    layout: Layout, prompt: seq<int>, response: seq<int>, steps: seq<TokenStep>, probe: AnswerProbe, k: int)
    returns (at: seq<nat>)
    requires ValidLayout(layout) && Packs(layout, prompt, response, steps, probe)
    requires Contiguous(steps, |response|) && 0 <= k <= |steps|
    ensures var b := layout.branches[k];
            && Placed(layout.sequenceIds, layout.positionIds, (q, c) => Sees(layout, q, c), at,
                      IndependentIds(prompt, response, steps, probe, k))
            && |at| == b.visiblePrefixEnd + |probe.tokenIds|
            && 0 <= b.visiblePrefixEnd <= b.probeStart
            && forall i :: 0 <= i < |at| ==> at[i] == PlaceOf(b, i)
  {
    var b := layout.branches[k];
    assert ValidBranch(layout, k) && PacksBranch(layout, k, prompt, steps, probe);
    var ids := IndependentIds(prompt, response, steps, probe, k);
    at := seq(|ids|, i requires 0 <= i < |ids| => PlaceOf(b, i));
    forall i | 0 <= i < |at|
      ensures at[i] < |layout.sequenceIds| && layout.sequenceIds[at[i]] == ids[i] && layout.positionIds[at[i]] == i
    {
      PlacedIdsAgree(layout, prompt, response, steps, probe, k, i);
    }
    forall i, c | 0 <= i < |at| && 0 <= c < |layout.sequenceIds|
      ensures Sees(layout, at[i], c) <==> exists j :: 0 <= j <= i && at[j] == c
    {
      PlacedRowSees(layout, k, at, i, c);
    }
  }

  lemma PlacedIdsAgree(
    layout: Layout, prompt: seq<int>, response: seq<int>, steps: seq<TokenStep>, probe: AnswerProbe, k: int, i: int)
    requires ValidLayout(layout) && Packs(layout, prompt, response, steps, probe)
    requires Contiguous(steps, |response|) && 0 <= k <= |steps|
    requires 0 <= i < |IndependentIds(prompt, response, steps, probe, k)|
    requires 0 <= layout.branches[k].visiblePrefixEnd <= layout.branches[k].probeStart
    ensures var p := PlaceOf(layout.branches[k], i);
            && p < |layout.sequenceIds|
            && layout.sequenceIds[p] == IndependentIds(prompt, response, steps, probe, k)[i]
            && layout.positionIds[p] == i
  {
    var b := layout.branches[k];
    assert PacksBranch(layout, k, prompt, steps, probe);
    if i < b.visiblePrefixEnd {
      assert layout.sequenceIds[i] == layout.sequenceIds[..layout.originalLength][i];
    } else {
      var j := i - b.visiblePrefixEnd;
      assert layout.sequenceIds[b.probeStart + j] == layout.sequenceIds[b.probeStart..b.probeEnd][j];
      assert layout.positionIds[b.probeStart + j] == layout.positionIds[b.probeStart..b.probeEnd][j];
    }
  }

  lemma PlacedRowSees(layout: Layout, k: int, at: seq<nat>, i: int, c: int)
    requires ValidLayout(layout) && 0 <= k < |layout.branches| && 0 <= i < |at| && 0 <= c
    requires 0 <= layout.branches[k].visiblePrefixEnd <= layout.branches[k].probeStart
    requires |at| == layout.branches[k].visiblePrefixEnd + (layout.branches[k].probeEnd - layout.branches[k].probeStart)
    requires forall j :: 0 <= j < |at| ==> at[j] == PlaceOf(layout.branches[k], j)
    ensures Sees(layout, at[i], c) <==> exists j :: 0 <= j <= i && at[j] == c
  {
    var b := layout.branches[k];
    assert ValidBranch(layout, k);
    if i >= b.visiblePrefixEnd {
      OnlyOwnerSees(layout, k, at[i], c);
    }
    if Sees(layout, at[i], c) {
      var j := if c < b.visiblePrefixEnd then c else c - b.probeStart + b.visiblePrefixEnd;
      assert at[j] == c;
    }
  }

  /** Every row of branch `k` of the one masked run has, at every layer, the state it would have in
      the independent run over prompt + response[:boundary_k] + probe. */
  lemma PackedBranchEqualsIndependentRun<S>(
    net: Net<S>, layout: Layout, prompt: seq<int>, response: seq<int>, steps: seq<TokenStep>, probe: AnswerProbe,
    k: int, depth: nat)
    requires ValidLayout(layout) && Packs(layout, prompt, response, steps, probe)
    requires Contiguous(steps, |response|) && 0 <= k <= |steps|
    ensures var b := layout.branches[k];
            && 0 <= b.visiblePrefixEnd <= b.probeStart
            && b.probeStart <= b.probeEnd <= |layout.sequenceIds|
            && |IndependentIds(prompt, response, steps, probe, k)| == b.visiblePrefixEnd + |probe.tokenIds|
            && PackedStates(net, layout, depth)[b.probeStart..b.probeEnd]
               == CausalStates(net, IndependentIds(prompt, response, steps, probe, k), depth)[b.visiblePrefixEnd..]
  {
    var b := layout.branches[k];
    assert ValidBranch(layout, k) && PacksBranch(layout, k, prompt, steps, probe);
    var at := BranchIsPlaced(layout, prompt, response, steps, probe, k);
    var ids := IndependentIds(prompt, response, steps, probe, k);
    PlacedRowsAreCausal(net, layout.sequenceIds, layout.positionIds, (q, c) => Sees(layout, q, c), at, ids, depth);
    SlicesAgree(PackedStates(net, layout, depth), CausalStates(net, ids, depth), at, b.probeStart, b.probeEnd,
                b.visiblePrefixEnd);
  }

  lemma SlicesAgree<T>(packed: seq<T>, plain: seq<T>, at: seq<int>, start: int, end: int, prefix: int)
    requires 0 <= start <= end <= |packed| && 0 <= prefix && |at| == |plain| == prefix + (end - start)
    requires forall j :: prefix <= j < |at| ==> at[j] == start + (j - prefix)
    requires forall j :: 0 <= j < |at| && 0 <= at[j] < |packed| ==> packed[at[j]] == plain[j]
    ensures packed[start..end] == plain[prefix..]
  {
    forall j | 0 <= j < end - start ensures packed[start..end][j] == plain[prefix..][j] {
      assert at[prefix + j] == start + j;
    }
  }

  /** Appending the probes changes nothing for the rollout itself. */
  lemma PackedRolloutEqualsPlainRun<S>(
    net: Net<S>, layout: Layout, prompt: seq<int>, response: seq<int>, steps: seq<TokenStep>, probe: AnswerProbe,
    depth: nat)
    requires ValidLayout(layout) && Packs(layout, prompt, response, steps, probe)
    ensures |prompt + response| <= |layout.sequenceIds|
    ensures PackedStates(net, layout, depth)[..|prompt + response|] == CausalStates(net, prompt + response, depth)
  {
    var ids := prompt + response;
    var at := seq(|ids|, i requires 0 <= i < |ids| => i as nat);
    forall i | 0 <= i < |ids| ensures layout.sequenceIds[i] == ids[i] && layout.positionIds[i] == i {
      assert layout.sequenceIds[i] == layout.sequenceIds[..layout.originalLength][i];
    }
    forall i, c | 0 <= i < |at| && 0 <= c < |layout.sequenceIds|
      ensures Sees(layout, at[i], c) <==> exists j :: 0 <= j <= i && at[j] == c
    {
      if c <= i { assert at[c] == c; }
    }
    PlacedRowsAreCausal(net, layout.sequenceIds, layout.positionIds, (q, c) => Sees(layout, q, c), at, ids, depth);
    forall i | 0 <= i < |ids|
      ensures PackedStates(net, layout, depth)[i] == CausalStates(net, ids, depth)[i]
    {
      assert at[i] == i;
    }
  }
}
