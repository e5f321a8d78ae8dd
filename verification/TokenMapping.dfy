// Aligning semantic character boundaries to prefixes of the original token IDs, for any decoder.

module TokenMapping {
  import opened Common
  import opened Pieces
  import opened Spans
  import opened MaskedProbe

  type Decoder = seq<int> -> string

  datatype MappingError = OutsideText | NoPrefixCovers | ResponseNotRecovered

  /** A token prefix that decodes to a prefix of the text with at least `required` characters. */
  ghost predicate Covers(decode: Decoder, ids: seq<int>, text: string, required: int, minimum: int, end: int) {
    && minimum <= end <= |ids| && 0 <= end
    && |decode(ids[..end])| >= required
    && decode(ids[..end]) <= text
  }

  /** The best covering prefix: fewest characters, then fewest tokens. This is what a scan over every
      token prefix would return. */
  ghost predicate LeastCover(decode: Decoder, ids: seq<int>, text: string, required: int, minimum: int, end: int) {
    && Covers(decode, ids, text, required, minimum, end)
    && forall e :: Covers(decode, ids, text, required, minimum, e) ==>
         Before((|decode(ids[..end])|, end), (|decode(ids[..e])|, e))
  }

  /** The lexicographic order used to pick a candidate. */
  predicate Before(a: (int, int), b: (int, int)) {
    a.0 < b.0 || (a.0 == b.0 && a.1 <= b.1)
  }

  ghost predicate LeastCoverWithin(
    decode: Decoder, ids: seq<int>, text: string, required: int, minimum: int, lo: int, hi: int, end: int)
  {
    && lo <= end <= hi && Covers(decode, ids, text, required, minimum, end)
    && forall e :: lo <= e <= hi && Covers(decode, ids, text, required, minimum, e) ==>
         Before((|decode(ids[..end])|, end), (|decode(ids[..e])|, e))
  }

  ghost predicate NoCoverWithin(
    decode: Decoder, ids: seq<int>, text: string, required: int, minimum: int, lo: int, hi: int)
  {
    forall e :: lo <= e <= hi ==> !Covers(decode, ids, text, required, minimum, e)
  }

  /** The best covering prefix of the first window that has one: sixteen tokens around the estimate, then 128, then
      all tokens. */
  ghost predicate FirstWindowCover(
    decode: Decoder, ids: seq<int>, text: string, required: int, minimum: nat, end: int)
  {
    var a := Bisected(decode, ids, required, minimum, |ids|);
    if !NoCoverWithin(decode, ids, text, required, minimum, a - 16, a + 16)
    then LeastCoverWithin(decode, ids, text, required, minimum, a - 16, a + 16, end)
    else if !NoCoverWithin(decode, ids, text, required, minimum, a - 128, a + 128)
    then LeastCoverWithin(decode, ids, text, required, minimum, a - 128, a + 128, end)
    else LeastCoverWithin(decode, ids, text, required, minimum, minimum, |ids|, end)
  }

  lemma WindowCoverIsUnique(
    decode: Decoder, ids: seq<int>, text: string, required: int, minimum: nat, end: int, end': int)
    requires FirstWindowCover(decode, ids, text, required, minimum, end)
    requires FirstWindowCover(decode, ids, text, required, minimum, end')
    ensures end == end'
  {
    hide Covers, Bisected;
  }

  ghost predicate Growing(decode: Decoder, ids: seq<int>) {
    forall i, j :: 0 <= i <= j <= |ids| ==> |decode(ids[..i])| <= |decode(ids[..j])|
  }

  ghost predicate CacheAgrees(decode: Decoder, ids: seq<int>, cache: map<int, string>) {
    forall e :: e in cache ==> 0 <= e <= |ids| && cache[e] == decode(ids[..e])
  }

  method DecodePrefix(decode: Decoder, ids: seq<int>, end: int, cache: map<int, string>)
    returns (prefix: string, cache': map<int, string>)
    requires 0 <= end <= |ids| && CacheAgrees(decode, ids, cache)
    ensures prefix == decode(ids[..end]) && CacheAgrees(decode, ids, cache')
  {
    cache' := cache;
    if end !in cache' {
      cache' := cache'[end := decode(ids[..end])];
    }
    prefix := cache'[end];
  }

  /** Where bisection on decoded lengths ends up between `low` and `high`. */
  function Bisected(decode: Decoder, ids: seq<int>, required: int, low: nat, high: int): (r: nat)
    requires high <= |ids|
    decreases high - low
  {
    if low >= high then low
    else
      var middle := (low + high) / 2;
      if |decode(ids[..middle])| < required then Bisected(decode, ids, required, middle + 1, high)
      else Bisected(decode, ids, required, low, middle)
  }

  /** Binary search on decoded lengths. Only an estimate unless the lengths grow. */
  method ApproximateEnd(
    decode: Decoder, ids: seq<int>, required: int, minimum: nat, cache: map<int, string>)
    returns (approximate: int, cache': map<int, string>)
    requires CacheAgrees(decode, ids, cache)
    ensures CacheAgrees(decode, ids, cache')
    ensures approximate == Bisected(decode, ids, required, minimum, |ids|)
    ensures minimum <= |ids| ==> minimum <= approximate <= |ids|
    ensures Growing(decode, ids) ==>
              (forall e :: minimum <= e < approximate && e <= |ids| ==> |decode(ids[..e])| < required)
    ensures Growing(decode, ids) && minimum <= approximate < |ids| ==> |decode(ids[..approximate])| >= required
  {
    cache' := cache;
    var low, high := minimum as int, |ids|;
    while low < high
      invariant minimum <= low && (minimum <= |ids| ==> low <= high <= |ids|) && high <= |ids|
      invariant CacheAgrees(decode, ids, cache')
      invariant Bisected(decode, ids, required, low, high) == Bisected(decode, ids, required, minimum, |ids|)
      invariant Growing(decode, ids) ==>
                  (forall e :: minimum <= e < low && e <= |ids| ==> |decode(ids[..e])| < required)
      invariant minimum <= |ids| || low == minimum
      invariant Growing(decode, ids) && 0 <= high < |ids| ==> |decode(ids[..high])| >= required
    {
      var middle := (low + high) / 2;
      var prefix;
      prefix, cache' := DecodePrefix(decode, ids, middle, cache');
      if |prefix| < required {
        assert Growing(decode, ids) ==> forall e :: minimum <= e <= middle ==> |decode(ids[..e])| <= |prefix|;
        low := middle + 1;
      } else {
        high := middle;
      }
    }
    approximate := low;
  }

  /** The covering prefixes between two token ends, in order. */
  method Candidates(
    decode: Decoder, ids: seq<int>, text: string, required: int, minimum: nat, start: int, end: int,
    cache: map<int, string>)
    returns (found: seq<(int, int)>, cache': map<int, string>)
    requires CacheAgrees(decode, ids, cache)
    ensures CacheAgrees(decode, ids, cache')
    ensures forall f :: f in found ==>
              start <= f.0 <= end && Covers(decode, ids, text, required, minimum, f.0) && f.1 == |decode(ids[..f.0])|
    ensures forall e :: start <= e <= end && Covers(decode, ids, text, required, minimum, e) ==>
              (e, |decode(ids[..e])|) in found
  {
    cache' := cache;
    found := [];
    var tokenEnd := if minimum < start then start else minimum as int;
    var last := if end < |ids| then end else |ids|;
    while tokenEnd <= last
      invariant tokenEnd >= minimum && tokenEnd >= start
      invariant CacheAgrees(decode, ids, cache')
      invariant forall f :: f in found ==>
                  start <= f.0 <= end && Covers(decode, ids, text, required, minimum, f.0) && f.1 == |decode(ids[..f.0])|
      invariant forall e :: start <= e < tokenEnd && e <= end && Covers(decode, ids, text, required, minimum, e) ==>
                  (e, |decode(ids[..e])|) in found
    {
      var prefix;
      prefix, cache' := DecodePrefix(decode, ids, tokenEnd, cache');
      if |prefix| >= required && prefix <= text {
        found := found + [(tokenEnd, |prefix|)];
      }
      tokenEnd := tokenEnd + 1;
    }
  }

  method PickLeast(found: seq<(int, int)>) returns (best: (int, int))
    requires found != []
    ensures best in found
    ensures forall f :: f in found ==> Before((best.1, best.0), (f.1, f.0))
  {
    best := found[0];
    for i := 1 to |found|
      invariant best in found
      invariant forall j :: 0 <= j < i ==> Before((best.1, best.0), (found[j].1, found[j].0))
    {
      if !Before((best.1, best.0), (found[i].1, found[i].0)) {
        best := found[i];
      }
    }
  }

  method FindOriginalTokenBoundary(
    decode: Decoder, ids: seq<int>, text: string, target: int, minimumTokenEnd: int, minimumCharEnd: int,
    cache: map<int, string>)
    returns (r: Result<(int, int), MappingError>, cache': map<int, string>)
    requires CacheAgrees(decode, ids, cache)
    ensures CacheAgrees(decode, ids, cache')
    ensures r == Err(OutsideText) <==> !(0 <= target <= |text|)
    ensures var required := if minimumCharEnd > target then minimumCharEnd else target;
            var minimum := if minimumTokenEnd > 0 then minimumTokenEnd else 0;
            && (r.Ok? <==> 0 <= target <= |text| && exists e :: Covers(decode, ids, text, required, minimum, e))
            && (r.Ok? ==> Covers(decode, ids, text, required, minimum, r.value.0)
                          && r.value.1 == |decode(ids[..r.value.0])|)
            && (r.Ok? ==> FirstWindowCover(decode, ids, text, required, minimum, r.value.0))
            && (r.Ok? && Growing(decode, ids) ==> LeastCover(decode, ids, text, required, minimum, r.value.0))
  {
    hide Covers, Growing, LeastCover, LeastCoverWithin, Bisected, CacheAgrees, Before;
    cache' := cache;
    if !(0 <= target <= |text|) {
      return Err(OutsideText), cache';
    }
    var minimum: nat := if minimumTokenEnd > 0 then minimumTokenEnd else 0;
    var required := if minimumCharEnd > target then minimumCharEnd else target;
    var approximate;
    approximate, cache' := ApproximateEnd(decode, ids, required, minimum, cache');
    ghost var lo, hi := approximate - 16, approximate + 16;
    var found;
    found, cache' := Candidates(decode, ids, text, required, minimum, approximate - 16, approximate + 16, cache');
    if found == [] {
      found, cache' := Candidates(decode, ids, text, required, minimum, approximate - 128, approximate + 128, cache');
      lo, hi := approximate - 128, approximate + 128;
    }
    if found == [] {
      found, cache' := Candidates(decode, ids, text, required, minimum, minimum, |ids|, cache');
      lo, hi := minimum, |ids|;
    }
    if found == [] {
      CoversAmongTokens(decode, ids, text, required, minimum);
      return Err(NoPrefixCovers), cache';
    }
    var best := PickLeast(found);
    assert LeastCoverWithin(decode, ids, text, required, minimum, lo, hi, best.0) by {
      FoundIsLeast(decode, ids, text, required, minimum, lo, hi, found, best);
    }
    if Growing(decode, ids) {
      WindowIsEnough(decode, ids, text, required, minimum, approximate, lo, hi, found, best);
    }
    return Ok(best), cache';
  }

  lemma CoversAmongTokens(decode: Decoder, ids: seq<int>, text: string, required: int, minimum: int)
    ensures forall e :: Covers(decode, ids, text, required, minimum, e) ==> minimum <= e <= |ids|
  {
  }

  lemma FoundIsLeast(
    decode: Decoder, ids: seq<int>, text: string, required: int, minimum: nat, lo: int, hi: int,
    found: seq<(int, int)>, best: (int, int))
    requires best in found
    requires forall f :: f in found ==>
               lo <= f.0 <= hi && Covers(decode, ids, text, required, minimum, f.0) && f.1 == |decode(ids[..f.0])|
    requires forall e :: lo <= e <= hi && Covers(decode, ids, text, required, minimum, e) ==>
               (e, |decode(ids[..e])|) in found
    requires forall f :: f in found ==> Before((best.1, best.0), (f.1, f.0))
    ensures LeastCoverWithin(decode, ids, text, required, minimum, lo, hi, best.0)
  {
    forall e | lo <= e <= hi && Covers(decode, ids, text, required, minimum, e)
      ensures Before((best.1, best.0), (|decode(ids[..e])|, e))
    {
      assert (e, |decode(ids[..e])|) in found;
    }
  }

  /** When decoded lengths never shrink, whichever window first holds a candidate holds the best one. */
  lemma WindowIsEnough(
    decode: Decoder, ids: seq<int>, text: string, required: int, minimum: nat, approximate: int,
    lo: int, hi: int, found: seq<(int, int)>, best: (int, int))
    requires Growing(decode, ids) && best in found
    requires (lo <= approximate <= hi) || (lo == minimum && hi == |ids|)
    requires forall e :: minimum <= e < approximate && e <= |ids| ==> |decode(ids[..e])| < required
    requires forall f :: f in found ==>
               lo <= f.0 <= hi && Covers(decode, ids, text, required, minimum, f.0) && f.1 == |decode(ids[..f.0])|
    requires forall e :: lo <= e <= hi && Covers(decode, ids, text, required, minimum, e) ==>
               (e, |decode(ids[..e])|) in found
    requires forall f :: f in found ==> Before((best.1, best.0), (f.1, f.0))
    ensures LeastCover(decode, ids, text, required, minimum, best.0)
  {
    forall e | Covers(decode, ids, text, required, minimum, e)
      ensures Before((best.1, best.0), (|decode(ids[..e])|, e))
    {
      if lo <= e <= hi {
        assert (e, |decode(ids[..e])|) in found;
      } else {
        assert approximate <= e;
        assert best.0 <= hi < e;
      }
    }
  }

  // ---- mapping whole responses --------------------------------------------------------------

  /** Step `k` starts where the text so far ends, is not empty, and ends where a token prefix decodes to
      exactly the text so far. */
  ghost predicate AlignedStep(steps: seq<TokenStep>, k: int, decode: Decoder, ids: seq<int>, text: string)
    requires 0 <= k < |steps|
  {
    var step := steps[k];
    && step.charStart == CharStart(steps, k)
    && 0 <= step.charStart < step.charEnd <= |text|
    && step.text == text[step.charStart..step.charEnd]
    && 0 <= step.tokenEnd <= |ids|
    && decode(ids[..step.tokenEnd]) == text[..step.charEnd]
  }

  ghost predicate Aligned(steps: seq<TokenStep>, decode: Decoder, ids: seq<int>, text: string) {
    forall k :: 0 <= k < |steps| ==> AlignedStep(steps, k, decode, ids, text)
  }

  function CharStart(steps: seq<TokenStep>, k: int): (r: int)
    requires 0 <= k <= |steps|
  {
    if k == 0 then 0 else steps[k - 1].charEnd
  }

  /** Span `i` is the first that ends beyond a position of the text. */
  ghost predicate FirstBeyond(spans: seq<Span>, i: int, from: int) {
    0 <= i < |spans| && spans[i].end > from && forall j :: 0 <= j < i ==> spans[j].end <= from
  }

  /** The step is cut for the first span that ends beyond its start: it stops at the covering token prefix found for
      the end of that span, which is the first of all when decoded lengths never shrink. */
  ghost predicate CutForSpan(step: TokenStep, i: int, spans: seq<Span>, decode: Decoder, ids: seq<int>, text: string) {
    && FirstBeyond(spans, i, step.charStart) && step.tokenStart >= 0
    && FirstWindowCover(decode, ids, text, spans[i].end, step.tokenStart, step.tokenEnd)
    && (Growing(decode, ids) ==> LeastCover(decode, ids, text, spans[i].end, step.tokenStart, step.tokenEnd))
  }

  ghost predicate EndsAtSpan(step: TokenStep, spans: seq<Span>, decode: Decoder, ids: seq<int>, text: string) {
    exists i :: CutForSpan(step, i, spans, decode, ids, text)
  }

  /** The steps of a response: aligned, without gaps up to the end of the text, each cut for its span. */
  ghost predicate AreSteps(steps: seq<TokenStep>, spans: seq<Span>, decode: Decoder, ids: seq<int>, text: string) {
    && Contiguous(steps, |ids|) && Aligned(steps, decode, ids, text) && CharStart(steps, |steps|) == |text|
    && forall k :: 0 <= k < |steps| ==> EndsAtSpan(steps[k], spans, decode, ids, text)
  }

  /** Spans, tokens and decoder leave one list of steps. */
  lemma StepsAreUnique(
    a: seq<TokenStep>, b: seq<TokenStep>, spans: seq<Span>, decode: Decoder, ids: seq<int>, text: string)
    requires AreSteps(a, spans, decode, ids, text) && AreSteps(b, spans, decode, ids, text)
    ensures a == b
  {
    hide AreSteps;
    if |a| <= |b| {
      SameSteps(a, b, spans, decode, ids, text, |a|);
      NoStepAfterText(a, b, spans, decode, ids, text);
    } else {
      SameSteps(b, a, spans, decode, ids, text, |b|);
      NoStepAfterText(b, a, spans, decode, ids, text);
    }
  }

  lemma {:induction false} SameSteps(
    a: seq<TokenStep>, b: seq<TokenStep>, spans: seq<Span>, decode: Decoder, ids: seq<int>, text: string, n: nat)
    requires AreSteps(a, spans, decode, ids, text) && AreSteps(b, spans, decode, ids, text) && n <= |a| <= |b|
    ensures forall k :: 0 <= k < n ==> a[k] == b[k]
  {
    hide AreSteps;
    if n > 0 {
      SameSteps(a, b, spans, decode, ids, text, n - 1);
      SameStep(a, b, spans, decode, ids, text, n - 1);
    }
  }

  lemma SameStep(
    a: seq<TokenStep>, b: seq<TokenStep>, spans: seq<Span>, decode: Decoder, ids: seq<int>, text: string, k: nat)
    requires AreSteps(a, spans, decode, ids, text) && AreSteps(b, spans, decode, ids, text)
    requires k < |a| && k < |b| && (k > 0 ==> a[k - 1] == b[k - 1])
    ensures a[k] == b[k]
  {
    hide FirstWindowCover, LeastCover, Growing;
    assert AlignedStep(a, k, decode, ids, text) && AlignedStep(b, k, decode, ids, text);
    assert StepFits(a, k, |ids|) && StepFits(b, k, |ids|);
    var i :| CutForSpan(a[k], i, spans, decode, ids, text);
    var j :| CutForSpan(b[k], j, spans, decode, ids, text);
    assert i == j;
    WindowCoverIsUnique(decode, ids, text, spans[i].end, a[k].tokenStart, a[k].tokenEnd, b[k].tokenEnd);
    assert |text[..a[k].charEnd]| == |text[..b[k].charEnd]|;
  }

  lemma NoStepAfterText(
    a: seq<TokenStep>, b: seq<TokenStep>, spans: seq<Span>, decode: Decoder, ids: seq<int>, text: string)
    requires AreSteps(a, spans, decode, ids, text) && AreSteps(b, spans, decode, ids, text)
    requires |a| <= |b| && forall k :: 0 <= k < |a| ==> a[k] == b[k]
    ensures |a| == |b|
  {
    hide EndsAtSpan;
    if |a| < |b| {
      StepIsInText(b, |a|, decode, ids, text);
    }
  }

  lemma StepIsInText(steps: seq<TokenStep>, k: nat, decode: Decoder, ids: seq<int>, text: string)
    requires Aligned(steps, decode, ids, text) && k < |steps|
    ensures CharStart(steps, k) < |text|
  {
    assert AlignedStep(steps, k, decode, ids, text);
  }

  /** A span ends inside a step, or with it, only if the covering prefix for the first span after the step's start
      reaches it. */
  lemma SpanEndsInStep(step: TokenStep, i: int, j: int, spans: seq<Span>, decode: Decoder, ids: seq<int>, text: string)
    requires CutForSpan(step, i, spans, decode, ids, text) && 0 <= j < |spans|
    requires 0 <= step.tokenEnd <= |ids| && 0 <= step.charEnd <= |text|
    requires decode(ids[..step.tokenEnd]) == text[..step.charEnd]
    requires step.charStart < spans[j].end <= step.charEnd
    ensures i <= j && spans[i].end <= step.charEnd && |decode(ids[..step.tokenEnd])| >= spans[j].end
    ensures Covers(decode, ids, text, spans[i].end, step.tokenStart, step.tokenEnd)
  {
    hide Bisected, Growing;
  }

  function StepTexts(steps: seq<TokenStep>): (r: seq<string>)
    ensures |r| == |steps| && forall k :: 0 <= k < |r| ==> r[k] == steps[k].text
  {
    seq(|steps|, k requires 0 <= k < |steps| => steps[k].text)
  }

  lemma AlignedRecovers(steps: seq<TokenStep>, decode: Decoder, ids: seq<int>, text: string)
    requires Aligned(steps, decode, ids, text)
    ensures 0 <= CharStart(steps, |steps|) <= |text|
    ensures Flatten(StepTexts(steps)) == text[..CharStart(steps, |steps|)]
  {
    var bounds := seq(|steps| + 1, k requires 0 <= k < |steps| + 1 => CharStart(steps, k));
    var texts := StepTexts(steps);
    forall k | 0 <= k < |steps| ensures CutFrom(texts[k], bounds[k], bounds[k + 1], text) {
      assert AlignedStep(steps, k, decode, ids, text);
    }
    PiecesJoin(texts, bounds, text);
  }

  lemma AppendKeepsAligned(
    steps: seq<TokenStep>, step: TokenStep, decode: Decoder, ids: seq<int>, text: string)
    requires Aligned(steps, decode, ids, text) && Contiguous(steps, |ids|)
    requires step.index == |steps| && step.tokenStart == StepStart(steps, |steps|)
    requires 0 <= step.tokenStart < step.tokenEnd <= |ids|
    requires step.charStart == CharStart(steps, |steps|) && 0 <= step.charStart < step.charEnd <= |text|
    requires step.text == text[step.charStart..step.charEnd]
    requires decode(ids[..step.tokenEnd]) == text[..step.charEnd]
    ensures Aligned(steps + [step], decode, ids, text) && Contiguous(steps + [step], |ids|)
  {
    var longer := steps + [step];
    forall k | 0 <= k < |longer|
      ensures AlignedStep(longer, k, decode, ids, text) && StepFits(longer, k, |ids|)
    {
      if k < |steps| {
        assert StepFits(steps, k, |ids|) && AlignedStep(steps, k, decode, ids, text);
      }
      assert CharStart(longer, k) == CharStart(steps, k);
    }
  }

  /** For every decoder with decode([]) = "" and every partition of the decoded text (or none at all),
      the mapping succeeds and its steps recover the whole text. */
  method MapResponseSteps(decode: Decoder, ids: seq<int>, spans: seq<Span>)
    returns (r: Result<seq<TokenStep>, MappingError>)
    requires decode([]) == ""
    requires spans == [] || Partitions(spans, decode(ids))
    ensures r.Ok? && Contiguous(r.value, |ids|) && Aligned(r.value, decode, ids, decode(ids))
    ensures spans == [] ==> r.value == []
    ensures spans != [] ==> Flatten(StepTexts(r.value)) == decode(ids)
    ensures spans != [] ==> AreSteps(r.value, spans, decode, ids, decode(ids))
  {
    hide AlignedStep, LeastCover, FirstWindowCover;
    var text := decode(ids);
    if spans == [] {
      return Ok([]);
    }
    assert ids[..0] == [] && ids[..|ids|] == ids;
    var cache := map[0 := ""];
    var steps: seq<TokenStep> := [];
    var previousTokenEnd, previousCharEnd := 0, 0;
    for i := 0 to |spans|
      invariant CacheAgrees(decode, ids, cache)
      invariant Contiguous(steps, |ids|) && Aligned(steps, decode, ids, text)
      invariant 0 <= previousTokenEnd == StepStart(steps, |steps|) <= |ids|
      invariant 0 <= previousCharEnd == CharStart(steps, |steps|) <= |text|
      invariant |decode(ids[..previousTokenEnd])| == previousCharEnd
      invariant SpanStart(spans, i) <= previousCharEnd
      invariant forall j :: 0 <= j < i ==> spans[j].end <= previousCharEnd
      invariant forall k :: 0 <= k < |steps| ==> EndsAtSpan(steps[k], spans, decode, ids, text)
    {
      var semantic := spans[i];
      assert SpanFits(spans, i, text);
      if semantic.end <= previousCharEnd {
        continue;
      }
      var found;
      found, cache := FindOriginalTokenBoundary(
        decode, ids, text, semantic.end, previousTokenEnd, previousCharEnd + 1, cache);
      assert Covers(decode, ids, text, semantic.end, previousTokenEnd, |ids|);
      if found.Err? {
        return Err(NoPrefixCovers);
      }
      var (tokenEnd, charEnd) := found.value;
      // A covering prefix has more characters than the previous one, so no step is ever empty.
      assert tokenEnd > previousTokenEnd && charEnd > previousCharEnd;
      var step := TokenStep(|steps|, previousCharEnd, charEnd, previousTokenEnd, tokenEnd, text[previousCharEnd..charEnd]);
      assert EndsAtSpan(step, spans, decode, ids, text) by {
        assert CutForSpan(step, i, spans, decode, ids, text);
      }
      AppendKeepsAligned(steps, step, decode, ids, text);
      steps := steps + [step];
      previousTokenEnd, previousCharEnd := tokenEnd, charEnd;
    }
    AlignedRecovers(steps, decode, ids, text);
    if previousCharEnd != |text| || Flatten(StepTexts(steps)) != text {
      return Err(ResponseNotRecovered);
    }
    return Ok(steps);
  }

  // ---- reasoning steps ----------------------------------------------------------------------

  /** The two disclosure tests: an explicit final answer, and a boxed expression. */
  datatype Disclosure = Disclosure(explicit: string -> bool, boxed: string -> bool)

  /** The smallest index of an explicit step, else the largest index of a boxed one. */
  function FindFinalAnswerStep(steps: seq<TokenStep>, disclosure: Disclosure): (r: Option<int>) {
    var first := FirstExplicit(steps, disclosure);
    if first.Some? then first else LastBoxed(steps, disclosure)
  }

  function FirstExplicit(steps: seq<TokenStep>, disclosure: Disclosure): (r: Option<int>) {
    if steps == [] then None
    else
      var rest := FirstExplicit(steps[1..], disclosure);
      if !disclosure.explicit(steps[0].text) then rest
      else if rest.Some? && rest.value < steps[0].index then rest
      else Some(steps[0].index)
  }

  function LastBoxed(steps: seq<TokenStep>, disclosure: Disclosure): (r: Option<int>) {
    if steps == [] then None
    else
      var rest := LastBoxed(steps[1..], disclosure);
      if !disclosure.boxed(steps[0].text) then rest
      else if rest.Some? && rest.value > steps[0].index then rest
      else Some(steps[0].index)
  }

  function KeepBelow(steps: seq<TokenStep>, limit: int): (r: seq<TokenStep>) {
    if steps == [] then []
    else (if steps[0].index < limit then [steps[0]] else []) + KeepBelow(steps[1..], limit)
  }

  function ReasoningStepsBeforeAnswer(steps: seq<TokenStep>, disclosure: Disclosure): (r: seq<TokenStep>) {
    var answer := FindFinalAnswerStep(steps, disclosure);
    if answer.None? then steps else KeepBelow(steps, answer.value)
  }

  ghost predicate NumberedFrom(steps: seq<TokenStep>, base: int) {
    forall k :: 0 <= k < |steps| ==> steps[k].index == base + k
  }

  lemma {:induction false} FirstExplicitIsFirst(steps: seq<TokenStep>, base: int, disclosure: Disclosure)
    requires NumberedFrom(steps, base)
    ensures var first := FirstExplicit(steps, disclosure);
            && (first.None? <==> forall k :: 0 <= k < |steps| ==> !disclosure.explicit(steps[k].text))
            && (first.Some? ==>
                  && base <= first.value < base + |steps| && disclosure.explicit(steps[first.value - base].text)
                  && forall k :: 0 <= k < first.value - base ==> !disclosure.explicit(steps[k].text))
  {
    if steps != [] {
      FirstExplicitIsFirst(steps[1..], base + 1, disclosure);
    }
  }

  lemma {:induction false} LastBoxedIsLast(steps: seq<TokenStep>, base: int, disclosure: Disclosure)
    requires NumberedFrom(steps, base)
    ensures var last := LastBoxed(steps, disclosure);
            && (last.None? <==> forall k :: 0 <= k < |steps| ==> !disclosure.boxed(steps[k].text))
            && (last.Some? ==>
                  && base <= last.value < base + |steps| && disclosure.boxed(steps[last.value - base].text)
                  && forall k :: last.value - base < k < |steps| ==> !disclosure.boxed(steps[k].text))
  {
    if steps != [] {
      LastBoxedIsLast(steps[1..], base + 1, disclosure);
    }
  }

  lemma {:induction false} KeepBelowIsPrefix(steps: seq<TokenStep>, base: int, limit: int)
    requires NumberedFrom(steps, base) && base <= limit <= base + |steps|
    ensures KeepBelow(steps, limit) == steps[..limit - base]
  {
    if steps != [] && limit > base {
      KeepBelowIsPrefix(steps[1..], base + 1, limit);
    } else if steps != [] {
      KeepBelowDropsAll(steps, limit);
    }
  }

  lemma {:induction false} KeepBelowDropsAll(steps: seq<TokenStep>, limit: int)
    requires forall k :: 0 <= k < |steps| ==> steps[k].index >= limit
    ensures KeepBelow(steps, limit) == []
  {
    if steps != [] {
      KeepBelowDropsAll(steps[1..], limit);
    }
  }

  lemma PrefixFits(steps: seq<TokenStep>, n: int, m: nat)
    requires Contiguous(steps, n) && m <= |steps|
    ensures Contiguous(steps[..m], n)
  {
    forall k | 0 <= k < m ensures StepFits(steps[..m], k, n) {
      assert StepFits(steps, k, n);
      assert k > 0 ==> steps[..m][k - 1] == steps[k - 1];
    }
  }

  /** What remains is the prefix of the steps that precedes the disclosure, so it keeps the contiguity
      that the packed layout demands. */
  lemma ReasoningStepsAreAPrefix(steps: seq<TokenStep>, n: int, disclosure: Disclosure)
    requires Contiguous(steps, n)
    ensures var kept := ReasoningStepsBeforeAnswer(steps, disclosure);
            kept <= steps && Contiguous(kept, n)
  {
    forall k | 0 <= k < |steps| ensures steps[k].index == k { assert StepFits(steps, k, n); }
    FirstExplicitIsFirst(steps, 0, disclosure);
    LastBoxedIsLast(steps, 0, disclosure);
    var answer := FindFinalAnswerStep(steps, disclosure);
    if answer.Some? {
      KeepBelowIsPrefix(steps, 0, answer.value);
      PrefixFits(steps, n, answer.value);
    }
  }

  /** The step that stops the reasoning is the first explicit disclosure, or else the last boxed step. */
  lemma ReasoningStopsAtDisclosure(steps: seq<TokenStep>, n: int, disclosure: Disclosure)
    requires Contiguous(steps, n)
    ensures var m := |ReasoningStepsBeforeAnswer(steps, disclosure)|;
            && m <= |steps|
            && (forall k :: 0 <= k < m ==> !disclosure.explicit(steps[k].text))
            && (m < |steps| && !disclosure.explicit(steps[m].text) ==>
                  && disclosure.boxed(steps[m].text)
                  && (forall k :: 0 <= k < |steps| ==> !disclosure.explicit(steps[k].text))
                  && forall k :: m < k < |steps| ==> !disclosure.boxed(steps[k].text))
            && (m == |steps| ==> forall k :: 0 <= k < m ==> !disclosure.boxed(steps[k].text))
  {
    forall k | 0 <= k < |steps| ensures steps[k].index == k { assert StepFits(steps, k, n); }
    FirstExplicitIsFirst(steps, 0, disclosure);
    LastBoxedIsLast(steps, 0, disclosure);
    var answer := FindFinalAnswerStep(steps, disclosure);
    if answer.Some? {
      KeepBelowIsPrefix(steps, 0, answer.value);
    }
  }
}
