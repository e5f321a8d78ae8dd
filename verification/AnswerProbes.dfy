// The appended probe that ends in the reference answer: its tokens, and which of them are scored.

module AnswerProbes {
  import opened Common
  import opened MaskedProbe
  import opened TokenMapping

  const PROBE_PREFIX: string := "\n\nTherefore, the answer is \\boxed{"
  const PROBE_SUFFIX: string := "}"

  /** The character extents of the tokens come with the IDs, or have to be recovered. */
  datatype Encoding = Encoding(ids: seq<int>, offsets: Option<seq<(int, int)>>)

  type Encoder = string -> Encoding

  datatype ProbeError = EmptyAnswer | OffsetsNotRecovered | LengthMismatch | NoRoundTrip | NoAnswerToken

  function ProbeText(answer: string): (text: string)
    ensures |text| == |PROBE_PREFIX| + |answer| + |PROBE_SUFFIX|
    ensures text[|PROBE_PREFIX|..|PROBE_PREFIX| + |answer|] == answer
    ensures text[..|PROBE_PREFIX|] == PROBE_PREFIX && text[|PROBE_PREFIX| + |answer|..] == PROBE_SUFFIX
  {
    PROBE_PREFIX + answer + PROBE_SUFFIX
  }

  // ---- recovering character extents ---------------------------------------------------------------------------

  /** The length of the longest token prefix up to `n` that decodes to a beginning of the text; longest in tokens. */
  function Recovered(decode: Decoder, ids: seq<int>, text: string, n: nat): (boundary: nat)
    requires n <= |ids|
    ensures boundary <= |text|
  {
    if n == 0 then 0
    else if decode(ids[..n]) <= text then |decode(ids[..n])|
    else Recovered(decode, ids, text, n - 1)
  }

  /** The boundary is that of `m`, the longest of the first `n` token prefixes that decodes to a beginning of the text,
      or 0 if there is none. */
  ghost predicate LongestBeginning(decode: Decoder, ids: seq<int>, text: string, n: nat, m: nat, boundary: nat)
    requires n <= |ids|
  {
    && m <= n && (forall j :: m < j <= n ==> !(decode(ids[..j]) <= text))
    && (if m == 0 then boundary == 0 else decode(ids[..m]) <= text && boundary == |decode(ids[..m])|)
  }

  lemma {:induction false} RecoveredIsLongest(decode: Decoder, ids: seq<int>, text: string, n: nat) returns (m: nat)
    requires n <= |ids|
    ensures LongestBeginning(decode, ids, text, n, m, Recovered(decode, ids, text, n))
  {
    if n > 0 && !(decode(ids[..n]) <= text) {
      m := RecoveredIsLongest(decode, ids, text, n - 1);
    } else {
      m := n;
    }
  }

  function Extents(decode: Decoder, ids: seq<int>, text: string): (offsets: seq<(int, int)>)
    ensures |offsets| == |ids|
  {
    seq(|ids|, i requires 0 <= i < |ids| => (Recovered(decode, ids, text, i), Recovered(decode, ids, text, i + 1)))
  }

  method ProbeOffsetsFallback(decode: Decoder, ids: seq<int>, text: string)
    returns (r: Result<seq<(int, int)>, ProbeError>)
    ensures r == if Recovered(decode, ids, text, |ids|) == |text| then Ok(Extents(decode, ids, text))
                 else Err(OffsetsNotRecovered)
  {
    var boundaries: seq<int> := [0];
    for tokenEnd := 1 to |ids| + 1
      invariant |boundaries| == tokenEnd
      invariant forall i :: 0 <= i < tokenEnd ==> boundaries[i] == Recovered(decode, ids, text, i)
    {
      var decoded := decode(ids[..tokenEnd]);
      boundaries := boundaries + [if decoded <= text then |decoded| else boundaries[|boundaries| - 1]];
    }
    if boundaries[|boundaries| - 1] != |text| {
      return Err(OffsetsNotRecovered);
    }
    var offsets := seq(|ids|, i requires 0 <= i < |ids| => (boundaries[i], boundaries[i + 1]));
    assert offsets == Extents(decode, ids, text);
    r := Ok(offsets);
  }

  /** Recovered extents leave no character out, even where boundaries go back. */
  lemma ExtentsOverlap(decode: Decoder, ids: seq<int>, text: string, low: int, high: int) returns (i: nat)
    requires Recovered(decode, ids, text, |ids|) == |text| && 0 <= low < high && low < |text|
    ensures i < |ids| && Overlaps(Extents(decode, ids, text)[i], low, high)
  {
    i := FirstBeyond(decode, ids, text, low, |ids|);
  }

  lemma {:induction false} FirstBeyond(decode: Decoder, ids: seq<int>, text: string, low: int, n: nat) returns (i: nat)
    requires n <= |ids| && 0 <= low < Recovered(decode, ids, text, n)
    ensures i < n && Recovered(decode, ids, text, i) <= low < Recovered(decode, ids, text, i + 1)
  {
    if Recovered(decode, ids, text, n - 1) <= low {
      i := n - 1;
    } else {
      i := FirstBeyond(decode, ids, text, low, n - 1);
    }
  }

  // ---- which tokens are scored ------------------------------------------------------------------------------------

  /** The token has a character of the stretch, or lies around it. */
  predicate Overlaps(offset: (int, int), low: int, high: int) {
    offset.1 > low && offset.0 < high
  }

  ghost predicate Lies(c: int, low: int, high: int) {
    low <= c < high
  }

  ghost predicate HasCharacter(offset: (int, int), low: int, high: int) {
    exists c :: Lies(c, offset.0, offset.1) && Lies(c, low, high)
  }

  lemma OverlapIsACharacter(offset: (int, int), low: int, high: int)
    requires low < high && offset.0 < offset.1
    ensures Overlaps(offset, low, high) <==> HasCharacter(offset, low, high)
  {
    var c := if offset.0 < low then low else offset.0;
    assert Overlaps(offset, low, high) ==> Lies(c, offset.0, offset.1) && Lies(c, low, high);
  }

  /** Of the tokens with an extent, exactly those with a character of the stretch. */
  ghost predicate ScoresStretch(positions: seq<int>, offsets: seq<(int, int)>, low: int, high: int) {
    forall p :: 0 <= p < |offsets| && offsets[p].0 < offsets[p].1 ==>
      (p in positions <==> HasCharacter(offsets[p], low, high))
  }

  /** The tokens that overlap the stretch, in order. */
  ghost predicate AreOverlaps(positions: seq<int>, offsets: seq<(int, int)>, low: int, high: int) {
    && (forall i, j :: 0 <= i < j < |positions| ==> positions[i] < positions[j])
    && forall p :: p in positions <==> 0 <= p < |offsets| && Overlaps(offsets[p], low, high)
  }

  ghost predicate SomeOverlap(offsets: seq<(int, int)>, low: int, high: int) {
    exists p :: 0 <= p < |offsets| && Overlaps(offsets[p], low, high)
  }

  method OverlapPositions(offsets: seq<(int, int)>, low: int, high: int) returns (positions: seq<int>)
    ensures AreOverlaps(positions, offsets, low, high)
    ensures low < high ==> ScoresStretch(positions, offsets, low, high)
  {
    positions := [];
    for index := 0 to |offsets|
      invariant AreOverlaps(positions, offsets[..index], low, high)
    {
      if Overlaps(offsets[index], low, high) {
        assert forall i :: 0 <= i < |positions| ==> positions[i] in positions;
        positions := positions + [index];
      }
    }
    assert offsets[..|offsets|] == offsets;
    forall p | 0 <= p < |offsets| && offsets[p].0 < offsets[p].1 && low < high
      ensures p in positions <==> HasCharacter(offsets[p], low, high)
    {
      OverlapIsACharacter(offsets[p], low, high);
    }
  }

  /** The extents that the probe is built from, if there are any. */
  function OffsetsOf(encode: Encoder, decode: Decoder, text: string): (r: Result<seq<(int, int)>, ProbeError>) {
    var encoded := encode(text);
    if encoded.offsets.Some? then Ok(encoded.offsets.value)
    else if Recovered(decode, encoded.ids, text, |encoded.ids|) == |text| then Ok(Extents(decode, encoded.ids, text))
    else Err(OffsetsNotRecovered)
  }

  /** The first check that fails, if one does. */
  ghost function ProbeCheck(encode: Encoder, decode: Decoder, answer: string): (r: Option<ProbeError>) {
    var text := ProbeText(answer);
    var encoded, offsets := encode(text), OffsetsOf(encode, decode, text);
    if answer == "" then Some(EmptyAnswer)
    else if offsets.Err? then Some(offsets.error)
    else if |offsets.value| != |encoded.ids| then Some(LengthMismatch)
    else if decode(encoded.ids) != text then Some(NoRoundTrip)
    else if !SomeOverlap(offsets.value, |PROBE_PREFIX|, |PROBE_PREFIX| + |answer|) then Some(NoAnswerToken)
    else None
  }

  /** The probe's tokens are those of the whole probe text, and exactly those that overlap the answer are scored. */
  ghost predicate ProbeFits(encode: Encoder, decode: Decoder, answer: string, probe: AnswerProbe) {
    var offsets, low, high := OffsetsOf(encode, decode, ProbeText(answer)), |PROBE_PREFIX|, |PROBE_PREFIX| + |answer|;
    && probe.tokenIds == encode(ProbeText(answer)).ids && decode(probe.tokenIds) == ProbeText(answer)
    && offsets.Ok? && |offsets.value| == |probe.tokenIds|
    && AreOverlaps(probe.answerPositions, offsets.value, low, high)
    && ScoresStretch(probe.answerPositions, offsets.value, low, high)
  }

  /** It fails exactly with the first check that fails. */
  method BuildAnswerProbe(encode: Encoder, decode: Decoder, answer: string) returns (r: Result<AnswerProbe, ProbeError>)
    ensures r.Ok? <==> ProbeCheck(encode, decode, answer).None?
    ensures r.Err? ==> ProbeCheck(encode, decode, answer) == Some(r.error)
    ensures r.Ok? ==> ProbeFits(encode, decode, answer, r.value)
  {
    if answer == "" {
      return Err(EmptyAnswer);
    }
    var text := ProbeText(answer);
    var low, high := |PROBE_PREFIX|, |PROBE_PREFIX| + |answer|;
    var encoded := encode(text);
    var offsets: seq<(int, int)>;
    if encoded.offsets.None? {
      var recovered := ProbeOffsetsFallback(decode, encoded.ids, text);
      if recovered.Err? {
        return Err(recovered.error);
      }
      offsets := recovered.value;
    } else {
      offsets := encoded.offsets.value;
    }
    if |offsets| != |encoded.ids| {
      return Err(LengthMismatch);
    }
    if decode(encoded.ids) != text {
      return Err(NoRoundTrip);
    }
    var positions := OverlapPositions(offsets, low, high);
    if positions == [] {
      return Err(NoAnswerToken);
    }
    assert positions[0] in positions;
    r := Ok(AnswerProbe(encoded.ids, positions));
  }

  /** Without extents of its own, a tokenizer serves every non-empty answer whose probe it decodes back. */
  lemma RecoveringTokenizerServes(encode: Encoder, decode: Decoder, answer: string)
    requires encode(ProbeText(answer)).offsets.None? && decode([]) == ""
    ensures ProbeCheck(encode, decode, answer).None? <==>
              answer != "" && decode(encode(ProbeText(answer)).ids) == ProbeText(answer)
  {
    var text := ProbeText(answer);
    var ids := encode(text).ids;
    if answer != "" && decode(ids) == text {
      assert ids[..|ids|] == ids;
      var i := ExtentsOverlap(decode, ids, text, |PROBE_PREFIX|, |PROBE_PREFIX| + |answer|);
    }
  }

  /** The first token of the probe already has characters of the answer. */
  predicate FirstTokenIsScored(encode: Encoder, decode: Decoder, answer: string) {
    var offsets := OffsetsOf(encode, decode, ProbeText(answer));
    offsets.Ok? && offsets.value != [] && Overlaps(offsets.value[0], |PROBE_PREFIX|, |PROBE_PREFIX| + |answer|)
  }

  /** All scored tokens have a predictor inside the probe exactly when the first token does not reach the answer. */
  lemma ScoreableIff(probe: AnswerProbe, offsets: seq<(int, int)>, low: int, high: int)
    requires |offsets| == |probe.tokenIds| && AreOverlaps(probe.answerPositions, offsets, low, high)
    requires probe.answerPositions != []
    ensures offsets != []
    ensures Scoreable(probe) <==> !Overlaps(offsets[0], low, high)
  {
    assert probe.answerPositions[0] in probe.answerPositions;
    assert 0 in probe.answerPositions <==> Overlaps(offsets[0], low, high);
  }
}
