// Source-preserving spans of a text.

module Spans {
  import opened Pieces

  datatype Span = Span(start: int, end: int, text: string)

  function SpanStart(spans: seq<Span>, k: int): (r: int)
    requires 0 <= k <= |spans|
  {
    if k == 0 then 0 else spans[k - 1].end
  }

  /** Span `k` starts where its predecessor ends, is not empty, and carries its own characters. */
  ghost predicate SpanFits(spans: seq<Span>, k: int, text: string)
    requires 0 <= k < |spans|
  {
    && spans[k].start == SpanStart(spans, k)
    && 0 <= spans[k].start < spans[k].end <= |text|
    && spans[k].text == text[spans[k].start..spans[k].end]
  }

  /** An ordered partition without gaps, from the first character to the last. */
  ghost predicate Partitions(spans: seq<Span>, text: string) {
    && (forall k :: 0 <= k < |spans| ==> SpanFits(spans, k, text))
    && SpanStart(spans, |spans|) == |text|
  }

  function TextsOf(spans: seq<Span>): (r: seq<string>)
    ensures |r| == |spans| && forall k :: 0 <= k < |r| ==> r[k] == spans[k].text
  {
    seq(|spans|, k requires 0 <= k < |spans| => spans[k].text)
  }

  ghost predicate CutFrom(piece: string, lo: int, hi: int, text: string) {
    0 <= lo <= hi <= |text| && piece == text[lo..hi]
  }

  /** Pieces cut at increasing bounds from 0 on concatenate to the text up to the last bound. */
  lemma {:induction false} PiecesJoin(pieces: seq<string>, bounds: seq<int>, text: string)
    requires |bounds| == |pieces| + 1 && bounds[0] == 0
    requires forall k :: 0 <= k < |pieces| ==> CutFrom(pieces[k], bounds[k], bounds[k + 1], text)
    ensures 0 <= bounds[|pieces|] <= |text| && Flatten(pieces) == text[..bounds[|pieces|]]
  {
    if |pieces| > 0 {
      var n := |pieces| - 1;
      assert CutFrom(pieces[n], bounds[n], bounds[n + 1], text);
      forall k | 0 <= k < n ensures CutFrom(pieces[..n][k], bounds[..n + 1][k], bounds[..n + 1][k + 1], text) {
        assert CutFrom(pieces[k], bounds[k], bounds[k + 1], text);
      }
      PiecesJoin(pieces[..n], bounds[..n + 1], text);
    }
  }

  /** The texts of a partition concatenate to the text, exactly. */
  lemma PartitionRecoversText(spans: seq<Span>, text: string)
    requires Partitions(spans, text)
    ensures Flatten(TextsOf(spans)) == text
  {
    var bounds := seq(|spans| + 1, k requires 0 <= k < |spans| + 1 => SpanStart(spans, k));
    var texts := TextsOf(spans);
    forall k | 0 <= k < |spans| ensures CutFrom(texts[k], bounds[k], bounds[k + 1], text) {
      assert SpanFits(spans, k, text);
    }
    PiecesJoin(texts, bounds, text);
    assert text[..|text|] == text;
  }
}
