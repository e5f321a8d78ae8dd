// Lists of spans that are determined by what they cover and where they are cut.

module SpanCuts {
  import opened Spans

  ghost predicate Exact(text: string, s: Span) {
    0 <= s.start < s.end <= |text| && s.text == text[s.start..s.end]
  }

  ghost predicate Ordered(spans: seq<Span>) {
    forall i, j :: 0 <= i < j < |spans| ==> spans[i].end <= spans[j].start
  }

  ghost predicate InSome(spans: seq<Span>, p: int) {
    exists i :: 0 <= i < |spans| && spans[i].start <= p < spans[i].end
  }

  /** No cut lies strictly inside the span. */
  ghost predicate Whole(s: Span, cut: nat -> bool) {
    forall c: nat :: s.start < c < s.end ==> !cut(c)
  }

  ghost predicate CutBetween(cut: nat -> bool, from: int, to: int) {
    exists c: nat :: from <= c <= to && cut(c)
  }

  /** Begins and ends with positions that are to be covered. */
  ghost predicate Tight(text: string, covered: nat -> bool, s: Span) {
    Exact(text, s) && covered(s.start) && covered(s.end - 1)
  }

  /** Everything that is to be covered is covered, spans are divided at the cuts and nowhere else. */
  ghost predicate DividedAt(text: string, covered: nat -> bool, cut: nat -> bool, spans: seq<Span>) {
    && Ordered(spans)
    && (forall i :: 0 <= i < |spans| ==> Tight(text, covered, spans[i]) && Whole(spans[i], cut))
    && (forall p: nat :: p < |text| && covered(p) ==> InSome(spans, p))
    && (forall i :: 0 < i < |spans| ==> CutBetween(cut, spans[i - 1].end, spans[i].start))
  }

  /** That leaves no choice. */
  lemma DivisionIsUnique(text: string, covered: nat -> bool, cut: nat -> bool, a: seq<Span>, b: seq<Span>)
    requires DividedAt(text, covered, cut, a) && DividedAt(text, covered, cut, b)
    ensures a == b
  {
    hide DividedAt;
    var n := if |a| < |b| then |a| else |b|;
    DivisionsAgree(text, covered, cut, a, b, n);
    NoneBeyond(text, covered, cut, a, b, n);
    NoneBeyond(text, covered, cut, b, a, n);
    assert a[..|a|] == a && b[..|b|] == b;
  }

  lemma NoneBeyond(text: string, covered: nat -> bool, cut: nat -> bool, a: seq<Span>, b: seq<Span>, n: nat)
    requires DividedAt(text, covered, cut, a) && DividedAt(text, covered, cut, b)
    requires n <= |a| && n <= |b| && a[..n] == b[..n]
    ensures n == |a| ==> n == |b|
  {
    hide Whole;
    forall i | 0 <= i < n ensures a[i] == b[i] {
      assert a[..n][i] == b[..n][i];
    }
    assert forall i, j :: 0 <= i < n <= j < |b| ==> a[i].end <= b[j].start;
    assert forall j :: 0 <= j < |b| ==> Tight(text, covered, b[j]);
    assert n < |b| ==> InSome(a, b[n].start);
  }

  lemma {:induction false} DivisionsAgree(
    text: string, covered: nat -> bool, cut: nat -> bool, a: seq<Span>, b: seq<Span>, n: nat)
    requires DividedAt(text, covered, cut, a) && DividedAt(text, covered, cut, b) && n <= |a| && n <= |b|
    ensures a[..n] == b[..n]
  {
    hide *;
    if n == 0 {
      assert a[..0] == b[..0];
    } else {
      var i := n - 1;
      DivisionsAgree(text, covered, cut, a, b, i);
      StartsNoLater(text, covered, cut, a, b, i);
      StartsNoLater(text, covered, cut, b, a, i);
      EndsNoLater(text, covered, cut, a, b, i);
      EndsNoLater(text, covered, cut, b, a, i);
      IsTight(text, covered, cut, a, i);
      IsTight(text, covered, cut, b, i);
      SameSpan(text, covered, a[i], b[i]);
      assert a[..n] == a[..i] + [a[i]] && b[..n] == b[..i] + [b[i]];
    }
  }

  lemma SameSpan(text: string, covered: nat -> bool, s: Span, t: Span)
    requires Tight(text, covered, s) && Tight(text, covered, t) && s.start == t.start && s.end == t.end
    ensures s == t
  {
  }

  lemma IsTight(text: string, covered: nat -> bool, cut: nat -> bool, a: seq<Span>, i: nat)
    requires DividedAt(text, covered, cut, a) && i < |a|
    ensures Tight(text, covered, a[i])
  {
  }

  lemma StartsNoLater(text: string, covered: nat -> bool, cut: nat -> bool, a: seq<Span>, b: seq<Span>, i: nat)
    requires DividedAt(text, covered, cut, a) && DividedAt(text, covered, cut, b)
    requires i < |a| && i < |b| && a[..i] == b[..i]
    ensures b[i].start <= a[i].start
  {
    hide Whole, CutBetween;
    var p: nat := a[i].start;
    forall j | 0 <= j < i ensures b[j].end <= p {
      assert a[..i][j] == b[..i][j];
    }
    assert forall j :: 0 <= j < |b| ==> Tight(text, covered, b[j]);
    assert forall j :: i < j < |b| ==> b[i].start <= b[j].start;
    assert Tight(text, covered, a[i]);
    assert InSome(b, p);
  }

  lemma EndsNoLater(text: string, covered: nat -> bool, cut: nat -> bool, a: seq<Span>, b: seq<Span>, i: nat)
    requires DividedAt(text, covered, cut, a) && DividedAt(text, covered, cut, b)
    requires i < |a| && i < |b| && a[i].start == b[i].start
    ensures b[i].end <= a[i].end
  {
    hide Tight, CutBetween, Whole;
    var last := LastCovered(text, covered, cut, b, i);
    forall k | i < k < |a| ensures a[k].start > last {
      NextCut(text, covered, cut, a, i, k);
      NoCutBefore(text, covered, cut, a, b, i, a[k].start);
    }
    forall k | 0 <= k < i ensures a[k].end <= last {
      EarlierEnds(text, covered, cut, a, b, k, i);
    }
    assert InSome(a, last);
  }

  lemma EarlierEnds(text: string, covered: nat -> bool, cut: nat -> bool, a: seq<Span>, b: seq<Span>, k: nat, i: nat)
    requires DividedAt(text, covered, cut, a) && DividedAt(text, covered, cut, b)
    requires k < i < |a| && i < |b| && a[i].start == b[i].start
    ensures a[k].end <= b[i].end - 1
  {
    assert a[k].end <= a[i].start;
    assert Tight(text, covered, b[i]);
  }

  lemma LastCovered(text: string, covered: nat -> bool, cut: nat -> bool, b: seq<Span>, i: nat) returns (p: nat)
    requires DividedAt(text, covered, cut, b) && i < |b|
    ensures p == b[i].end - 1 && p < |text| && covered(p)
  {
    hide Whole, CutBetween, InSome, Ordered;
    assert Tight(text, covered, b[i]);
    p := b[i].end - 1;
  }

  /** A cut after the end of `a[i]` lies beyond the span of `b` that starts with it, or inside it. */
  lemma NoCutBefore(text: string, covered: nat -> bool, cut: nat -> bool, a: seq<Span>, b: seq<Span>, i: nat, at: int)
    requires DividedAt(text, covered, cut, a) && DividedAt(text, covered, cut, b)
    requires i < |a| && i < |b| && a[i].start == b[i].start && CutBetween(cut, a[i].end, at)
    ensures at >= b[i].end
  {
    assert Tight(text, covered, a[i]) && Whole(b[i], cut);
  }

  lemma NextCut(text: string, covered: nat -> bool, cut: nat -> bool, a: seq<Span>, i: nat, k: nat)
    requires DividedAt(text, covered, cut, a) && i < k < |a|
    ensures CutBetween(cut, a[i].end, a[k].start)
  {
    assert CutBetween(cut, a[i + 1 - 1].end, a[i + 1].start);
    assert Tight(text, covered, a[i + 1]);
    assert i + 1 < k ==> a[i + 1].end <= a[k].start;
  }
}
