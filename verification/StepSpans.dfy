// Spans that start and end where steps may, and how they are trimmed.

module StepSpans {
  import opened Common
  import opened Spans
  import opened SpanCuts
  import opened TextLines

  /** The tests that regular expressions decide, on a first line, on a whole span, or on one character. */
  datatype Cues = Cues(
    step: Scanner,
    heading: string -> bool,
    explicitStep: string -> bool,
    finalHeading: string -> bool,
    connector: string -> bool,
    thematicBreak: string -> bool,
    mathOnly: string -> bool,
    displayStart: string -> bool,
    list: string -> bool,
    introEnd: string -> bool,
    wordChar: char -> bool)


  /** A trimmed span whose first character opens a line outside every protected region, and whose last one
      closes a line. */
  ghost predicate Sound(step: Scanner, text: string, s: Span) {
    && Exact(text, s)
    && !IsSpace(text[s.start]) && !IsSpace(text[s.end - 1])
    && Reaches(step, text, s.start, Free)
    && EndsLine(text, s.end)
  }

  ghost predicate AllSound(step: Scanner, text: string, spans: seq<Span>) {
    forall i :: 0 <= i < |spans| ==> Sound(step, text, spans[i])
  }

  ghost predicate Within(spans: seq<Span>, lo: int, hi: int) {
    forall i :: 0 <= i < |spans| ==> lo <= spans[i].start && spans[i].end <= hi
  }

  /** The line at `c` has its first visible character before `limit`. */
  ghost predicate Opens(text: string, c: nat, limit: nat) {
    exists f: nat :: f < limit <= |text| && Leads(text, c, f) && !IsSpace(text[f])
  }

  lemma ReachesOn(step: Scanner, text: string, c: nat, f: nat, state: State)
    requires Reaches(step, text, c, state) && Leads(text, c, f)
    ensures Reaches(step, text, f, state)
  {
    var p: nat :| Leads(text, p, c) && StateAt(step, text, 0, Free, p) == Some(state);
    assert text[p..f] == text[p..c] + text[c..f];
    assert Leads(text, p, f);
  }

  method TrimmedSpan(text: string, from: int, to: int) returns (r: Option<Span>)
    requires 0 <= from <= to <= |text|
    ensures r.None? <==> AllSpace(text[from..to])
    ensures r.Some? ==>
              && Exact(text, r.value) && from <= r.value.start && r.value.end <= to
              && !IsSpace(text[r.value.start]) && !IsSpace(text[r.value.end - 1])
              && AllSpace(text[from..r.value.start]) && AllSpace(text[r.value.end..to])
  {
    hide AllSpace, IsSpace;
    var start, end := from, to;
    NoneIsSpace(text, from, to);
    while start < end && IsSpace(text[start])
      invariant from <= start <= end && AllSpace(text[from..start])
    {
      SpaceGrows(text, from, start, start + 1);
      start := start + 1;
    }
    while end > start && IsSpace(text[end - 1])
      invariant start <= end <= to && AllSpace(text[end..to])
      invariant start < end ==> !IsSpace(text[start])
    {
      SpaceGrows(text, end - 1, end, to);
      end := end - 1;
    }
    if start < end {
      r := Some(Span(start, end, text[start..end]));
      NotInSpace(text, from, to, start);
    } else {
      r := None;
      SpaceGrows(text, from, start, to);
    }
  }

  lemma NoneIsSpace(text: string, from: int, to: int)
    requires 0 <= from <= to <= |text|
    ensures AllSpace(text[from..from]) && AllSpace(text[to..to])
  {
  }

  /** Whitespace next to whitespace, or to one whitespace character. */
  lemma SpaceGrows(text: string, from: int, mid: int, to: int)
    requires 0 <= from <= mid <= to <= |text|
    requires AllSpace(text[from..mid]) || (mid == from + 1 && IsSpace(text[from]))
    requires AllSpace(text[mid..to]) || (to == mid + 1 && IsSpace(text[mid]))
    ensures AllSpace(text[from..to])
  {
    hide IsSpace;
    forall i | 0 <= i < to - from ensures IsSpace(text[from..to][i]) {
      if i < mid - from {
        assert text[from..to][i] == text[from..mid][i];
      } else {
        assert text[from..to][i] == text[mid..to][i - (mid - from)];
      }
    }
  }

  /** Trimming a stretch that opens a free line and ends at a line boundary gives a sound span that starts
      with the first visible character. */
  lemma TrimmedIsSound(step: Scanner, text: string, from: nat, to: nat, s: Span)
    requires Reaches(step, text, from, Free) && Opens(text, from, to)
    requires Exact(text, s) && from <= s.start && s.end <= to <= |text|
    requires !IsSpace(text[s.start]) && !IsSpace(text[s.end - 1])
    requires AllSpace(text[from..s.start]) && AllSpace(text[s.end..to])
    requires to == |text| || (to > 0 && IsBreak(text[to - 1])) || (s.end == to && EndsLine(text, to))
    ensures Sound(step, text, s) && Leads(text, from, s.start)
  {
    var f: nat :| f < to && Leads(text, from, f) && !IsSpace(text[f]);
    FirstVisible(text, from, f, s.start);
    ReachesOn(step, text, from, f, Free);
    if !(s.end == to && EndsLine(text, to)) {
      assert s.end == to ==> text[to - 1] == text[s.end - 1];
      BreaksAreSpace();
      assert EndsLine(text, s.end);
    }
  }

  lemma FirstVisible(text: string, from: nat, f: nat, g: nat)
    requires from <= f < |text| && from <= g < |text|
    requires AllSpace(text[from..f]) && AllSpace(text[from..g]) && !IsSpace(text[f]) && !IsSpace(text[g])
    ensures f == g
  {
    NotInSpace(text, from, g, f);
    NotInSpace(text, from, f, g);
  }

  lemma BreaksAreSpace()
    ensures forall c :: IsBreak(c) ==> IsSpace(c)
  {
  }

  lemma VisibleLineOpens(text: string, c: nat, n: nat)
    requires c < |text| && n == LineLength(text[c..]) && !AllSpace(text[c..c + n])
    ensures Opens(text, c, c + n)
  {
    var f := FirstVisibleAt(text, c, c + n);
    LeadsToVisible(text, c, f);
  }

  lemma VisibleLater(text: string, c: nat, limit: nat)
    requires c <= limit <= |text| && !AllSpace(text[c..limit]) && (c == limit || IsSpace(text[c]))
    ensures c < limit && !AllSpace(text[c + 1..limit])
  {
    hide IsSpace;
    NoneIsSpace(text, c, c);
    if c < limit && AllSpace(text[c + 1..limit]) {
      SpaceGrows(text, c, c + 1, limit);
    }
  }

  ghost function FirstVisibleAt(text: string, c: nat, limit: nat): (f: nat)
    requires c <= limit <= |text| && !AllSpace(text[c..limit])
    ensures c <= f < limit && AllSpace(text[c..f]) && !IsSpace(text[f])
    decreases limit - c
  {
    if c < limit && !IsSpace(text[c]) then
      NoneIsSpace(text, c, c);
      c
    else
      VisibleLater(text, c, limit);
      var f := FirstVisibleAt(text, c + 1, limit);
      SpaceGrows(text, c, c + 1, f);
      f
  }

  lemma NotInSpace(text: string, from: nat, to: nat, p: nat)
    requires from <= to <= |text| && p < |text| && !IsSpace(text[p])
    ensures AllSpace(text[from..to]) ==> p < from || to <= p
  {
    assert from <= p < to ==> text[from..to][p - from] == text[p];
  }

  lemma SpansAdvance(step: Scanner, text: string, spans: seq<Span>, i: nat, j: nat)
    requires AllSound(step, text, spans) && Ordered(spans) && i <= j < |spans|
    ensures Sound(step, text, spans[i]) && Sound(step, text, spans[j])
    ensures 0 <= spans[i].start < spans[i].end <= spans[j].end <= |text|
    ensures spans[i].start <= spans[j].start
  {
    assert Sound(step, text, spans[i]) && Sound(step, text, spans[j]);
  }

  /** A place where a step may begin: the first visible character of a line that no protected region
      contains. */
  ghost predicate StepMayStart(step: Scanner, text: string, at: int) {
    0 <= at < |text| && !IsSpace(text[at]) && Reaches(step, text, at, Free)
  }
}
