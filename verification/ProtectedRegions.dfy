// Protected regions of a text, and step boundaries outside them.

module ProtectedRegions {
  import opened Common
  import opened Spans
  import opened SpanCuts
  import opened TextLines
  import opened StepSpans
  import opened StepBlocks

  function DropLineBreak(line: string): (r: string)
    ensures |r| <= |line|
  {
    if line != "" && line[|line| - 1] in {'\r', '\n'} then DropLineBreak(line[..|line| - 1]) else line
  }

  ghost predicate NotFree(step: Scanner, text: string, p: nat) {
    StateAt(step, text, 0, Free, p) != Some(Free)
  }

  ghost predicate Inside(step: Scanner, text: string, p: nat) {
    StateAt(step, text, 0, Free, p).Some? && NotFree(step, text, p)
  }

  ghost predicate NoneFree(step: Scanner, text: string, from: nat, to: nat) {
    forall p: nat :: from < p < to ==> NotFree(step, text, p)
  }

  /** The range starts at a free line, and no line strictly inside it starts free. */
  ghost predicate IsProtected(step: Scanner, text: string, range: (nat, nat)) {
    && StateAt(step, text, 0, Free, range.0) == Some(Free)
    && NoneFree(step, text, range.0, range.1)
  }

  /** The line at `a` is free and the next one is not. */
  ghost predicate Enters(step: Scanner, text: string, a: nat) {
    && a < |text| && StateAt(step, text, 0, Free, a) == Some(Free)
    && NotFree(step, text, a + LineLength(text[a..]))
  }

  /** The next free line after `a` is at `q`, and `e` is before the line break that precedes it; if there is no
      such line, `e` is the end of the text. */
  ghost predicate EndsBefore(step: Scanner, text: string, a: nat, q: nat, e: nat) {
    && a < q <= |text| && NoneFree(step, text, a, q)
    && (if NotFree(step, text, q) then q == e == |text| else e == a + |DropLineBreak(text[a..q])|)
  }

  ghost predicate IsRegion(step: Scanner, text: string, range: (nat, nat)) {
    Enters(step, text, range.0) && exists q: nat :: EndsBefore(step, text, range.0, q, range.1)
  }

  ghost predicate InOrder(ranges: seq<(nat, nat)>) {
    && (forall i :: 0 <= i < |ranges| ==> ranges[i].0 < ranges[i].1)
    && forall i, j :: 0 <= i < j < |ranges| ==> ranges[i].1 <= ranges[j].0
  }

  ghost predicate StartsOne(a: nat, ranges: seq<(nat, nat)>) {
    exists i :: 0 <= i < |ranges| && ranges[i].0 == a
  }

  /** All protected regions of the text, from left to right. */
  ghost predicate AreRegions(step: Scanner, text: string, ranges: seq<(nat, nat)>) {
    && (forall i :: 0 <= i < |ranges| ==> IsRegion(step, text, ranges[i]))
    && InOrder(ranges)
    && forall a: nat :: Enters(step, text, a) ==> StartsOne(a, ranges)
  }

  lemma RegionEndIsUnique(step: Scanner, text: string, a: nat, e: nat, e': nat)
    requires IsRegion(step, text, (a, e)) && IsRegion(step, text, (a, e'))
    ensures e == e'
  {
    hide StateAt, DropLineBreak;
    var q: nat :| EndsBefore(step, text, a, q, e);
    var q': nat :| EndsBefore(step, text, a, q', e');
    assert q < q' ==> NotFree(step, text, q);
    assert q' < q ==> NotFree(step, text, q');
  }

  lemma {:induction false} SameUpTo(step: Scanner, text: string, a: seq<(nat, nat)>, b: seq<(nat, nat)>, k: nat)
    requires AreRegions(step, text, a) && AreRegions(step, text, b) && k <= |a| && k <= |b|
    ensures a[..k] == b[..k]
  {
    hide IsRegion, Enters;
    if k > 0 {
      var n := k - 1;
      SameUpTo(step, text, a, b, n);
      NoneSkipped(step, text, a, b, n);
      NoneSkipped(step, text, b, a, n);
      RegionEndIsUnique(step, text, a[n].0, a[n].1, b[n].1);
      assert a[..k] == a[..n] + [a[n]] && b[..k] == b[..n] + [b[n]];
    }
  }

  lemma SameItems(a: seq<(nat, nat)>, b: seq<(nat, nat)>, n: nat)
    requires n <= |a| && n <= |b| && a[..n] == b[..n]
    ensures forall i :: 0 <= i < n ==> a[i] == b[i]
  {
    assert forall i :: 0 <= i < n ==> a[i] == a[..n][i];
  }

  lemma StartsIn(step: Scanner, text: string, ranges: seq<(nat, nat)>, range: (nat, nat))
    requires AreRegions(step, text, ranges) && IsRegion(step, text, range)
    ensures StartsOne(range.0, ranges)
  {
    hide EndsBefore, Enters;
  }

  /** The next region of one list cannot lie before the next one of the other. */
  lemma NoneSkipped(step: Scanner, text: string, a: seq<(nat, nat)>, b: seq<(nat, nat)>, n: nat)
    requires AreRegions(step, text, a) && AreRegions(step, text, b) && n < |a| && n <= |b| && a[..n] == b[..n]
    ensures n < |b| && b[n].0 <= a[n].0
  {
    hide IsRegion, Enters;
    StartsIn(step, text, b, a[n]);
    var j :| 0 <= j < |b| && b[j].0 == a[n].0;
    SameItems(a, b, n);
  }

  /** A text has one list of protected regions. */
  lemma RegionsAreUnique(step: Scanner, text: string, a: seq<(nat, nat)>, b: seq<(nat, nat)>)
    requires AreRegions(step, text, a) && AreRegions(step, text, b)
    ensures a == b
  {
    hide AreRegions;
    if |a| <= |b| {
      SameUpTo(step, text, a, b, |a|);
      if |a| < |b| {
        NoneSkipped(step, text, b, a, |a|);
      }
    } else {
      SameUpTo(step, text, a, b, |b|);
      NoneSkipped(step, text, a, b, |b|);
    }
    assert a == a[..|a|] && b == b[..|b|];
  }

  ghost predicate CoveredBy(p: nat, ranges: seq<(nat, nat)>) {
    exists i :: 0 <= i < |ranges| && ranges[i].0 < p < ranges[i].1
  }

  /** The ranges closed so far and the one still open, when all lines before `cursor` are scanned. */
  ghost predicate Protecting(
    step: Scanner, text: string, state: State, open: Option<nat>, cursor: nat, ranges: seq<(nat, nat)>)
  {
    && cursor <= |text| && StateAt(step, text, 0, Free, cursor) == Some(state)
    && (state == Free <==> open.None?)
    && (open.Some? ==> open.value < cursor && IsProtected(step, text, (open.value, cursor)))
    && (forall p: nat :: p < cursor && Inside(step, text, p) ==>
          CoveredBy(p, ranges) || (open.Some? && open.value < p))
  }

  /** The regions that are closed, and the places where regions begin. */
  ghost predicate Listing(
    step: Scanner, text: string, open: Option<nat>, cursor: nat, ranges: seq<(nat, nat)>)
  {
    && (forall i :: 0 <= i < |ranges| ==> IsRegion(step, text, ranges[i])) && InOrder(ranges)
    && (forall i :: 0 <= i < |ranges| ==>
          ranges[i].0 < ranges[i].1 <= cursor && (open.Some? ==> ranges[i].1 <= open.value))
    && (open.Some? ==> open.value < cursor && Enters(step, text, open.value))
    && forall a: nat :: a < cursor && Enters(step, text, a) ==> StartsOne(a, ranges) || open == Some(a)
  }

  lemma ListClosed(
    step: Scanner, text: string, open: nat, cursor: nat, next: nat, ranges: seq<(nat, nat)>, q: nat, e: nat)
    requires Listing(step, text, Some(open), cursor, ranges) && cursor <= next
    requires EndsBefore(step, text, open, q, e) && open < e <= next
    requires forall a: nat :: cursor <= a < next ==> !Enters(step, text, a)
    ensures Listing(step, text, None, next, ranges + [(open, e)])
  {
    hide Enters, EndsBefore;
    var last := (open, e);
    var all := ranges + [last];
    assert IsRegion(step, text, last);
    forall a: nat | a < next && Enters(step, text, a) ensures StartsOne(a, all) {
      StartsAppend(a, ranges, last);
    }
  }

  lemma StartsAppend(a: nat, ranges: seq<(nat, nat)>, last: (nat, nat))
    requires StartsOne(a, ranges) || a == last.0
    ensures StartsOne(a, ranges + [last])
  {
    var all := ranges + [last];
    if StartsOne(a, ranges) {
      var i :| 0 <= i < |ranges| && ranges[i].0 == a;
      assert all[i] == ranges[i];
    } else {
      assert all[|ranges|] == last;
    }
  }

  lemma ListGoesOn(
    step: Scanner, text: string, open: Option<nat>, cursor: nat, next: nat, ranges: seq<(nat, nat)>,
    open': Option<nat>)
    requires Listing(step, text, open, cursor, ranges) && cursor < next
    requires open' == open || (open.None? && open' == Some(cursor))
    requires Enters(step, text, cursor) <==> open' == Some(cursor)
    requires forall a: nat :: cursor < a < next ==> !Enters(step, text, a)
    ensures Listing(step, text, open', next, ranges)
  {
    hide Enters, IsRegion;
  }

  lemma {:induction false} DropTail(before: string, line: string)
    requires DropLineBreak(line) != ""
    ensures DropLineBreak(before + line) == before + DropLineBreak(line)
  {
    if line[|line| - 1] in {'\r', '\n'} {
      assert (before + line)[..|before + line| - 1] == before + line[..|line| - 1];
      DropTail(before, line[..|line| - 1]);
    }
  }

  lemma NoLineInside(step: Scanner, text: string, cursor: nat, next: nat, p: nat)
    requires cursor < |text| && StateAt(step, text, 0, Free, cursor).Some?
    requires next == cursor + LineLength(text[cursor..]) && cursor < p < next
    ensures NotFree(step, text, p) && !Inside(step, text, p)
  {
    if StateAt(step, text, 0, Free, p).Some? {
      NextLineStart(step, text, 0, Free, cursor, p);
    }
  }

  lemma RangeGrows(step: Scanner, text: string, a: nat, cursor: nat, next: nat, b: nat)
    requires cursor < |text| && StateAt(step, text, 0, Free, cursor).Some?
    requires next == cursor + LineLength(text[cursor..]) && cursor <= b <= next
    requires a == cursor || NotFree(step, text, cursor)
    requires a <= cursor && NoneFree(step, text, a, cursor)
    ensures NoneFree(step, text, a, b)
  {
    hide StateAt, LineLength;
    forall p: nat | cursor < p < b ensures NotFree(step, text, p) {
      NoLineInside(step, text, cursor, next, p);
    }
  }

  lemma CoverGrows(
    step: Scanner, text: string, state: State, open: Option<nat>, cursor: nat, next: nat, ranges: seq<(nat, nat)>,
    open': Option<nat>, ranges': seq<(nat, nat)>)
    requires Protecting(step, text, state, open, cursor, ranges) && cursor < |text|
    requires next == cursor + LineLength(text[cursor..])
    requires open.None? ==> ranges' == ranges
    requires open.Some? ==>
               || (open' == open && ranges' == ranges)
               || (|ranges'| == |ranges| + 1 && ranges'[..|ranges|] == ranges
                   && ranges'[|ranges|].0 == open.value && cursor < ranges'[|ranges|].1)
    ensures forall p: nat :: p < next && Inside(step, text, p) ==>
              CoveredBy(p, ranges') || (open'.Some? && open'.value < p)
  {
    forall p: nat | p < next && Inside(step, text, p)
      ensures CoveredBy(p, ranges') || (open'.Some? && open'.value < p)
    {
      if cursor < p {
        NoLineInside(step, text, cursor, next, p);
      } else if CoveredBy(p, ranges) && p < cursor {
        var i :| 0 <= i < |ranges| && ranges[i].0 < p < ranges[i].1;
        assert ranges'[..|ranges|][i] == ranges[i];
      } else if open.Some? && !(open' == open && ranges' == ranges) {
        assert ranges'[|ranges|].0 < p < ranges'[|ranges|].1;
      }
    }
  }

  lemma {:induction false} VisibleLineRemains(line: string)
    requires !AllSpace(line)
    ensures DropLineBreak(line) != ""
  {
    if line != "" && line[|line| - 1] in {'\r', '\n'} {
      assert IsSpace(line[|line| - 1]);
      VisibleLineRemains(line[..|line| - 1]);
    }
  }

  /** The protected regions of a text, every one of them, from left to right; every line that does not start free
      lies inside one. */
  method ProtectedRanges(step: Scanner, text: string) returns (ranges: seq<(nat, nat)>)
    requires LineMachine(step)
    ensures AreRegions(step, text, ranges)
    ensures forall i :: 0 <= i < |ranges| ==> IsProtected(step, text, ranges[i])
    ensures forall p: nat :: p < |text| && Inside(step, text, p) ==> CoveredBy(p, ranges)
  {
    hide LineMachine, Listing, AreRegions, IsRegion, EndsBefore, Enters;
    ranges := [];
    var state, cursor: nat := Free, 0;
    var rangeStart: Option<nat> := None;
    NothingListed(step, text);
    while cursor < |text|
      invariant Protecting(step, text, state, rangeStart, cursor, ranges)
      invariant Listing(step, text, rangeStart, cursor, ranges)
      decreases |text| - cursor
    {
      state, rangeStart, cursor, ranges := ProtectLine(step, text, state, rangeStart, cursor, ranges);
    }
    if rangeStart.Some? {
      var last := (rangeStart.value, |text|);
      forall p: nat | p < |text| && Inside(step, text, p) ensures CoveredBy(p, ranges + [last]) {
        CoverAppend(p, ranges, last);
      }
      LeftOpen(step, text, rangeStart.value, cursor, ranges);
      ranges := ranges + [last];
    }
    ListIsComplete(step, text, cursor, ranges);
  }

  lemma NothingListed(step: Scanner, text: string)
    ensures Listing(step, text, None, 0, [])
  {
  }

  lemma LeftOpen(step: Scanner, text: string, open: nat, cursor: nat, ranges: seq<(nat, nat)>)
    requires Listing(step, text, Some(open), cursor, ranges) && cursor == |text|
    requires NoneFree(step, text, open, cursor) && NotFree(step, text, cursor)
    ensures Listing(step, text, None, cursor, ranges + [(open, |text|)])
  {
    hide Enters, NoneFree, NotFree;
    OpenIsEarlier(step, text, open, cursor, ranges);
    assert EndsBefore(step, text, open, cursor, |text|);
    ListClosed(step, text, open, cursor, cursor, ranges, cursor, |text|);
  }

  lemma OpenIsEarlier(step: Scanner, text: string, open: nat, cursor: nat, ranges: seq<(nat, nat)>)
    requires Listing(step, text, Some(open), cursor, ranges)
    ensures open < cursor
  {
  }

  lemma ListIsComplete(step: Scanner, text: string, cursor: nat, ranges: seq<(nat, nat)>)
    requires Listing(step, text, None, cursor, ranges) && cursor == |text|
    ensures AreRegions(step, text, ranges)
    ensures forall i :: 0 <= i < |ranges| ==> IsProtected(step, text, ranges[i])
  {
    hide StateAt;
    forall i | 0 <= i < |ranges| ensures IsProtected(step, text, ranges[i]) {
      RegionIsProtected(step, text, ranges[i]);
    }
  }

  lemma RegionIsProtected(step: Scanner, text: string, range: (nat, nat))
    requires IsRegion(step, text, range)
    ensures IsProtected(step, text, range)
  {
    hide StateAt;
    var q: nat :| EndsBefore(step, text, range.0, q, range.1);
    assert range.1 <= q;
  }

  lemma CoverAppend(p: nat, ranges: seq<(nat, nat)>, last: (nat, nat))
    requires CoveredBy(p, ranges) || last.0 < p < last.1
    ensures CoveredBy(p, ranges + [last])
  {
    var all := ranges + [last];
    if CoveredBy(p, ranges) {
      var i :| 0 <= i < |ranges| && ranges[i].0 < p < ranges[i].1;
      assert all[i] == ranges[i];
    } else {
      assert all[|ranges|] == last;
    }
  }

  method ProtectLine(
    step: Scanner, text: string, state: State, open: Option<nat>, cursor: nat, ranges: seq<(nat, nat)>)
    returns (state': State, open': Option<nat>, cursor': nat, ranges': seq<(nat, nat)>)
    requires LineMachine(step) && cursor < |text| && Protecting(step, text, state, open, cursor, ranges)
    requires Listing(step, text, open, cursor, ranges)
    ensures cursor < cursor' && Protecting(step, text, state', open', cursor', ranges')
    ensures Listing(step, text, open', cursor', ranges')
  {
    hide Listing, Enters, LineLength, StateAt, LineMachine, DropLineBreak, Inside, CoveredBy;
    cursor' := cursor + LineLength(text[cursor..]);
    var line := text[cursor..cursor'];
    ScanOn(step, text, 0, Free, cursor);
    state', open', ranges' := step(line, state), open, ranges;
    OneEntry(step, text, state, cursor, cursor', state');
    if state == Free && state' != Free {
      open' := Some(cursor);
      RangeGrows(step, text, cursor, cursor, cursor', cursor');
    }
    if state != Free {
      RangeGrows(step, text, open.value, cursor, cursor', cursor');
    }
    if state != Free && state' == Free {
      VisibleClosing(step, line, state);
      var end: nat := cursor + |DropLineBreak(line)|;
      RangeGrows(step, text, open.value, cursor, cursor', end);
      ranges', open' := ranges + [(open.value, end)], None;
      ClosesHere(step, text, open.value, cursor, cursor', end);
      ListClosed(step, text, open.value, cursor, cursor', ranges, cursor', end);
    } else {
      ListGoesOn(step, text, open, cursor, cursor', ranges, open');
    }
    CoverGrows(step, text, state, open, cursor, cursor', ranges, open', ranges');
  }

  lemma VisibleClosing(step: Scanner, line: string, state: State)
    requires LineMachine(step) && state != Free && step(line, state) == Free
    ensures DropLineBreak(line) != ""
  {
    VisibleLineRemains(line);
  }

  /** Within one line, a region can begin only at its start. */
  lemma OneEntry(step: Scanner, text: string, state: State, cursor: nat, next: nat, state': State)
    requires cursor < |text| && StateAt(step, text, 0, Free, cursor) == Some(state)
    requires next == cursor + LineLength(text[cursor..]) && StateAt(step, text, 0, Free, next) == Some(state')
    ensures Enters(step, text, cursor) <==> state == Free && state' != Free
    ensures forall a: nat :: cursor < a < next ==> !Enters(step, text, a)
  {
    hide StateAt, LineLength;
    forall a: nat | cursor < a < next ensures !Enters(step, text, a) {
      NoLineInside(step, text, cursor, next, a);
    }
  }

  lemma ClosesHere(step: Scanner, text: string, open: nat, cursor: nat, next: nat, end: nat)
    requires open < cursor < next <= |text| && NoneFree(step, text, open, next) && !NotFree(step, text, next)
    requires DropLineBreak(text[cursor..next]) != "" && end == cursor + |DropLineBreak(text[cursor..next])|
    ensures EndsBefore(step, text, open, next, end) && open < end <= next
  {
    hide NoneFree, NotFree, DropLineBreak;
    DropTail(text[open..cursor], text[cursor..next]);
    assert text[open..next] == text[open..cursor] + text[cursor..next];
  }

  /** No step boundary falls inside a protected region, except in the leading whitespace of the line that
      opens it. */
  lemma BoundariesAvoidProtected(step: Scanner, text: string, range: (nat, nat), at: nat)
    requires IsProtected(step, text, range) && StepMayStart(step, text, at)
    ensures range.0 < at < range.1 ==> AllSpace(text[range.0..at])
  {
    if range.0 < at < range.1 {
      var p: nat :| Leads(text, p, at) && StateAt(step, text, 0, Free, p) == Some(Free);
      assert p <= range.0 by { assert !NotFree(step, text, p); }
      if p < range.0 {
        NextLineStart(step, text, 0, Free, p, range.0);
        LeadLengthens(text, p, at);
        assert false;
      }
    }
  }
}
