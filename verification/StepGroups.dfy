// Groups: chunks attached to each other, and fragments merged with a neighbour.

module StepGroups {
  import opened Common
  import opened Spans
  import opened SpanCuts
  import opened TextLines
  import opened Pieces
  import opened StepSpans
  import opened StepBlocks
  import opened StepChunks

  function WordChars(cues: Cues, s: string): (r: nat) {
    if s == "" then 0 else WordChars(cues, s[..|s| - 1]) + if cues.wordChar(s[|s| - 1]) then 1 else 0
  }

  /** Maximal runs of visible characters. */
  function Words(s: string): (r: nat) {
    if s == "" then 0
    else Words(s[..|s| - 1]) + if !IsSpace(s[|s| - 1]) && (|s| == 1 || IsSpace(s[|s| - 2])) then 1 else 0
  }

  predicate Tiny(cues: Cues, s: string) {
    WordChars(cues, s) < 24 || Words(s) <= 3
  }

  lemma {:induction false} TinyIsMonotone(cues: Cues, s: string, more: string)
    ensures WordChars(cues, s) <= WordChars(cues, s + more) && Words(s) <= Words(s + more)
    ensures Tiny(cues, s + more) ==> Tiny(cues, s)
  {
    if more == "" {
      assert s + more == s;
    } else {
      assert (s + more)[..|s + more| - 1] == s + more[..|more| - 1];
      TinyIsMonotone(cues, s, more[..|more| - 1]);
    }
  }

  function Slice(text: string, from: int, to: int): (r: string) {
    if 0 <= from <= to <= |text| then text[from..to] else ""
  }

  function Join(text: string, group: seq<Span>): (r: Span)
    requires group != []
  {
    Span(group[0].start, group[|group| - 1].end, Slice(text, group[0].start, group[|group| - 1].end))
  }

  /** Whether a block joins the group in progress. An authored marker never does; a display formula always
      does; a list only below an introduction or a heading; prose when either side is a label, an
      introduction, a connective or a fragment. */
  predicate Attaches(cues: Cues, text: string, group: seq<Span>, block: Span)
    requires group != []
  {
    var last := group[|group| - 1];
    if Authored(cues, block) then false
    else if cues.mathOnly(block.text) || cues.displayStart(block.text) then true
    else if cues.list(block.text) then
      cues.introEnd(RStrip(last.text)) || cues.heading(FirstLine(group[0].text))
    else
      || (|group| == 1 && (cues.heading(FirstLine(group[0].text)) || cues.explicitStep(FirstLine(group[0].text))))
      || cues.introEnd(RStrip(last.text))
      || Tiny(cues, Join(text, group).text)
      || cues.connector(FirstLine(block.text))
      || cues.connector(FirstLine(last.text))
      || Tiny(cues, block.text)
  }

  function Kept(cues: Cues, blocks: seq<Span>): (r: seq<Span>) {
    if blocks == [] then []
    else
      var n := |blocks| - 1;
      Kept(cues, blocks[..n]) + if cues.thematicBreak(blocks[n].text) then [] else [blocks[n]]
  }

  ghost predicate NonEmpty(groups: seq<seq<Span>>) {
    forall i :: 0 <= i < |groups| ==> groups[i] != []
  }

  /** A thematic break lies between the two. */
  ghost predicate BreakBetween(cues: Cues, blocks: seq<Span>, a: Span, b: Span) {
    exists i :: 0 <= i < |blocks| && cues.thematicBreak(blocks[i].text) && a.end <= blocks[i].start && blocks[i].end <= b.start
  }

  /** Every block but the first of a group attaches to the blocks before it, with no thematic break between. */
  ghost predicate Cohesive(cues: Cues, text: string, blocks: seq<Span>, group: seq<Span>) {
    forall j :: 0 < j < |group| ==>
      Attaches(cues, text, group[..j], group[j]) && !BreakBetween(cues, blocks, group[j - 1], group[j])
  }

  /** A block that could not join the group before it. */
  ghost predicate Parted(cues: Cues, text: string, blocks: seq<Span>, group: seq<Span>, block: Span)
    requires group != []
  {
    !Attaches(cues, text, group, block) || BreakBetween(cues, blocks, group[|group| - 1], block)
  }

  /** Groups hold together, and no group could have taken the block that follows it. */
  ghost predicate Grouped(cues: Cues, text: string, blocks: seq<Span>, groups: seq<seq<Span>>) {
    && NonEmpty(groups)
    && (forall k :: 0 <= k < |groups| ==> Cohesive(cues, text, blocks, groups[k]))
    && (forall k :: 0 < k < |groups| ==> Parted(cues, text, blocks, groups[k - 1], groups[k][0]))
  }

  /** The kept blocks, grouped. */
  ghost predicate AreGroups(cues: Cues, text: string, blocks: seq<Span>, groups: seq<seq<Span>>) {
    Grouped(cues, text, blocks, groups) && Flatten(groups) == Kept(cues, blocks)
  }

  /** That leaves no choice. */
  lemma {:induction false} GroupsAreUnique(
    cues: Cues, text: string, blocks: seq<Span>, a: seq<seq<Span>>, b: seq<seq<Span>>)
    requires Grouped(cues, text, blocks, a) && Grouped(cues, text, blocks, b) && Flatten(a) == Flatten(b)
    ensures a == b
    decreases |a|
  {
    hide Attaches, BreakBetween, Flatten;
    if a == [] || b == [] {
      FlattenEmpty(a);
      FlattenEmpty(b);
    } else {
      assert a == [a[0]] + a[1..] && b == [b[0]] + b[1..];
      FlattenCons(a[0], a[1..]);
      FlattenCons(b[0], b[1..]);
      FirstNoLonger(cues, text, blocks, a, b);
      FirstNoLonger(cues, text, blocks, b, a);
      assert a[0] == Flatten(a)[..|a[0]|] && b[0] == Flatten(b)[..|b[0]|];
      assert Flatten(a[1..]) == Flatten(a)[|a[0]|..] && Flatten(b[1..]) == Flatten(b)[|b[0]|..];
      GroupsAreUnique(cues, text, blocks, a[1..], b[1..]);
    }
  }

  lemma FlattenEmpty(groups: seq<seq<Span>>)
    requires NonEmpty(groups)
    ensures Flatten(groups) == [] <==> groups == []
  {
  }

  lemma FirstNoLonger(cues: Cues, text: string, blocks: seq<Span>, a: seq<seq<Span>>, b: seq<seq<Span>>)
    requires Grouped(cues, text, blocks, a) && Grouped(cues, text, blocks, b) && a != [] && b != []
    requires a[0] + Flatten(a[1..]) == b[0] + Flatten(b[1..])
    ensures |b[0]| <= |a[0]|
  {
    hide Attaches, BreakBetween, Flatten;
    hide Parted, Cohesive;
    var n, all := |a[0]|, a[0] + Flatten(a[1..]);
    NextFirst(a);
    forall m: nat | 0 < m < |b[0]| ensures !Parted(cues, text, blocks, all[..m], all[m]) {
      assert all[..m] == b[0][..m] && all[m] == b[0][m];
      InsideGroup(cues, text, blocks, b[0], m);
    }
    assert a[0] == all[..n];
    assert |a| > 1 ==> all[n] == a[1][0] && Parted(cues, text, blocks, all[..n], all[n]);
    assert |a| == 1 ==> |all| == n;
  }

  lemma InsideGroup(cues: Cues, text: string, blocks: seq<Span>, group: seq<Span>, m: nat)
    requires Cohesive(cues, text, blocks, group) && 0 < m < |group|
    ensures !Parted(cues, text, blocks, group[..m], group[m])
  {
  }

  lemma NextFirst(groups: seq<seq<Span>>)
    requires NonEmpty(groups) && groups != []
    ensures if |groups| == 1 then Flatten(groups[1..]) == [] else Flatten(groups[1..]) != [] && Flatten(groups[1..])[0] == groups[1][0]
  {
    if |groups| > 1 {
      assert groups[1..] == [groups[1]] + groups[2..];
      FlattenCons(groups[1], groups[2..]);
    }
  }

  ghost predicate BreakAfter(cues: Cues, blocks: seq<Span>, n: nat, a: Span) {
    exists j :: 0 <= j < n <= |blocks| && cues.thematicBreak(blocks[j].text) && a.end <= blocks[j].start
  }

  /** The closed groups and the one in progress, when the first `n` blocks are placed. */
  ghost predicate Grouping(
    cues: Cues, text: string, blocks: seq<Span>, n: nat, groups: seq<seq<Span>>, current: seq<Span>)
  {
    && n <= |blocks| && Grouped(cues, text, blocks, groups) && Cohesive(cues, text, blocks, current)
    && Flatten(groups) + current == Kept(cues, blocks[..n])
    && (current != [] ==> n > 0 && current[|current| - 1] == blocks[n - 1])
    && (groups != [] ==>
          var g := groups[|groups| - 1];
          if current != [] then Parted(cues, text, blocks, g, current[0])
          else BreakAfter(cues, blocks, n, g[|g| - 1]))
  }

  lemma PlaceBreak(
    cues: Cues, text: string, blocks: seq<Span>, n: nat, groups: seq<seq<Span>>, current: seq<Span>,
    groups': seq<seq<Span>>)
    requires Grouping(cues, text, blocks, n, groups, current) && n < |blocks| && Ordered(blocks)
    requires groups' == if current == [] then groups else groups + [current]
    ensures Grouped(cues, text, blocks, groups') && Flatten(groups') == Flatten(groups) + current
    ensures cues.thematicBreak(blocks[n].text) ==> Grouping(cues, text, blocks, n + 1, groups', [])
  {
    hide Attaches, BreakBetween, Cohesive;
    KeepsMore(cues, blocks, n);
    if current != [] {
      FlattenSnoc(groups, current);
      GroupClosed(cues, text, blocks, groups, current);
      assert blocks[n - 1].end <= blocks[n].start;
    }
    NothingInProgress(cues, text, blocks);
  }

  lemma NothingInProgress(cues: Cues, text: string, blocks: seq<Span>)
    ensures Cohesive(cues, text, blocks, [])
  {
  }

  lemma GroupClosed(cues: Cues, text: string, blocks: seq<Span>, groups: seq<seq<Span>>, current: seq<Span>)
    requires Grouped(cues, text, blocks, groups) && Cohesive(cues, text, blocks, current) && current != []
    requires groups != [] ==> Parted(cues, text, blocks, groups[|groups| - 1], current[0])
    ensures Grouped(cues, text, blocks, groups + [current])
  {
    hide Cohesive, Parted;
    var all := groups + [current];
    forall k | 0 < k < |all| ensures Parted(cues, text, blocks, all[k - 1], all[k][0]) {
      assert all[k - 1] == groups[k - 1];
    }
  }

  lemma KeepsMore(cues: Cues, blocks: seq<Span>, n: nat)
    requires n < |blocks|
    ensures Kept(cues, blocks[..n + 1])
         == Kept(cues, blocks[..n]) + if cues.thematicBreak(blocks[n].text) then [] else [blocks[n]]
  {
    assert blocks[..n + 1][..n] == blocks[..n];
  }

  lemma PlaceAttached(
    cues: Cues, text: string, blocks: seq<Span>, n: nat, groups: seq<seq<Span>>, current: seq<Span>)
    requires Grouping(cues, text, blocks, n, groups, current) && n < |blocks|
    requires AllSound(cues.step, text, blocks) && Ordered(blocks)
    requires current != [] && Attaches(cues, text, current, blocks[n]) && !cues.thematicBreak(blocks[n].text)
    ensures Grouping(cues, text, blocks, n + 1, groups, current + [blocks[n]])
  {
    hide Attaches, BreakBetween, Sound;
    KeepsMore(cues, blocks, n);
    NoBreakBetween(cues, text, blocks, n);
    var longer := current + [blocks[n]];
    forall j | 0 < j < |longer|
      ensures Attaches(cues, text, longer[..j], longer[j]) && !BreakBetween(cues, blocks, longer[j - 1], longer[j])
    {
      assert longer[..j] == current[..j];
      assert j == |current| ==> longer[..j] == current;
    }
  }

  lemma NoBreakBetween(cues: Cues, text: string, blocks: seq<Span>, n: nat)
    requires 0 < n < |blocks| && AllSound(cues.step, text, blocks) && Ordered(blocks)
    ensures !BreakBetween(cues, blocks, blocks[n - 1], blocks[n])
  {
    hide IsSpace, Reaches, EndsLine;
    forall i | 0 <= i < |blocks| ensures !(blocks[n - 1].end <= blocks[i].start && blocks[i].end <= blocks[n].start) {
      assert Sound(cues.step, text, blocks[i]) && Sound(cues.step, text, blocks[n - 1]);
      assert Sound(cues.step, text, blocks[n]);
    }
  }

  lemma BreakSeen(cues: Cues, blocks: seq<Span>, n: nat, a: Span)
    requires BreakAfter(cues, blocks, n, a) && n < |blocks| && Ordered(blocks)
    ensures BreakBetween(cues, blocks, a, blocks[n])
  {
    var j :| 0 <= j < n && cues.thematicBreak(blocks[j].text) && a.end <= blocks[j].start;
    assert blocks[j].end <= blocks[n].start;
  }

  lemma PlaceNew(
    cues: Cues, text: string, blocks: seq<Span>, n: nat, groups: seq<seq<Span>>, current: seq<Span>,
    groups': seq<seq<Span>>)
    requires Grouping(cues, text, blocks, n, groups, current) && n < |blocks| && Ordered(blocks)
    requires groups' == if current == [] then groups else groups + [current]
    requires current != [] ==> !Attaches(cues, text, current, blocks[n])
    requires !cues.thematicBreak(blocks[n].text)
    ensures Grouping(cues, text, blocks, n + 1, groups', [blocks[n]])
  {
    hide Attaches, BreakBetween, BreakAfter, Flatten, Kept;
    PlaceBreak(cues, text, blocks, n, groups, current, groups');
    KeepsMore(cues, blocks, n);
    if current == [] && groups != [] {
      var g := groups[|groups| - 1];
      BreakSeen(cues, blocks, n, g[|g| - 1]);
    }
  }

  method GroupBlocks(cues: Cues, text: string, blocks: seq<Span>) returns (groups: seq<seq<Span>>)
    requires AllSound(cues.step, text, blocks) && Ordered(blocks)
    ensures AreGroups(cues, text, blocks, groups)
  {
    hide Attaches, Authored, Marker, Grouped, Cohesive, Sound, AllSound, Ordered, BreakBetween, Parted;
    groups := [];
    var current: seq<Span> := [];
    assert Grouping(cues, text, blocks, 0, groups, current) by { NothingGrouped(cues, text, blocks); }
    for i := 0 to |blocks|
      invariant Grouping(cues, text, blocks, i, groups, current)
    {
      var block := blocks[i];
      if cues.thematicBreak(block.text) {
        var flushed := Flush(groups, current);
        PlaceBreak(cues, text, blocks, i, groups, current, flushed);
        groups, current := flushed, [];
      } else if current != [] && Attaches(cues, text, current, block) {
        PlaceAttached(cues, text, blocks, i, groups, current);
        current := current + [block];
      } else {
        var flushed := Flush(groups, current);
        PlaceNew(cues, text, blocks, i, groups, current, flushed);
        groups, current := flushed, [block];
      }
    }
    assert blocks[..|blocks|] == blocks;
    var flushed := Flush(groups, current);
    LastFlush(cues, text, blocks, groups, current, flushed);
    groups := flushed;
  }

  lemma NothingGrouped(cues: Cues, text: string, blocks: seq<Span>)
    ensures Grouping(cues, text, blocks, 0, [], [])
  {
  }

  lemma LastFlush(
    cues: Cues, text: string, blocks: seq<Span>, groups: seq<seq<Span>>, current: seq<Span>, groups': seq<seq<Span>>)
    requires Grouping(cues, text, blocks, |blocks|, groups, current) && blocks[..|blocks|] == blocks
    requires groups' == if current == [] then groups else groups + [current]
    ensures AreGroups(cues, text, blocks, groups')
  {
    hide Attaches, BreakBetween, Cohesive, Parted;
    if current != [] {
      FlattenSnoc(groups, current);
      GroupClosed(cues, text, blocks, groups, current);
    }
  }

  method Flush(groups: seq<seq<Span>>, current: seq<Span>) returns (r: seq<seq<Span>>)
    ensures r == if current == [] then groups else groups + [current]
  {
    r := groups;
    if current != [] {
      r := r + [current];
    }
  }

  /** A group that may stand as a step of its own. */
  ghost predicate Solid(cues: Cues, text: string, group: seq<Span>) {
    group != [] && (!Tiny(cues, Join(text, group).text) || Authored(cues, Join(text, group)))
  }

  ghost predicate AllSolid(cues: Cues, text: string, groups: seq<seq<Span>>) {
    forall i :: 0 <= i < |groups| ==> Solid(cues, text, groups[i])
  }

  lemma SolidExtends(cues: Cues, text: string, group: seq<Span>, more: seq<Span>, whole: seq<Span>)
    requires Solid(cues, text, group) && whole == group + more
    requires AllSound(cues.step, text, whole) && Ordered(whole)
    ensures Solid(cues, text, whole)
  {
    hide IsSpace, IsBreak, Reaches, EndsLine, FirstLine, Tiny, Marker;
    var a, b, c := group[0].start, group[|group| - 1].end, whole[|whole| - 1].end;
    SpansAdvance(cues.step, text, whole, 0, |group| - 1);
    SpansAdvance(cues.step, text, whole, |group| - 1, |whole| - 1);
    PieceExtends(cues, text, a, b, c);
  }

  lemma PieceExtends(cues: Cues, text: string, a: int, b: int, c: int)
    requires 0 <= a < b <= c <= |text| && !IsSpace(text[a]) && EndsLine(text, b)
    ensures Tiny(cues, text[a..c]) ==> Tiny(cues, text[a..b])
    ensures FirstLine(text[a..c]) == FirstLine(text[a..b])
  {
    assert text[a..c] == text[a..b] + text[b..c];
    TinyIsMonotone(cues, text[a..b], text[b..c]);
    FirstLineExtends(text, a, b, c);
  }

  lemma InfixSound(step: Scanner, text: string, before: seq<Span>, middle: seq<Span>, after: seq<Span>)
    requires AllSound(step, text, before + middle + after) && Ordered(before + middle + after)
    ensures AllSound(step, text, middle) && Ordered(middle)
  {
    var all := before + middle + after;
    forall i | 0 <= i < |middle| ensures middle[i] == all[|before| + i] {
    }
    forall i, j | 0 <= i < j < |middle| ensures middle[i].end <= middle[j].start {
      assert all[|before| + i].end <= all[|before| + j].start;
    }
  }

  /** The groups merged so far and the groups still to come flatten to the original spans; all but the very
      last group of all is solid. */
  ghost predicate Merging(
    cues: Cues, text: string, merged: seq<seq<Span>>, rest: seq<seq<Span>>, all: seq<Span>)
  {
    && NonEmpty(merged) && NonEmpty(rest)
    && Flatten(merged) + Flatten(rest) == all
    && (rest != [] || |merged| > 1 ==> AllSolid(cues, text, merged))
  }

  lemma MergeAppend(
    cues: Cues, text: string, merged: seq<seq<Span>>, group: seq<Span>, rest: seq<seq<Span>>, all: seq<Span>,
    merged': seq<seq<Span>>)
    requires Merging(cues, text, merged, [group] + rest, all) && merged' == merged + [group]
    requires Solid(cues, text, group) || (merged == [] && rest == [])
    ensures Merging(cues, text, merged', rest, all)
  {
    assert group == ([group] + rest)[0];
    assert forall i :: 0 <= i < |rest| ==> rest[i] == ([group] + rest)[i + 1];
    FlattenCons(group, rest);
    FlattenSnoc(merged, group);
    assert Flatten(merged) + (group + Flatten(rest)) == (Flatten(merged) + group) + Flatten(rest);
  }

  lemma MergeForward(
    cues: Cues, text: string, merged: seq<seq<Span>>, group: seq<Span>, next: seq<Span>, rest: seq<seq<Span>>,
    all: seq<Span>)
    requires Merging(cues, text, merged, [group] + ([next] + rest), all)
    ensures Merging(cues, text, merged, [group + next] + rest, all)
  {
    var queue := [group] + ([next] + rest);
    assert group == queue[0];
    assert forall i :: 0 <= i < |rest| ==> rest[i] == queue[i + 2];
    FlattenCons(group, [next] + rest);
    FlattenCons(next, rest);
    FlattenCons(group + next, rest);
    assert group + (next + Flatten(rest)) == (group + next) + Flatten(rest);
  }

  lemma MergeBackward(
    cues: Cues, text: string, merged: seq<seq<Span>>, group: seq<Span>, rest: seq<seq<Span>>, all: seq<Span>,
    before: seq<seq<Span>>, tail: seq<Span>, last: seq<Span>)
    requires Merging(cues, text, merged, [group] + rest, all) && merged == before + [tail]
    requires AllSound(cues.step, text, all) && Ordered(all)
    requires last == tail + group
    ensures Merging(cues, text, before + [last], rest, all)
  {
    assert forall i :: 0 <= i < |rest| ==> rest[i] == ([group] + rest)[i + 1];
    assert tail == merged[|before|];
    assert forall i :: 0 <= i < |before| ==> before[i] == merged[i];
    MergedFlat(merged, group, rest, all, before, tail, last);
    InfixSound(cues.step, text, Flatten(before), last, Flatten(rest));
    SolidExtends(cues, text, tail, group, last);
  }

  lemma MergedFlat(
    merged: seq<seq<Span>>, group: seq<Span>, rest: seq<seq<Span>>, all: seq<Span>,
    before: seq<seq<Span>>, tail: seq<Span>, last: seq<Span>)
    requires merged == before + [tail] && last == tail + group && Flatten(merged) + Flatten([group] + rest) == all
    ensures all == Flatten(before) + last + Flatten(rest) && Flatten(before + [last]) + Flatten(rest) == all
  {
    FlattenCons(group, rest);
    FlattenSnoc(before, last);
    FlattenSnoc(before, tail);
    assert (Flatten(before) + tail) + (group + Flatten(rest)) == Flatten(before) + (tail + group) + Flatten(rest);
  }



  lemma {:induction false} WordsBefore(cues: Cues, s: string, before: string)
    ensures WordChars(cues, s) <= WordChars(cues, before + s) && Words(s) <= Words(before + s)
  {
    if s == "" {
      assert before + s == before;
    } else {
      var n := |s| - 1;
      assert (before + s)[..|before + s| - 1] == before + s[..n];
      assert (before + s)[|before| + n] == s[n];
      WordsBefore(cues, s[..n], before);
      if n == 0 {
        EndsAWord(before);
      }
    }
  }

  lemma EndsAWord(s: string)
    ensures s != "" && !IsSpace(s[|s| - 1]) ==> Words(s) >= 1
    decreases |s|
  {
    if s != "" && !IsSpace(s[|s| - 1]) && |s| > 1 && !IsSpace(s[|s| - 2]) {
      EndsAWord(s[..|s| - 1]);
    }
  }

  /** A piece of a tiny piece is tiny. */
  lemma TinyInside(cues: Cues, text: string, a: int, b: int, c: int, d: int)
    requires 0 <= a <= c <= d <= b <= |text| && Tiny(cues, text[a..b])
    ensures Tiny(cues, text[c..d])
  {
    hide WordChars, Words;
    assert text[a..b] == text[a..d] + text[d..b] && text[a..d] == text[a..c] + text[c..d];
    TinyIsMonotone(cues, text[a..d], text[d..b]);
    WordsBefore(cues, text[c..d], text[a..c]);
  }

  ghost predicate Large(cues: Cues, text: string, group: seq<Span>) {
    group != [] && !Tiny(cues, Join(text, group).text)
  }

  ghost predicate NoneLarge(cues: Cues, text: string, groups: seq<seq<Span>>) {
    forall i :: 0 <= i < |groups| ==> !Large(cues, text, groups[i])
  }

  /** Of the groups merged into one, at most one is more than a fragment. */
  ghost predicate OneLarge(cues: Cues, text: string, groups: seq<seq<Span>>) {
    forall i, j :: 0 <= i < j < |groups| ==> !Large(cues, text, groups[i]) || !Large(cues, text, groups[j])
  }

  ghost predicate PartsFit(cues: Cues, text: string, merged: seq<seq<Span>>, parts: seq<seq<seq<Span>>>) {
    && |parts| == |merged|
    && forall i :: 0 <= i < |parts| ==>
         parts[i] != [] && merged[i] == Flatten(parts[i]) && OneLarge(cues, text, parts[i])
  }

  // ---- which neighbour a fragment joins ----------------------------------------------------------------------

  /** Groups that make up no more than a fragment, and no authored marker. */
  ghost predicate Fragment(cues: Cues, text: string, held: seq<seq<Span>>) {
    && Flatten(held) != []
    && var joined := Join(text, Flatten(held));
       Tiny(cues, joined.text) && !Authored(cues, joined)
  }

  /** Groups that open with a connective. */
  ghost predicate Connects(cues: Cues, text: string, held: seq<seq<Span>>) {
    Flatten(held) != [] && cues.connector(FirstLine(Join(text, Flatten(held)).text))
  }

  /** A fragment goes with what follows, unless it opens with a connective and something precedes it. */
  ghost predicate GoesOn(cues: Cues, text: string, held: seq<seq<Span>>, first: bool) {
    Fragment(cues, text, held) && (first || !Connects(cues, text, held))
  }

  /** Groups that are taken together: what is collected so far goes with what follows, up to the first time it
      does not or nothing follows. */
  ghost predicate IsRun(cues: Cues, text: string, held: seq<seq<Span>>, first: bool, last: bool) {
    && held != []
    && (forall m :: 0 < m < |held| ==> GoesOn(cues, text, held[..m], first))
    && (last || !GoesOn(cues, text, held, first))
  }

  ghost predicate AreRuns(cues: Cues, text: string, runs: seq<seq<seq<Span>>>, first: bool) {
    forall k :: 0 <= k < |runs| ==> IsRun(cues, text, runs[k], first && k == 0, k == |runs| - 1)
  }

  /** A run that is a fragment itself goes with the run before it. */
  ghost function Collected(cues: Cues, text: string, runs: seq<seq<seq<Span>>>): (parts: seq<seq<seq<Span>>>)
    ensures parts == [] <==> runs == []
  {
    if runs == [] then []
    else
      var before, run := Collected(cues, text, runs[..|runs| - 1]), runs[|runs| - 1];
      if before != [] && Fragment(cues, text, run)
      then before[..|before| - 1] + [before[|before| - 1] + run]
      else before + [run]
  }

  /** `merged[i]` is made of the groups `parts[i]`: the original groups in order, cut into runs, each fragment with
      the neighbour it belongs to. */
  ghost predicate MergedFrom(
    cues: Cues, text: string, original: seq<seq<Span>>, merged: seq<seq<Span>>, parts: seq<seq<seq<Span>>>)
  {
    && Flatten(parts) == original && PartsFit(cues, text, merged, parts)
    && exists runs :: RunsOf(cues, text, original, runs) && parts == Collected(cues, text, runs)
  }

  ghost predicate RunsOf(cues: Cues, text: string, original: seq<seq<Span>>, runs: seq<seq<seq<Span>>>) {
    Flatten(runs) == original && AreRuns(cues, text, runs, true)
  }

  lemma {:induction false} RunsAreUnique(
    cues: Cues, text: string, a: seq<seq<seq<Span>>>, b: seq<seq<seq<Span>>>, first: bool)
    requires AreRuns(cues, text, a, first) && AreRuns(cues, text, b, first) && Flatten(a) == Flatten(b)
    ensures a == b
    decreases |a|
  {
    hide IsRun, Flatten;
    if a == [] || b == [] {
      NoRunIsEmpty(cues, text, a, first);
      NoRunIsEmpty(cues, text, b, first);
    } else {
      FlattenFirst(a);
      FlattenFirst(b);
      FirstRunIsSame(cues, text, a, b, first);
      LaterRuns(cues, text, a, first);
      LaterRuns(cues, text, b, first);
      assert Flatten(a[1..]) == Flatten(a)[|a[0]|..] && Flatten(b[1..]) == Flatten(b)[|b[0]|..];
      RunsAreUnique(cues, text, a[1..], b[1..], false);
      assert a == [a[0]] + a[1..] && b == [b[0]] + b[1..];
    }
  }

  lemma NoRunIsEmpty(cues: Cues, text: string, runs: seq<seq<seq<Span>>>, first: bool)
    requires AreRuns(cues, text, runs, first)
    ensures runs == [] <==> Flatten(runs) == []
  {
    hide GoesOn;
    if runs != [] {
      var k := |runs| - 1;
      assert IsRun(cues, text, runs[k], first && k == 0, true);
    }
  }

  lemma LaterRuns(cues: Cues, text: string, runs: seq<seq<seq<Span>>>, first: bool)
    requires AreRuns(cues, text, runs, first) && runs != []
    ensures AreRuns(cues, text, runs[1..], false)
  {
    hide IsRun;
    forall k | 0 <= k < |runs[1..]| ensures IsRun(cues, text, runs[1..][k], false, k == |runs[1..]| - 1) {
      assert IsRun(cues, text, runs[k + 1], first && k + 1 == 0, k + 1 == |runs| - 1);
    }
  }

  /** A run that ends before another that starts with it would have to go on. */
  lemma ShorterRun(cues: Cues, text: string, a: seq<seq<seq<Span>>>, b: seq<seq<seq<Span>>>, first: bool)
    requires AreRuns(cues, text, a, first) && AreRuns(cues, text, b, first) && a != [] && b != []
    requires a[0] + Flatten(a[1..]) == b[0] + Flatten(b[1..])
    ensures |a[0]| >= |b[0]|
  {
    hide GoesOn, Flatten;
    assert IsRun(cues, text, a[0], first, |a| == 1) && IsRun(cues, text, b[0], first, |b| == 1);
    NoGroups(a[1..]);
    if |a[0]| < |b[0]| {
      SameBeginning(a[0], Flatten(a[1..]), b[0], Flatten(b[1..]));
    }
  }

  lemma SameBeginning<T>(a: seq<T>, x: seq<T>, b: seq<T>, y: seq<T>)
    requires a + x == b + y && |a| <= |b|
    ensures b[..|a|] == a
  {
    assert (a + x)[..|a|] == a && (b + y)[..|a|] == b[..|a|];
  }

  lemma NoGroups(runs: seq<seq<seq<Span>>>)
    ensures runs == [] ==> Flatten(runs) == []
  {
  }

  lemma FirstRunIsSame(cues: Cues, text: string, a: seq<seq<seq<Span>>>, b: seq<seq<seq<Span>>>, first: bool)
    requires AreRuns(cues, text, a, first) && AreRuns(cues, text, b, first) && a != [] && b != []
    requires a[0] + Flatten(a[1..]) == b[0] + Flatten(b[1..])
    ensures a[0] == b[0]
  {
    hide AreRuns, Flatten;
    ShorterRun(cues, text, a, b, first);
    ShorterRun(cues, text, b, a, first);
    var all := a[0] + Flatten(a[1..]);
    assert a[0] == all[..|a[0]|] && b[0] == all[..|b[0]|];
  }

  /** The description leaves one possible result. */
  lemma MergeIsUnique(
    cues: Cues, text: string, original: seq<seq<Span>>, merged: seq<seq<Span>>, parts: seq<seq<seq<Span>>>,
    merged': seq<seq<Span>>, parts': seq<seq<seq<Span>>>)
    requires MergedFrom(cues, text, original, merged, parts) && MergedFrom(cues, text, original, merged', parts')
    ensures parts == parts' && merged == merged'
  {
    hide AreRuns, Collected, OneLarge, Flatten;
    var runs :| RunsOf(cues, text, original, runs) && parts == Collected(cues, text, runs);
    var runs' :| RunsOf(cues, text, original, runs') && parts' == Collected(cues, text, runs');
    RunsAreUnique(cues, text, runs, runs', true);
    assert forall i :: 0 <= i < |merged| ==> merged[i] == Flatten(parts[i]) && merged'[i] == Flatten(parts'[i]);
  }

  /** The runs so far, and the fragments `smalls` that go on with the next group. */
  ghost predicate Running(
    cues: Cues, text: string, original: seq<seq<Span>>, index: nat, runs: seq<seq<seq<Span>>>,
    parts: seq<seq<seq<Span>>>, smalls: seq<seq<Span>>)
  {
    && index <= |original| && Flatten(runs) + smalls + original[index..] == original
    && parts == Collected(cues, text, runs)
    && (forall k :: 0 <= k < |runs| ==>
          IsRun(cues, text, runs[k], k == 0, k == |runs| - 1 && index == |original|))
    && forall m :: 0 < m <= |smalls| ==> GoesOn(cues, text, smalls[..m], runs == [])
  }

  lemma RunEnds(
    cues: Cues, text: string, original: seq<seq<Span>>, index: nat, runs: seq<seq<seq<Span>>>,
    parts: seq<seq<seq<Span>>>, smalls: seq<seq<Span>>, held: seq<seq<Span>>, parts': seq<seq<seq<Span>>>)
    requires Running(cues, text, original, index, runs, parts, smalls) && index < |original|
    requires held == smalls + [original[index]]
    requires index + 1 == |original| || !GoesOn(cues, text, held, runs == [])
    requires parts' == if parts != [] && Fragment(cues, text, held)
                       then parts[..|parts| - 1] + [parts[|parts| - 1] + held] else parts + [held]
    ensures Running(cues, text, original, index + 1, runs + [held], parts', [])
  {
    hide GoesOn, Fragment, Flatten, IsRun;
    var runs' := runs + [held];
    FlattenSnoc(runs, held);
    NextOriginal(original, index, Flatten(runs) + smalls);
    assert Flatten(runs') + [] == (Flatten(runs) + smalls) + [original[index]];
    assert runs'[..|runs'| - 1] == runs;
    LastRun(cues, text, smalls, original[index], held, runs == [], index + 1 == |original|);
    forall k | 0 <= k < |runs'|
      ensures IsRun(cues, text, runs'[k], k == 0, k == |runs'| - 1 && index + 1 == |original|)
    {
      assert k < |runs| ==> runs'[k] == runs[k];
    }
  }

  lemma LastRun(
    cues: Cues, text: string, smalls: seq<seq<Span>>, group: seq<Span>, held: seq<seq<Span>>, first: bool, last: bool)
    requires held == smalls + [group] && forall m :: 0 < m <= |smalls| ==> GoesOn(cues, text, smalls[..m], first)
    requires last || !GoesOn(cues, text, held, first)
    ensures IsRun(cues, text, held, first, last)
  {
    hide GoesOn;
    forall m | 0 < m < |held| ensures GoesOn(cues, text, held[..m], first) {
      assert held[..m] == smalls[..m];
    }
  }

  lemma RunGoesOn(
    cues: Cues, text: string, original: seq<seq<Span>>, index: nat, runs: seq<seq<seq<Span>>>,
    parts: seq<seq<seq<Span>>>, smalls: seq<seq<Span>>, held: seq<seq<Span>>)
    requires Running(cues, text, original, index, runs, parts, smalls) && index + 1 < |original|
    requires held == smalls + [original[index]] && GoesOn(cues, text, held, runs == [])
    ensures Running(cues, text, original, index + 1, runs, parts, held)
  {
    hide GoesOn, Flatten, Collected, IsRun;
    NextOriginal(original, index, Flatten(runs) + smalls);
    assert Flatten(runs) + held == (Flatten(runs) + smalls) + [original[index]];
    forall m | 0 < m <= |held| ensures GoesOn(cues, text, held[..m], runs == []) {
      assert if m == |held| then held[..m] == held else held[..m] == smalls[..m];
    }
  }

  lemma RunsAreThrough(
    cues: Cues, text: string, original: seq<seq<Span>>, index: nat, runs: seq<seq<seq<Span>>>,
    parts: seq<seq<seq<Span>>>, smalls: seq<seq<Span>>)
    requires Running(cues, text, original, index, runs, parts, smalls) && index == |original| && smalls == []
    ensures RunsOf(cues, text, original, runs) && parts == Collected(cues, text, runs)
  {
    hide GoesOn, Flatten, Collected, IsRun;
    assert original[index..] == [] && Flatten(runs) + [] + [] == Flatten(runs);
    forall k | 0 <= k < |runs| ensures IsRun(cues, text, runs[k], true && k == 0, k == |runs| - 1) {
      assert IsRun(cues, text, runs[k], k == 0, k == |runs| - 1 && index == |original|);
    }
  }

  lemma NothingRuns(cues: Cues, text: string, original: seq<seq<Span>>)
    ensures Running(cues, text, original, 0, [], [], [])
  {
    assert Flatten<seq<Span>>([]) == [];
  }

  /** The fragments `smalls` have been pushed forward into the group at hand. */
  ghost predicate Tracking(
    cues: Cues, text: string, original: seq<seq<Span>>, index: nat, merged: seq<seq<Span>>, rest: seq<seq<Span>>,
    parts: seq<seq<seq<Span>>>, smalls: seq<seq<Span>>)
  {
    && index <= |original| && PartsFit(cues, text, merged, parts) && NoneLarge(cues, text, smalls)
    && Flatten(parts) + smalls + original[index..] == original
    && (if index == |original| then smalls == [] && rest == []
        else rest == [Flatten(smalls + [original[index]])] + original[index + 1..])
  }

  /** A part of a tiny group is tiny. */
  lemma PartIsSmall(
    cues: Cues, text: string, before: seq<Span>, part: seq<Span>, after: seq<Span>, group: seq<Span>)
    requires group == before + part + after && part != []
    requires AllSound(cues.step, text, group) && Ordered(group) && Tiny(cues, Join(text, group).text)
    ensures !Large(cues, text, part)
  {
    hide IsSpace, Reaches, EndsLine, Tiny, AllSound, Ordered;
    var first, last := |before|, |before| + |part| - 1;
    EndsOfInfix(before, part, after);
    SpansAdvance(cues.step, text, group, 0, first);
    SpansAdvance(cues.step, text, group, first, last);
    SpansAdvance(cues.step, text, group, last, |group| - 1);
    TinyInside(cues, text, group[0].start, group[|group| - 1].end, group[first].start, group[last].end);
  }

  /** Members of a tiny group are tiny. */
  lemma MembersAreSmall(cues: Cues, text: string, held: seq<seq<Span>>, group: seq<Span>)
    requires NonEmpty(held) && group == Flatten(held) && group != []
    requires AllSound(cues.step, text, group) && Ordered(group) && Tiny(cues, Join(text, group).text)
    ensures NoneLarge(cues, text, held)
  {
    hide Large, Tiny, AllSound, Ordered, Flatten;
    forall i | 0 <= i < |held| ensures !Large(cues, text, held[i]) {
      MemberIsInfix(held, i);
      PartIsSmall(cues, text, Flatten(held[..i]), held[i], Flatten(held[i + 1..]), group);
    }
  }

  lemma EndsOfInfix<T>(before: seq<T>, middle: seq<T>, after: seq<T>)
    requires middle != []
    ensures (before + middle + after)[|before|] == middle[0]
    ensures (before + middle + after)[|before| + |middle| - 1] == middle[|middle| - 1]
  {
  }

  lemma MemberIsInfix(held: seq<seq<Span>>, i: nat)
    requires i < |held|
    ensures Flatten(held) == Flatten(held[..i]) + held[i] + Flatten(held[i + 1..])
  {
    hide Flatten;
    CutAround(held, i);
    FlattenConcat(held[..i] + [held[i]], held[i + 1..]);
    FlattenSnoc(held[..i], held[i]);
  }

  lemma CutAround<T>(s: seq<T>, i: nat)
    requires i < |s|
    ensures s == s[..i] + [s[i]] + s[i + 1..]
  {
  }

  lemma NewPart(
    cues: Cues, text: string, original: seq<seq<Span>>, index: nat, merged: seq<seq<Span>>, rest: seq<seq<Span>>,
    parts: seq<seq<seq<Span>>>, smalls: seq<seq<Span>>, held: seq<seq<Span>>)
    requires Tracking(cues, text, original, index, merged, rest, parts, smalls) && index < |original|
    requires held == smalls + [original[index]]
    ensures Tracking(cues, text, original, index + 1, merged + [Flatten(held)], rest[1..], parts + [held], [])
  {
    hide Flatten, Large;
    FlattenSnoc(parts, held);
    NextOriginal(original, index, Flatten(parts) + smalls);
    assert Flatten(parts) + held == (Flatten(parts) + smalls) + [original[index]];
    NextRest(original, index, rest, Flatten(held));
  }

  lemma OnePart(held: seq<seq<Span>>)
    ensures Flatten([held]) == held
  {
    FlattenOne(held);
  }

  lemma NextOriginal(original: seq<seq<Span>>, index: nat, before: seq<seq<Span>>)
    requires index < |original| && before + original[index..] == original
    ensures before + [original[index]] + original[index + 1..] == original
  {
    assert original[index..] == [original[index]] + original[index + 1..];
    assert before + ([original[index]] + original[index + 1..]) == before + [original[index]] + original[index + 1..];
  }

  lemma AloneIsFlatten(group: seq<Span>)
    ensures Flatten([] + [group]) == group && Flatten([group]) == group
  {
    var one: seq<seq<Span>> := [group];
    assert [] + one == one && one[..0] == [];
    assert Flatten(one) == Flatten([]) + group;
  }

  lemma NextRest(original: seq<seq<Span>>, index: nat, rest: seq<seq<Span>>, group: seq<Span>)
    requires index < |original| && rest == [group] + original[index + 1..]
    ensures rest[1..] == original[index + 1..]
    ensures if index + 1 == |original| then rest[1..] == []
            else rest[1..] == [Flatten([] + [original[index + 1]])] + original[index + 2..]
  {
    if index + 1 < |original| {
      AloneIsFlatten(original[index + 1]);
      assert original[index + 1..] == [original[index + 1]] + original[index + 2..];
    }
  }

  lemma LongerPart(
    cues: Cues, text: string, original: seq<seq<Span>>, index: nat, merged: seq<seq<Span>>, rest: seq<seq<Span>>,
    parts: seq<seq<seq<Span>>>, smalls: seq<seq<Span>>, held: seq<seq<Span>>)
    requires Tracking(cues, text, original, index, merged, rest, parts, smalls) && index < |original|
    requires held == smalls + [original[index]] && NoneLarge(cues, text, held) && parts != []
    ensures var n := |parts| - 1;
            Tracking(cues, text, original, index + 1, merged[..n] + [merged[n] + Flatten(held)], rest[1..],
                     parts[..n] + [parts[n] + held], [])
  {
    hide Flatten, Large, OneLarge, PartsFit, NoneLarge;
    var n := |parts| - 1;
    LongerFlatten(parts, held);
    LongerFits(cues, text, merged, parts, held);
    NextOriginal(original, index, Flatten(parts) + smalls);
    assert Flatten(parts) + held == (Flatten(parts) + smalls) + [original[index]];
    NextRest(original, index, rest, Flatten(held));
    assert NoneLarge(cues, text, []) by { NoneIsLarge(cues, text); }
  }

  lemma NoneIsLarge(cues: Cues, text: string)
    ensures NoneLarge(cues, text, [])
  {
  }

  lemma Associative<T>(a: seq<T>, b: seq<T>, c: seq<T>)
    ensures a + (b + c) == (a + b) + c
  {
  }

  lemma LongerFlatten(parts: seq<seq<seq<Span>>>, held: seq<seq<Span>>)
    requires parts != []
    ensures Flatten(parts[..|parts| - 1] + [parts[|parts| - 1] + held]) == Flatten(parts) + held
  {
    var n := |parts| - 1;
    FlattenSnoc(parts[..n], parts[n] + held);
    Associative(Flatten(parts[..n]), parts[n], held);
  }

  lemma LongerFits(
    cues: Cues, text: string, merged: seq<seq<Span>>, parts: seq<seq<seq<Span>>>, held: seq<seq<Span>>)
    requires PartsFit(cues, text, merged, parts) && parts != [] && NoneLarge(cues, text, held)
    ensures var n := |parts| - 1;
            PartsFit(cues, text, merged[..n] + [merged[n] + Flatten(held)], parts[..n] + [parts[n] + held])
  {
    hide Flatten, Large;
    var n := |parts| - 1;
    FlattenConcat(parts[n], held);
    StillOneLarge(cues, text, parts[n], held);
  }

  lemma StillOneLarge(cues: Cues, text: string, part: seq<seq<Span>>, held: seq<seq<Span>>)
    requires OneLarge(cues, text, part) && NoneLarge(cues, text, held)
    ensures OneLarge(cues, text, part + held)
  {
    hide Large;
    assert forall i :: |part| <= i < |part + held| ==> (part + held)[i] == held[i - |part|];
  }

  lemma PushedOn(
    cues: Cues, text: string, original: seq<seq<Span>>, index: nat, merged: seq<seq<Span>>, rest: seq<seq<Span>>,
    parts: seq<seq<seq<Span>>>, smalls: seq<seq<Span>>, held: seq<seq<Span>>, rest': seq<seq<Span>>)
    requires Tracking(cues, text, original, index, merged, rest, parts, smalls) && index + 1 < |original|
    requires held == smalls + [original[index]] && NoneLarge(cues, text, held)
    requires rest' == [Flatten(held) + original[index + 1]] + original[index + 2..]
    ensures Tracking(cues, text, original, index + 1, merged, rest', parts, held)
  {
    hide Large, PartsFit;
    NextOriginal(original, index, Flatten(parts) + smalls);
    assert Flatten(parts) + held == (Flatten(parts) + smalls) + [original[index]];
    FlattenSnoc(held, original[index + 1]);
  }

  /** Short fragments join a neighbour: a connective, and the very last fragment, joins what precedes it, anything
      else what follows. Larger groups are never merged with each other. */
  method MergeTinyGroups(cues: Cues, text: string, original: seq<seq<Span>>)
    returns (merged: seq<seq<Span>>, ghost parts: seq<seq<seq<Span>>>)
    requires NonEmpty(original)
    requires AllSound(cues.step, text, Flatten(original)) && Ordered(Flatten(original))
    ensures NonEmpty(merged) && Flatten(merged) == Flatten(original)
    ensures |merged| <= 1 || AllSolid(cues, text, merged)
    ensures MergedFrom(cues, text, original, merged, parts)
  {
    hide Flatten, Tiny, Solid, Large, Sound, AllSound, Running, RunsOf;
    if |original| <= 1 {
      merged := original;
      parts := seq(|original|, i requires 0 <= i < |original| => [original[i]]);
      SingleParts(cues, text, original, parts);
      return;
    }
    var groups := original;
    merged, parts := [], [];
    ghost var smalls, runs := [], [];
    var index := 0;
    assert groups[0..] == groups;
    NothingMerged(cues, text, original);
    NothingRuns(cues, text, original);
    while index < |groups|
      invariant index <= |groups| == |original|
      invariant Merging(cues, text, merged, groups[index..], Flatten(original))
      invariant Tracking(cues, text, original, index, merged, groups[index..], parts, smalls)
      invariant Running(cues, text, original, index, runs, parts, smalls)
      decreases |groups| - index
    {
      merged, groups, parts, smalls, runs :=
        PlaceGroup(cues, text, merged, groups, index, Flatten(original), original, parts, smalls, runs);
      index := index + 1;
    }
    RunsAreThrough(cues, text, original, index, runs, parts, smalls);
    NoneLeft(original, groups, index, parts, smalls);
  }

  lemma NoneLeft(
    original: seq<seq<Span>>, groups: seq<seq<Span>>, index: nat, parts: seq<seq<seq<Span>>>, smalls: seq<seq<Span>>)
    requires index == |groups| == |original| && smalls == []
    requires Flatten(parts) + smalls + original[index..] == original
    ensures Flatten(groups[index..]) == [] && Flatten(parts) == original
  {
  }

  lemma NothingMerged(cues: Cues, text: string, original: seq<seq<Span>>)
    requires NonEmpty(original) && original != []
    ensures Merging(cues, text, [], original, Flatten(original))
    ensures Tracking(cues, text, original, 0, [], original, [], [])
  {
    assert original == [original[0]] + original[1..];
    AloneIsFlatten(original[0]);
    assert Flatten([]) + Flatten(original) == Flatten(original);
  }

  lemma OneRun(cues: Cues, text: string, original: seq<seq<Span>>)
    requires |original| == 1
    ensures RunsOf(cues, text, original, [original]) && Collected(cues, text, [original]) == [original]
  {
    FlattenOne(original);
    assert [original][..0] == [];
  }

  lemma NoRuns(cues: Cues, text: string, original: seq<seq<Span>>)
    requires original == []
    ensures RunsOf(cues, text, original, []) && Collected(cues, text, []) == []
  {
  }

  lemma SingleParts(cues: Cues, text: string, original: seq<seq<Span>>, parts: seq<seq<seq<Span>>>)
    requires |original| <= 1 && parts == seq(|original|, i requires 0 <= i < |original| => [original[i]])
    ensures MergedFrom(cues, text, original, original, parts)
    ensures original == [] || Flatten(original) == original[0]
  {
    if |original| == 1 {
      OnePart(original);
      OneRun(cues, text, original);
      AloneIsFlatten(original[0]);
      assert original == [original[0]] && parts == [original];
    } else {
      NoRuns(cues, text, original);
    }
  }

  method PlaceGroup(
    cues: Cues, text: string, merged: seq<seq<Span>>, groups: seq<seq<Span>>, index: nat, ghost all: seq<Span>,
    ghost original: seq<seq<Span>>, ghost parts: seq<seq<seq<Span>>>, ghost smalls: seq<seq<Span>>,
    ghost runs: seq<seq<seq<Span>>>)
    returns (
      merged': seq<seq<Span>>, groups': seq<seq<Span>>, ghost parts': seq<seq<seq<Span>>>, ghost smalls': seq<seq<Span>>,
      ghost runs': seq<seq<seq<Span>>>)
    requires index < |groups| == |original| && Merging(cues, text, merged, groups[index..], all)
    requires AllSound(cues.step, text, all) && Ordered(all) && NonEmpty(original)
    requires Tracking(cues, text, original, index, merged, groups[index..], parts, smalls)
    requires Running(cues, text, original, index, runs, parts, smalls)
    ensures |groups'| == |groups| && Merging(cues, text, merged', groups'[index + 1..], all)
    ensures Tracking(cues, text, original, index + 1, merged', groups'[index + 1..], parts', smalls')
    ensures Running(cues, text, original, index + 1, runs', parts', smalls')
  {
    hide Flatten, Tiny, Solid, Large, Sound, AllSound, Merging, Tracking, Running;
    var group := groups[index];
    ghost var rest := groups[index + 1..];
    assert groups[index..] == [group] + rest && groups[index..][1..] == rest;
    ghost var held := smalls + [original[index]];
    HeldGroup(cues, text, original, index, merged, groups[index..], parts, smalls, held, group, rest, all);
    var joined := Join(text, group);
    if Tiny(cues, joined.text) && !Authored(cues, joined) {
      MembersAreSmall(cues, text, held, group);
      merged', groups', parts', smalls', runs' :=
        PlaceFragment(cues, text, merged, groups, index, group, joined, rest, all, original, parts, smalls, runs, held);
    } else {
      merged', groups' := merged + [group], groups;
      parts', smalls', runs' := parts + [held], [], runs + [held];
      RunEnds(cues, text, original, index, runs, parts, smalls, held, parts');
      MergeAppend(cues, text, merged, group, rest, all, merged');
      NewPart(cues, text, original, index, merged, groups[index..], parts, smalls, held);
    }
  }

  /** The group at hand is what the fragments pushed forward and the next original group make up. */
  lemma HeldGroup(
    cues: Cues, text: string, original: seq<seq<Span>>, index: nat, merged: seq<seq<Span>>, queue: seq<seq<Span>>,
    parts: seq<seq<seq<Span>>>, smalls: seq<seq<Span>>, held: seq<seq<Span>>, group: seq<Span>, rest: seq<seq<Span>>,
    all: seq<Span>)
    requires Tracking(cues, text, original, index, merged, queue, parts, smalls) && index < |original|
    requires held == smalls + [original[index]] && queue == [group] + rest && NonEmpty(original)
    requires Merging(cues, text, merged, queue, all) && AllSound(cues.step, text, all) && Ordered(all)
    ensures group != [] && group == Flatten(held) && rest == original[index + 1..] && NonEmpty(held)
    ensures |parts| == |merged|
    ensures AllSound(cues.step, text, group) && Ordered(group)
    ensures Tiny(cues, Join(text, group).text) || Solid(cues, text, group)
    ensures Authored(cues, Join(text, group)) ==> Solid(cues, text, group)
  {
    hide Flatten, Tiny, Large, Sound, OneLarge, Marker;
    assert group == queue[0] && rest == queue[1..];
    assert original == Flatten(parts) + smalls + original[index..];
    forall i | 0 <= i < |smalls| ensures smalls[i] != [] {
      assert original[|Flatten(parts)| + i] == smalls[i];
    }
    FlattenCons(group, rest);
    assert all == Flatten(merged) + group + Flatten(rest);
    InfixSound(cues.step, text, Flatten(merged), group, Flatten(rest));
  }

  lemma NoPartsWithoutRuns(
    cues: Cues, text: string, original: seq<seq<Span>>, index: nat, runs: seq<seq<seq<Span>>>,
    parts: seq<seq<seq<Span>>>, smalls: seq<seq<Span>>)
    requires Running(cues, text, original, index, runs, parts, smalls)
    ensures parts == [] <==> runs == []
  {
  }

  method PlaceFragment(
    cues: Cues, text: string, merged: seq<seq<Span>>, groups: seq<seq<Span>>, index: nat, group: seq<Span>,
    joined: Span, ghost rest: seq<seq<Span>>, ghost all: seq<Span>,
    ghost original: seq<seq<Span>>, ghost parts: seq<seq<seq<Span>>>, ghost smalls: seq<seq<Span>>,
    ghost runs: seq<seq<seq<Span>>>, ghost held: seq<seq<Span>>)
    returns (
      merged': seq<seq<Span>>, groups': seq<seq<Span>>, ghost parts': seq<seq<seq<Span>>>, ghost smalls': seq<seq<Span>>,
      ghost runs': seq<seq<seq<Span>>>)
    requires index < |groups| == |original| && rest == groups[index + 1..]
    requires Merging(cues, text, merged, [group] + rest, all)
    requires AllSound(cues.step, text, all) && Ordered(all)
    requires Tracking(cues, text, original, index, merged, [group] + rest, parts, smalls)
    requires held == smalls + [original[index]] && group == Flatten(held) && rest == original[index + 1..]
    requires NoneLarge(cues, text, held) && |parts| == |merged|
    requires Running(cues, text, original, index, runs, parts, smalls)
    requires group != [] && joined == Join(text, group) && Fragment(cues, text, held)
    requires Connects(cues, text, held) == cues.connector(FirstLine(joined.text))
    ensures |groups'| == |groups| && Merging(cues, text, merged', groups'[index + 1..], all)
    ensures Tracking(cues, text, original, index + 1, merged', groups'[index + 1..], parts', smalls')
    ensures Running(cues, text, original, index + 1, runs', parts', smalls')
  {
    hide Flatten, Tiny, Solid, Large, Sound, AllSound, Merging, Tracking, NoneLarge, Running, Fragment, Connects,
      FirstLine, Join;
    merged', groups', parts', smalls', runs' := merged, groups, parts, [], runs + [held];
    NoPartsWithoutRuns(cues, text, original, index, runs, parts, smalls);
    assert ([group] + rest)[1..] == rest;
    if merged != [] && (cues.connector(FirstLine(joined.text)) || index + 1 == |groups|) {
      var before, tail := merged[..|merged| - 1], merged[|merged| - 1];
      var last := tail + group;
      assert merged == before + [tail];
      merged' := before + [last];
      parts' := parts[..|parts| - 1] + [parts[|parts| - 1] + held];
      MergeBackward(cues, text, merged, group, rest, all, before, tail, last);
      LongerPart(cues, text, original, index, merged, [group] + rest, parts, smalls, held);
      RunEnds(cues, text, original, index, runs, parts, smalls, held, parts');
    } else if index + 1 < |groups| {
      var next := groups[index + 1];
      groups' := groups[index + 1 := group + next];
      ghost var later := groups[index + 2..];
      assert rest == [next] + later && next == original[index + 1] && later == original[index + 2..];
      MergeForward(cues, text, merged, group, next, later, all);
      assert groups'[index + 1..] == [group + next] + later;
      smalls', runs' := held, runs;
      RunGoesOn(cues, text, original, index, runs, parts, smalls, held);
      PushedOn(cues, text, original, index, merged, [group] + rest, parts, smalls, held, [group + next] + later);
    } else {
      merged' := merged + [group];
      parts' := parts + [held];
      RunEnds(cues, text, original, index, runs, parts, smalls, held, parts');
      MergeAppend(cues, text, merged, group, rest, all, merged');
      NewPart(cues, text, original, index, merged, [group] + rest, parts, smalls, held);
    }
  }
}
