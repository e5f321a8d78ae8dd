// What the attachment rules decide, in terms of the cues on blocks and their places in groups and spans.

module StepAttachments {
  import opened Common
  import opened Spans
  import opened SpanCuts
  import opened TextLines
  import opened Pieces
  import opened StepSpans
  import opened StepBlocks
  import opened StepChunks
  import opened StepGroups

  // ---- fragments ---------------------------------------------------------------------------------------------

  function WordCharsAt(cues: Cues, s: string): (r: set<nat>) {
    set i: nat | i < |s| && cues.wordChar(s[i])
  }

  /** A visible character with no visible character right before it. */
  predicate BeginsWord(s: string, i: nat) {
    i < |s| && !IsSpace(s[i]) && (i > 0 ==> IsSpace(s[i - 1]))
  }

  function WordStartsAt(s: string): (r: set<nat>) {
    set i: nat | i < |s| && BeginsWord(s, i)
  }

  lemma {:induction false} WordCharsAreCounted(cues: Cues, s: string)
    ensures WordChars(cues, s) == |WordCharsAt(cues, s)|
  {
    if s != "" {
      var n := |s| - 1;
      WordCharsAreCounted(cues, s[..n]);
      if cues.wordChar(s[n]) {
        assert WordCharsAt(cues, s) == WordCharsAt(cues, s[..n]) + {n};
      } else {
        assert WordCharsAt(cues, s) == WordCharsAt(cues, s[..n]);
      }
    }
  }

  lemma {:induction false} WordsAreCounted(s: string)
    ensures Words(s) == |WordStartsAt(s)|
  {
    if s != "" {
      WordsAreCounted(s[..|s| - 1]);
      NextWord(s);
      NextStart(s);
    }
  }

  lemma NextStart(s: string)
    requires s != ""
    ensures var n := |s| - 1;
            |WordStartsAt(s)| == |WordStartsAt(s[..n])| + if BeginsWord(s, n) then 1 else 0
  {
    var n := |s| - 1;
    SameStarts(s, n);
    hide BeginsWord;
    var here: set<nat> := if BeginsWord(s, n) then {n} else {};
    assert WordStartsAt(s) == WordStartsAt(s[..n]) + here;
    assert n !in WordStartsAt(s[..n]);
  }

  lemma SameStarts(s: string, n: nat)
    requires n < |s|
    ensures forall i: nat :: BeginsWord(s[..n], i) <==> i < n && BeginsWord(s, i)
  {
    hide IsSpace;
  }

  lemma NextWord(s: string)
    requires s != ""
    ensures Words(s) == Words(s[..|s| - 1]) + if BeginsWord(s, |s| - 1) then 1 else 0
  {
  }

  /** A fragment has fewer than 24 word characters or at most three words. */
  lemma TinyCounts(cues: Cues, s: string)
    ensures Tiny(cues, s) <==> |WordCharsAt(cues, s)| < 24 || |WordStartsAt(s)| <= 3
  {
    WordCharsAreCounted(cues, s);
    WordsAreCounted(s);
  }

  // ---- what opens a group ------------------------------------------------------------------------------------

  /** A marker always opens a group. */
  lemma MarkersOpen(cues: Cues, text: string, blocks: seq<Span>, groups: seq<seq<Span>>)
    requires AreGroups(cues, text, blocks, groups)
    ensures forall k, j :: 0 <= k < |groups| && 0 < j < |groups[k]| ==>
              var line := FirstLine(groups[k][j].text);
              !cues.heading(line) && !cues.explicitStep(line) && !cues.finalHeading(line)
  {
    hide Tiny, FirstLine, RStrip, BreakBetween, Flatten, Kept;
    forall k, j | 0 <= k < |groups| && 0 < j < |groups[k]|
      ensures !Marker(cues, FirstLine(groups[k][j].text))
    {
      assert Cohesive(cues, text, blocks, groups[k]);
      assert Attaches(cues, text, groups[k][..j], groups[k][j]);
    }
  }

  /** A display formula that is no marker opens a group only after a thematic break, or as the first block. */
  lemma FormulasFollow(cues: Cues, text: string, blocks: seq<Span>, groups: seq<seq<Span>>, k: nat)
    requires AreGroups(cues, text, blocks, groups) && 0 < k < |groups|
    requires var line := FirstLine(groups[k][0].text);
             !cues.heading(line) && !cues.explicitStep(line) && !cues.finalHeading(line)
    requires cues.mathOnly(groups[k][0].text) || cues.displayStart(groups[k][0].text)
    ensures BreakBetween(cues, blocks, groups[k - 1][|groups[k - 1]| - 1], groups[k][0])
  {
    hide Tiny, FirstLine, RStrip, BreakBetween, Flatten, Kept, Cohesive;
    assert Parted(cues, text, blocks, groups[k - 1], groups[k][0]);
  }

  /** A list stays in a group only below an introduction or in a group that a heading opens, and where it opens a
      group, there is neither, or a thematic break. */
  lemma ListsNeedAnOpening(cues: Cues, text: string, blocks: seq<Span>, groups: seq<seq<Span>>, k: nat)
    requires AreGroups(cues, text, blocks, groups) && k < |groups|
    ensures forall j ::
              && 0 < j < |groups[k]| && cues.list(groups[k][j].text)
              && !cues.mathOnly(groups[k][j].text) && !cues.displayStart(groups[k][j].text)
              ==> cues.introEnd(RStrip(groups[k][j - 1].text)) || cues.heading(FirstLine(groups[k][0].text))
    ensures 0 < k && cues.list(groups[k][0].text) ==>
              var line, last := FirstLine(groups[k][0].text), groups[k - 1][|groups[k - 1]| - 1];
              || (!cues.introEnd(RStrip(last.text)) && !cues.heading(FirstLine(groups[k - 1][0].text)))
              || cues.heading(line) || cues.explicitStep(line) || cues.finalHeading(line)
              || BreakBetween(cues, blocks, last, groups[k][0])
  {
    hide Tiny, FirstLine, RStrip, BreakBetween, Flatten, Kept;
    var group := groups[k];
    assert Cohesive(cues, text, blocks, group);
    forall j | 0 < j < |group| && cues.list(group[j].text)
      && !cues.mathOnly(group[j].text) && !cues.displayStart(group[j].text)
      ensures cues.introEnd(RStrip(group[j - 1].text)) || cues.heading(FirstLine(group[0].text))
    {
      assert Attaches(cues, text, group[..j], group[j]);
    }
    if 0 < k {
      assert Parted(cues, text, blocks, groups[k - 1], group[0]);
    }
  }

  /** What binds prose to the group before it: that is a mere label, it ends as an introduction, either side is a
      connective, or either side is a fragment. */
  ghost predicate Bound(cues: Cues, text: string, group: seq<Span>, prose: Span)
    requires group != []
  {
    var first, last := group[0], group[|group| - 1];
    || (|group| == 1 && (cues.heading(FirstLine(first.text)) || cues.explicitStep(FirstLine(first.text))))
    || cues.introEnd(RStrip(last.text))
    || cues.connector(FirstLine(last.text)) || cues.connector(FirstLine(prose.text))
    || Tiny(cues, Slice(text, first.start, last.end)) || Tiny(cues, prose.text)
  }

  /** Prose stays in a group exactly when it is bound to it. */
  lemma ProseIsBound(cues: Cues, text: string, blocks: seq<Span>, groups: seq<seq<Span>>, k: nat)
    requires AreGroups(cues, text, blocks, groups) && k < |groups|
    ensures forall j ::
              && 0 < j < |groups[k]| && !cues.list(groups[k][j].text)
              && !cues.mathOnly(groups[k][j].text) && !cues.displayStart(groups[k][j].text)
              ==> Bound(cues, text, groups[k][..j], groups[k][j])
    ensures 0 < k && !cues.list(groups[k][0].text) ==>
              var line, last := FirstLine(groups[k][0].text), groups[k - 1][|groups[k - 1]| - 1];
              || !Bound(cues, text, groups[k - 1], groups[k][0])
              || cues.heading(line) || cues.explicitStep(line) || cues.finalHeading(line)
              || BreakBetween(cues, blocks, last, groups[k][0])
  {
    hide Tiny, FirstLine, RStrip, BreakBetween, Flatten, Kept, Slice;
    var group := groups[k];
    assert Cohesive(cues, text, blocks, group);
    forall j | 0 < j < |group| && !cues.list(group[j].text)
      && !cues.mathOnly(group[j].text) && !cues.displayStart(group[j].text)
      ensures Bound(cues, text, group[..j], group[j])
    {
      assert Attaches(cues, text, group[..j], group[j]);
    }
    if 0 < k {
      assert Parted(cues, text, blocks, groups[k - 1], group[0]);
    }
  }

  // ---- what opens a span -------------------------------------------------------------------------------------

  /** The first span begins with the first chunk that is no thematic break, every other one with a chunk that was
      free to begin it. */
  ghost predicate SpansFollow(cues: Cues, chunks: seq<Span>, spans: seq<Span>) {
    && (spans != [] ==> FirstAfterBreaks(cues, chunks, spans[0].start))
    && forall k :: 0 < k < |spans| ==> FollowsAt(cues, chunks, spans[k].start)
  }

  ghost predicate FirstAfterBreaks(cues: Cues, chunks: seq<Span>, at: int) {
    exists c :: 0 <= c < |chunks| && chunks[c].start == at && !cues.thematicBreak(chunks[c].text)
                && forall i :: 0 <= i < c ==> cues.thematicBreak(chunks[i].text)
  }

  /** At the start of a chunk that follows a thematic break, or that may follow the chunk before it. */
  ghost predicate FollowsAt(cues: Cues, chunks: seq<Span>, at: int) {
    exists c :: 0 < c < |chunks| && chunks[c].start == at
                && (cues.thematicBreak(chunks[c - 1].text) || Follows(cues, chunks[c - 1], chunks[c]))
  }

  /** A span may begin with a marker; it begins neither with a display formula nor right after an introduction nor,
      unless with a list, on either side of a connective. */
  ghost predicate Follows(cues: Cues, last: Span, first: Span) {
    var line := FirstLine(first.text);
    || cues.heading(line) || cues.explicitStep(line) || cues.finalHeading(line)
    || (&& !cues.mathOnly(first.text) && !cues.displayStart(first.text) && !cues.introEnd(RStrip(last.text))
        && (cues.list(first.text) || (!cues.connector(line) && !cues.connector(FirstLine(last.text)))))
  }

  lemma GroupFollows(cues: Cues, text: string, blocks: seq<Span>, groups: seq<seq<Span>>, k: nat)
    requires AreGroups(cues, text, blocks, groups) && 0 < k < |groups|
    ensures var last := groups[k - 1][|groups[k - 1]| - 1];
            Follows(cues, last, groups[k][0]) || BreakBetween(cues, blocks, last, groups[k][0])
  {
    hide Tiny, FirstLine, RStrip, BreakBetween, Flatten, Kept, Cohesive, Slice;
    assert Parted(cues, text, blocks, groups[k - 1], groups[k][0]);
  }

  /** A merged group but the first begins with an original group, and not the first of them. */
  lemma MergedBegins(
    cues: Cues, text: string, original: seq<seq<Span>>, merged: seq<seq<Span>>, parts: seq<seq<seq<Span>>>, k: nat)
    returns (n: nat)
    requires MergedFrom(cues, text, original, merged, parts) && NonEmpty(original) && 0 < k < |merged|
    ensures 0 < n < |original| && merged[k] != [] && merged[k][0] == original[n][0]
  {
    hide Flatten, OneLarge, AreRuns, RunsOf;
    n := |Flatten(parts[..k])|;
    var before := parts[..k - 1];
    assert parts[..k] == before + [parts[k - 1]];
    FlattenSnoc(before, parts[k - 1]);
    MemberIsInfix3(parts, k);
    EndsOfInfix3(Flatten(before), parts[k - 1], parts[k], Flatten(parts[k + 1..]));
    FlattenFirst(parts[k]);
    assert merged[k] == Flatten(parts[k]);
  }

  lemma MemberIsInfix3(parts: seq<seq<seq<Span>>>, k: nat)
    requires k < |parts|
    ensures Flatten(parts) == Flatten(parts[..k]) + parts[k] + Flatten(parts[k + 1..])
  {
    hide Flatten;
    CutAround(parts, k);
    FlattenConcat(parts[..k] + [parts[k]], parts[k + 1..]);
    FlattenSnoc(parts[..k], parts[k]);
  }

  lemma EndsOfInfix3<T>(before: seq<T>, last: seq<T>, now: seq<T>, after: seq<T>)
    requires last != [] && now != []
    ensures var all, n := before + last + now + after, |before + last|;
            n > 0 && all[n] == now[0] && all[n - 1] == last[|last| - 1]
  {
  }

  lemma {:induction false} KeptAreThere(cues: Cues, blocks: seq<Span>)
    ensures forall s :: s in Kept(cues, blocks) <==> s in blocks && !cues.thematicBreak(s.text)
  {
    if blocks != [] {
      KeptAreThere(cues, blocks[..|blocks| - 1]);
    }
  }

  /** The last block of a group and the first of the next are neighbours among the kept blocks. */
  lemma GroupsMeet(groups: seq<seq<Span>>, n: nat) returns (m: nat)
    requires NonEmpty(groups) && 0 < n < |groups|
    ensures 0 < m < |Flatten(groups)| && Flatten(groups)[m] == groups[n][0]
    ensures Flatten(groups)[m - 1] == groups[n - 1][|groups[n - 1]| - 1]
  {
    hide Flatten;
    var before := groups[..n - 1];
    assert groups[..n] == before + [groups[n - 1]];
    FlattenSnoc(before, groups[n - 1]);
    MemberIsInfix(groups, n);
    EndsOfInfix3(Flatten(before), groups[n - 1], groups[n], Flatten(groups[n + 1..]));
    m := |Flatten(groups[..n])|;
  }

  /** What lies between neighbours among the kept chunks is a thematic break. */
  lemma NoneBetween(cues: Cues, text: string, chunks: seq<Span>, m: nat) returns (c: nat)
    requires AllSound(cues.step, text, chunks) && Ordered(chunks)
    requires 0 < m < |Kept(cues, chunks)| && Ordered(Kept(cues, chunks)) && AllSound(cues.step, text, Kept(cues, chunks))
    ensures 0 < c < |chunks| && chunks[c] == Kept(cues, chunks)[m]
    ensures chunks[c - 1] == Kept(cues, chunks)[m - 1] || cues.thematicBreak(chunks[c - 1].text)
  {
    hide Kept, IsSpace, Reaches, EndsLine;
    KeptAreThere(cues, chunks);
    var kept := Kept(cues, chunks);
    hide AllSound, Ordered;
    var q := PlaceOf(chunks, kept[m - 1]);
    c := PlaceOf(chunks, kept[m]);
    StartsTell(cues.step, text, kept, m - 1, m);
    StartsTell(cues.step, text, chunks, q, c);
    if q < c - 1 && !cues.thematicBreak(chunks[c - 1].text) {
      StartsTell(cues.step, text, chunks, q, c - 1);
      StartsTell(cues.step, text, chunks, c - 1, c);
      NotBetween(cues.step, text, kept, m, chunks[c - 1]);
    }
  }

  lemma {:induction false} FirstKept(cues: Cues, chunks: seq<Span>)
    requires Kept(cues, chunks) != []
    ensures FirstAfterBreaks(cues, chunks, Kept(cues, chunks)[0].start)
  {
    var n := |chunks| - 1;
    var before := Kept(cues, chunks[..n]);
    if before != [] {
      FirstKept(cues, chunks[..n]);
      var c :| 0 <= c < n && chunks[..n][c].start == before[0].start && !cues.thematicBreak(chunks[..n][c].text)
        && forall i :: 0 <= i < c ==> cues.thematicBreak(chunks[..n][i].text);
      forall i | 0 <= i < c ensures cues.thematicBreak(chunks[i].text) {
        assert chunks[..n][i] == chunks[i];
      }
      assert chunks[c].start == before[0].start;
    } else {
      KeptAreThere(cues, chunks[..n]);
      forall i | 0 <= i < n ensures cues.thematicBreak(chunks[i].text) {
        assert chunks[..n][i] == chunks[i] && chunks[i] in chunks[..n];
      }
    }
  }

  lemma PlaceOf(chunks: seq<Span>, s: Span) returns (i: nat)
    requires s in chunks
    ensures i < |chunks| && chunks[i] == s
  {
    i :| i < |chunks| && chunks[i] == s;
  }

  lemma NotBetween(step: Scanner, text: string, kept: seq<Span>, m: nat, s: Span)
    requires AllSound(step, text, kept) && Ordered(kept) && 0 < m < |kept|
    requires kept[m - 1].start < s.start < kept[m].start
    ensures s !in kept
  {
    hide IsSpace, Reaches, EndsLine;
    forall t | 0 <= t < |kept| ensures kept[t].start <= kept[m - 1].start || kept[m].start <= kept[t].start {
      StartsTell(step, text, kept, m - 1, t);
      StartsTell(step, text, kept, t, m);
    }
  }

  lemma StartsTell(step: Scanner, text: string, spans: seq<Span>, i: nat, j: nat)
    requires AllSound(step, text, spans) && Ordered(spans) && i < |spans| && j < |spans|
    ensures i < j <==> spans[i].start < spans[j].start
    ensures i == j <==> spans[i].start == spans[j].start
  {
    hide IsSpace, Reaches, EndsLine;
    assert Sound(step, text, spans[i]) && Sound(step, text, spans[j]);
  }

  /** Merging fragments keeps what is known of the groups' beginnings. */
  lemma SpansDoFollow(
    cues: Cues, text: string, chunks: seq<Span>, groups: seq<seq<Span>>, merged: seq<seq<Span>>,
    parts: seq<seq<seq<Span>>>, spans: seq<Span>)
    requires AreGroups(cues, text, chunks, groups) && MergedFrom(cues, text, groups, merged, parts)
    requires AllSound(cues.step, text, chunks) && Ordered(chunks) && NonEmpty(merged) && |spans| == |merged|
    requires Ordered(Kept(cues, chunks)) && AllSound(cues.step, text, Kept(cues, chunks))
    requires Flatten(merged) == Kept(cues, chunks)
    requires forall i :: 0 <= i < |spans| ==> spans[i].start == merged[i][0].start
    ensures SpansFollow(cues, chunks, spans)
  {
    hide Follows, Cohesive, Parted, AllSound, Ordered, MergedFrom, Flatten, Kept, BreakBetween, FirstAfterBreaks;
    if spans != [] {
      FlattenFirst(merged);
      FirstKept(cues, chunks);
    }
    forall k | 0 < k < |spans| ensures FollowsAt(cues, chunks, spans[k].start) {
      var n := MergedBegins(cues, text, groups, merged, parts, k);
      GroupFollows(cues, text, chunks, groups, n);
      var m := GroupsMeet(groups, n);
      var c := NoneBetween(cues, text, chunks, m);
      NoBreakBetween(cues, text, chunks, c);
    }
  }
}
