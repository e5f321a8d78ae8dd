// Splitting a response into semantic steps: joined groups, sections, refinement, and the exact partition.

module StepSplitter {
  import opened Common
  import opened Spans
  import opened SpanCuts
  import opened TextLines
  import opened Pieces
  import opened StepSpans
  import opened StepBlocks
  import opened StepChunks
  import opened StepAttachments
  import opened StepGroups

  function Joins(text: string, groups: seq<seq<Span>>): (r: seq<Span>)
    requires forall i :: 0 <= i < |groups| ==> groups[i] != []
    ensures |r| == |groups|
  {
    seq(|groups|, i requires 0 <= i < |groups| => Join(text, groups[i]))
  }

  lemma JoinIsSound(step: Scanner, text: string, group: seq<Span>)
    requires group != [] && AllSound(step, text, group) && Ordered(group)
    ensures Sound(step, text, Join(text, group))
  {
    SpansAdvance(step, text, group, 0, |group| - 1);
  }

  lemma LastGroup(
    step: Scanner, text: string, before: seq<Span>, tail: seq<Span>, all: seq<Span>, lo: int, mid: int, hi: int)
    requires all == before + tail && tail != [] && mid == tail[0].start
    requires AllSound(step, text, all) && Ordered(all) && Within(all, lo, hi)
    ensures AllSound(step, text, before) && Ordered(before) && Within(before, lo, mid)
    ensures AllSound(step, text, tail) && Ordered(tail)
    ensures lo <= mid && tail[|tail| - 1].end <= hi
    ensures all[0] == if before == [] then tail[0] else before[0]
  {
    assert all == before + tail + [] && all == [] + before + tail;
    InfixSound(step, text, before, tail, []);
    InfixSound(step, text, [], before, tail);
    assert all[|before|] == tail[0] && all[|all| - 1] == tail[|tail| - 1];
    forall i | 0 <= i < |before| ensures lo <= before[i].start && before[i].end <= mid {
      assert before[i] == all[i];
    }
  }

  lemma {:induction false} JoinsAreSound(step: Scanner, text: string, groups: seq<seq<Span>>, lo: int, hi: int)
    requires NonEmpty(groups)
    requires AllSound(step, text, Flatten(groups)) && Ordered(Flatten(groups)) && Within(Flatten(groups), lo, hi)
    ensures AllSound(step, text, Joins(text, groups)) && Ordered(Joins(text, groups))
    ensures Within(Joins(text, groups), lo, hi)
    ensures groups != [] ==> Flatten(groups) != [] && Joins(text, groups)[0].start == Flatten(groups)[0].start
  {
    hide Sound, AllSound, Ordered, Within;
    if groups != [] {
      var before, tail := groups[..|groups| - 1], groups[|groups| - 1];
      var mid := tail[0].start;
      LastGroup(step, text, Flatten(before), tail, Flatten(groups), lo, mid, hi);
      JoinsAreSound(step, text, before, lo, mid);
      JoinIsSound(step, text, tail);
      AppendSound(step, text, Joins(text, before), Join(text, tail), lo, mid, hi);
      assert Joins(text, groups) == Joins(text, before) + [Join(text, tail)];
    }
  }

  lemma {:induction false} KeptIsSound(cues: Cues, text: string, blocks: seq<Span>, lo: int, hi: int)
    requires AllSound(cues.step, text, blocks) && Ordered(blocks) && Within(blocks, lo, hi)
    ensures AllSound(cues.step, text, Kept(cues, blocks)) && Ordered(Kept(cues, blocks))
    ensures Within(Kept(cues, blocks), lo, hi)
    ensures blocks != [] && !cues.thematicBreak(blocks[0].text) ==>
              Kept(cues, blocks) != [] && Kept(cues, blocks)[0] == blocks[0]
  {
    if blocks != [] {
      var n := |blocks| - 1;
      assert lo <= blocks[n].start;
      KeptIsSound(cues, text, blocks[..n], lo, blocks[n].start);
      if !cues.thematicBreak(blocks[n].text) {
        AppendSound(cues.step, text, Kept(cues, blocks[..n]), blocks[n], lo, blocks[n].start, hi);
      }
    }
  }

  /** Nothing but thematic breaks. */
  ghost predicate OnlyBreaks(cues: Cues, chunks: seq<Span>) {
    forall i :: 0 <= i < |chunks| ==> cues.thematicBreak(chunks[i].text)
  }

  lemma {:induction false} KeptIsEmpty(cues: Cues, chunks: seq<Span>)
    ensures Kept(cues, chunks) == [] <==> OnlyBreaks(cues, chunks)
  {
    if chunks != [] {
      var n := |chunks| - 1;
      KeptIsEmpty(cues, chunks[..n]);
      assert forall i :: 0 <= i < n ==> chunks[..n][i] == chunks[i];
    }
  }

  /** The spans are the joined groups of the blocks' chunks: grouped by attachment, fragments merged, and all
      groups solid unless only one is left. */
  ghost predicate Attached(cues: Cues, text: string, blocks: seq<Span>, spans: seq<Span>) {
    exists chunks, groups, merged, parts ::
      AreChunks(cues, text, blocks, chunks) && AttachedAs(cues, text, chunks, groups, merged, parts, spans)
  }

  ghost predicate AttachedAs(
    cues: Cues, text: string, chunks: seq<Span>, groups: seq<seq<Span>>, merged: seq<seq<Span>>,
    parts: seq<seq<seq<Span>>>, spans: seq<Span>)
  {
    && AreGroups(cues, text, chunks, groups)
    && NonEmpty(merged) && Flatten(merged) == Flatten(groups) && MergedFrom(cues, text, groups, merged, parts)
    && (|merged| <= 1 || AllSolid(cues, text, merged))
    && spans == Joins(text, merged)
  }

  /** A thematic break is not an authored marker. */
  ghost predicate CuesFit(cues: Cues) {
    forall s :: cues.thematicBreak(s) ==> !Marker(cues, FirstLine(s))
  }

  lemma SameFirstLine(step: Scanner, text: string, s: Span, t: Span)
    requires Sound(step, text, s) && Sound(step, text, t) && s.start == t.start
    ensures FirstLine(s.text) == FirstLine(t.text)
  {
    hide IsSpace, IsBreak, Reaches, EndsLine, FirstLine;
    FirstLineExtends(text, s.start, s.end, |text|);
    FirstLineExtends(text, t.start, t.end, |text|);
  }

  /** Attach display formulas and lists to prose, merge fragments, and join each group to one span. An authored
      marker that begins the first block begins the first span. */
  method SplitMarkdownAttachment(cues: Cues, text: string, blocks: seq<Span>) returns (spans: seq<Span>)
    requires LineMachine(cues.step) && AllSound(cues.step, text, blocks) && Ordered(blocks)
    ensures AllSound(cues.step, text, spans) && Ordered(spans)
    ensures Attached(cues, text, blocks, spans)
    ensures blocks == [] ==> spans == []
    ensures blocks != [] ==> Within(spans, blocks[0].start, blocks[|blocks| - 1].end)
    ensures forall chunks :: AreChunks(cues, text, blocks, chunks) ==>
              (spans == [] <==> OnlyBreaks(cues, chunks)) && SpansFollow(cues, chunks, spans)
    ensures forall chunks: seq<Span> :: blocks != [] && AreChunks(cues, text, blocks, chunks) ==>
              chunks != [] && chunks[0].start == blocks[0].start
    ensures CuesFit(cues) && blocks != [] && Authored(cues, blocks[0]) ==>
              spans != [] && spans[0].start == blocks[0].start
  {
    hide Sound, AllSound, Ordered, Within, AreChunks, AreGroups, MergedFrom, AllSolid, OnlyBreaks, Authored, CuesFit, Flatten,
         SpansFollow;
    var chunks := SplitBlocksAtStrongBoundaries(cues, text, blocks);
    var groups := GroupBlocks(cues, text, chunks);
    ghost var lo := if blocks == [] then 0 else blocks[0].start;
    ghost var hi := if blocks == [] then 0 else blocks[|blocks| - 1].end;
    GroupsKeep(cues, text, chunks, groups, lo, hi);
    var merged, parts := MergeTinyGroups(cues, text, groups);
    JoinsAreSound(cues.step, text, merged, lo, hi);
    spans := Joins(text, merged);
    assert AttachedAs(cues, text, chunks, groups, merged, parts, spans);
    SpansDoFollow(cues, text, chunks, groups, merged, parts, spans);
    KeptIsEmpty(cues, chunks);
    FlattenEmpty(merged);
    forall other | AreChunks(cues, text, blocks, other) ensures other == chunks {
      ChunksAreUnique(cues, text, blocks, chunks, other);
    }
    if blocks != [] {
      FirstStays(cues, text, blocks, chunks);
    }
  }

  lemma GroupsKeep(cues: Cues, text: string, chunks: seq<Span>, groups: seq<seq<Span>>, lo: int, hi: int)
    requires AreGroups(cues, text, chunks, groups)
    requires AllSound(cues.step, text, chunks) && Ordered(chunks) && (chunks == [] || Within(chunks, lo, hi))
    ensures NonEmpty(groups) && Flatten(groups) == Kept(cues, chunks)
    ensures AllSound(cues.step, text, Flatten(groups)) && Ordered(Flatten(groups)) && Within(Flatten(groups), lo, hi)
  {
    hide Sound, AllSound, Ordered, Cohesive, Parted;
    if chunks == [] {
      NothingWithin(lo, hi);
    }
    KeptIsSound(cues, text, chunks, lo, hi);
  }

  lemma NothingWithin(lo: int, hi: int)
    ensures Within([], lo, hi)
  {
  }

  lemma FirstStays(cues: Cues, text: string, blocks: seq<Span>, chunks: seq<Span>)
    requires AllSound(cues.step, text, blocks) && AllSound(cues.step, text, chunks) && Ordered(chunks)
    requires blocks != [] && chunks != [] && chunks[0].start == blocks[0].start
    requires Within(chunks, blocks[0].start, blocks[|blocks| - 1].end)
    ensures CuesFit(cues) && Authored(cues, blocks[0]) ==>
              Kept(cues, chunks) != [] && Kept(cues, chunks)[0] == chunks[0]
  {
    hide Sound, Marker;
    SameFirstLine(cues.step, text, blocks[0], chunks[0]);
    KeptIsSound(cues, text, chunks, blocks[0].start, blocks[|blocks| - 1].end);
  }

  /** What is sound inside a sound piece is sound in the whole text. */
  lemma PieceIsSound(step: Scanner, text: string, piece: Span, s: Span, lifted: Span)
    requires LineMachine(step) && Sound(step, text, piece) && Sound(step, piece.text, s)
    requires lifted == Span(piece.start + s.start, piece.start + s.end, s.text)
    ensures Sound(step, text, lifted) && piece.start <= lifted.start && lifted.end <= piece.end
  {
    hide IsSpace, IsBreak, Reaches, EndsLine;
    assert text[lifted.start] == piece.text[s.start] && text[lifted.end - 1] == piece.text[s.end - 1];
    SubSlice(text, piece.start, piece.end, s.start, s.end, lifted.start, lifted.end);
    PieceReaches(step, text, piece, s.start, lifted.start);
    PieceEndsLine(text, piece, s.end, lifted.end);
  }

  lemma PieceReaches(step: Scanner, text: string, piece: Span, local: nat, at: nat)
    requires IgnoresLead(step) && Sound(step, text, piece) && local < |piece.text| && at == piece.start + local
    requires Reaches(step, piece.text, local, Free)
    ensures Reaches(step, text, at, Free)
  {
    hide IsSpace, IsBreak, StateAt, LineLength, EndsLine;
    var p: nat :| Leads(piece.text, p, local) && StateAt(step, piece.text, 0, Free, p) == Some(Free);
    var q: nat := piece.start + p;
    PieceStates(step, text, piece.start, piece.end, 0, Free, p);
    SubSlice(text, piece.start, piece.end, p, local, q, at);
    forall i | q <= i < at ensures !IsBreak(text[i]) {
      assert piece.text[i - piece.start] == text[i];
    }
    ReachesOn(step, text, q, at, Free);
  }

  lemma PieceEndsLine(text: string, piece: Span, local: nat, at: nat)
    requires Exact(text, piece) && EndsLine(text, piece.end) && EndsLine(piece.text, local)
    requires at == piece.start + local
    ensures EndsLine(text, at)
  {
    hide IsSpace, IsBreak;
    var q: nat :| local <= q <= |piece.text| && AllSpace(piece.text[local..q])
      && (q == |piece.text| || (q > local && IsBreak(piece.text[q - 1])));
    var r: nat := piece.start + q;
    SubSlice(text, piece.start, piece.end, local, q, at, r);
    if q == |piece.text| {
      var e: nat :| piece.end <= e <= |text| && AllSpace(text[piece.end..e])
        && (e == |text| || (e > piece.end && IsBreak(text[e - 1])));
      assert text[at..e] == text[at..r] + text[r..e];
    } else {
      assert text[r - 1] == piece.text[q - 1];
    }
  }

  /** Spans of a piece as spans of the text. */
  function Lifted(piece: Span, spans: seq<Span>): (r: seq<Span>)
    ensures |r| == |spans|
  {
    seq(|spans|, i requires 0 <= i < |spans| =>
      Span(piece.start + spans[i].start, piece.start + spans[i].end, spans[i].text))
  }

  lemma LiftedIsSound(step: Scanner, text: string, piece: Span, spans: seq<Span>)
    requires LineMachine(step) && Sound(step, text, piece)
    requires AllSound(step, piece.text, spans) && Ordered(spans)
    ensures AllSound(step, text, Lifted(piece, spans)) && Ordered(Lifted(piece, spans))
    ensures Within(Lifted(piece, spans), piece.start, piece.end)
  {
    hide Sound, LineMachine;
    var lifted := Lifted(piece, spans);
    forall i | 0 <= i < |spans|
      ensures Sound(step, text, lifted[i]) && piece.start <= lifted[i].start && lifted[i].end <= piece.end
    {
      PieceIsSound(step, text, piece, spans[i], lifted[i]);
    }
  }

  /** A piece that begins with a visible character begins with its first block. */
  lemma FirstBlockStarts(step: Scanner, text: string, blocks: seq<Span>)
    requires AreBlocks(step, text, blocks) && text != "" && !IsSpace(text[0])
    ensures blocks != [] && blocks[0].start == 0
  {
    hide IsSpace, Whole, CutBetween, Sound;
    assert VisibleIn(text)(0);
    assert InSome(blocks, 0);
    assert forall i :: 0 <= i < |blocks| ==> Tight(text, VisibleIn(text), blocks[i]);
  }

  lemma BlocksAreOrdered(step: Scanner, text: string, blocks: seq<Span>)
    requires AreBlocks(step, text, blocks)
    ensures AllSound(step, text, blocks) && Ordered(blocks)
  {
  }

  /** A section of more than 3500 characters is split again at its own blocks, if that gives several spans. */
  ghost predicate Refines(cues: Cues, text: string, piece: Span, refined: seq<Span>) {
    if |piece.text| <= 3500 then refined == [piece]
    else
      exists candidates :: AreBlocks(cues.step, piece.text, candidates) &&
        if |candidates| <= 1 then refined == [piece]
        else
          exists decomposed :: Attached(cues, text, Lifted(piece, candidates), decomposed)
                               && refined == if |decomposed| > 1 then decomposed else [piece]
  }

  /** The blocks of a section that is split again. */
  ghost predicate SectionBlocks(cues: Cues, text: string, blocks: seq<Span>) {
    exists piece: Span, own ::
      && |piece.text| > 3500 && Sound(cues.step, text, piece)
      && AreBlocks(cues.step, piece.text, own) && blocks == Lifted(piece, own)
  }

  /** The chunks of the text, or of a section that is split again. */
  ghost predicate ChunkList(cues: Cues, text: string, chunks: seq<Span>) {
    exists blocks :: AreChunks(cues, text, blocks, chunks)
                     && (AreBlocks(cues.step, text, blocks) || SectionBlocks(cues, text, blocks))
  }

  /** At the start of a chunk that was free to begin a step. */
  ghost predicate StepFollows(cues: Cues, text: string, at: int) {
    exists chunks :: ChunkList(cues, text, chunks) && FollowsAt(cues, chunks, at)
  }

  lemma DecomposedFollows(cues: Cues, text: string, piece: Span, own: seq<Span>, spans: seq<Span>)
    requires |piece.text| > 3500 && Sound(cues.step, text, piece) && AreBlocks(cues.step, piece.text, own)
    requires Attached(cues, text, Lifted(piece, own), spans) && own != []
    requires forall chunks: seq<Span> :: AreChunks(cues, text, Lifted(piece, own), chunks) ==>
               SpansFollow(cues, chunks, spans) && chunks != [] && chunks[0].start == Lifted(piece, own)[0].start
    requires Lifted(piece, own)[0].start == piece.start
    ensures forall j :: 0 < j < |spans| ==> StepFollows(cues, text, spans[j].start)
    ensures spans != [] ==> spans[0].start == piece.start || StepFollows(cues, text, spans[0].start)
  {
    hide Sound, AreBlocks, AreChunks, AttachedAs, Follows, Lifted;
    var chunks :| AreChunks(cues, text, Lifted(piece, own), chunks);
    assert SectionBlocks(cues, text, Lifted(piece, own));
    assert ChunkList(cues, text, chunks);
    if spans != [] {
      FirstFollows(cues, chunks, spans[0].start);
    }
  }

  lemma FirstFollows(cues: Cues, chunks: seq<Span>, at: int)
    requires FirstAfterBreaks(cues, chunks, at)
    ensures chunks != [] && (chunks[0].start == at || FollowsAt(cues, chunks, at))
  {
    hide Follows;
    var c :| 0 <= c < |chunks| && chunks[c].start == at && forall i :: 0 <= i < c ==> cues.thematicBreak(chunks[i].text);
    assert c > 0 ==> cues.thematicBreak(chunks[c - 1].text);
  }

  method Refine(cues: Cues, text: string, piece: Span) returns (refined: seq<Span>)
    requires LineMachine(cues.step) && Sound(cues.step, text, piece)
    ensures refined != [] && AllSound(cues.step, text, refined) && Ordered(refined)
    ensures Within(refined, piece.start, piece.end)
    ensures Refines(cues, text, piece, refined)
    ensures CuesFit(cues) && Authored(cues, piece) ==> refined[0].start == piece.start
    ensures refined[0].start == piece.start || StepFollows(cues, text, refined[0].start)
    ensures forall j :: 0 < j < |refined| ==> StepFollows(cues, text, refined[j].start)
  {
    hide Attached, AreBlocks, LineMachine, CuesFit, Authored, Sound, Refines, StepFollows, SpansFollow;
    refined := [piece];
    PieceAlone(cues, text, piece);
    if |piece.text| > 3500 {
      var candidates := SafeMarkdownBlocks(cues.step, piece.text);
      if |candidates| <= 1 {
        RefinesLong(cues, text, piece, candidates, [], refined);
      } else {
        BlocksAreOrdered(cues.step, piece.text, candidates);
        LiftedIsSound(cues.step, text, piece, candidates);
        var decomposed := SplitMarkdownAttachment(cues, text, Lifted(piece, candidates));
        FirstLifted(cues, text, piece, candidates);
        LiftedWithin(cues.step, text, piece, Lifted(piece, candidates), decomposed);
        DecomposedFollows(cues, text, piece, candidates, decomposed);
        if |decomposed| > 1 {
          refined := decomposed;
        }
        RefinesLong(cues, text, piece, candidates, decomposed, refined);
      }
    }
  }

  lemma PieceAlone(cues: Cues, text: string, piece: Span)
    requires Sound(cues.step, text, piece)
    ensures AllSound(cues.step, text, [piece]) && Ordered([piece]) && Within([piece], piece.start, piece.end)
    ensures |piece.text| <= 3500 ==> Refines(cues, text, piece, [piece])
  {
    hide Sound;
  }

  lemma RefinesLong(
    cues: Cues, text: string, piece: Span, candidates: seq<Span>, decomposed: seq<Span>, refined: seq<Span>)
    requires |piece.text| > 3500 && AreBlocks(cues.step, piece.text, candidates)
    requires |candidates| > 1 ==> Attached(cues, text, Lifted(piece, candidates), decomposed)
    requires refined == if |candidates| > 1 && |decomposed| > 1 then decomposed else [piece]
    ensures Refines(cues, text, piece, refined)
  {
    hide AreBlocks, Attached;
  }

  lemma LiftedWithin(step: Scanner, text: string, piece: Span, lifted: seq<Span>, spans: seq<Span>)
    requires lifted != [] && Within(lifted, piece.start, piece.end)
    requires Within(spans, lifted[0].start, lifted[|lifted| - 1].end)
    ensures Within(spans, piece.start, piece.end)
  {
  }

  lemma FirstLifted(cues: Cues, text: string, piece: Span, candidates: seq<Span>)
    requires Sound(cues.step, text, piece) && AreBlocks(cues.step, piece.text, candidates)
    requires AllSound(cues.step, text, Lifted(piece, candidates))
    ensures candidates != [] && Lifted(piece, candidates)[0].start == piece.start
    ensures Authored(cues, piece) == Authored(cues, Lifted(piece, candidates)[0])
  {
    hide DividedAt, Marker, IsSpace, Reaches, EndsLine;
    FirstBlockStarts(cues.step, piece.text, candidates);
    SameFirstLine(cues.step, text, piece, Lifted(piece, candidates)[0]);
  }

  ghost predicate HasStart(spans: seq<Span>, at: int) {
    exists j :: 0 <= j < |spans| && spans[j].start == at
  }

  lemma SliceSound(step: Scanner, text: string, spans: seq<Span>, i: nat, j: nat)
    requires AllSound(step, text, spans) && Ordered(spans) && i <= j <= |spans|
    ensures AllSound(step, text, spans[i..j]) && Ordered(spans[i..j])
  {
  }

  /** Every authored chunk among the first `n` starts a span. */
  ghost predicate MarkersStart(cues: Cues, chunks: seq<Span>, n: nat, spans: seq<Span>)
    requires n <= |chunks|
  {
    forall i :: 0 <= i < n && Authored(cues, chunks[i]) ==> HasStart(spans, chunks[i].start)
  }

  /** The first position from `from` on where something holds. */
  function NextAt(holds: Span -> bool, spans: seq<Span>, from: nat): (next: nat)
    requires from <= |spans|
    ensures from <= next <= |spans|
    ensures forall i :: from <= i < next ==> !holds(spans[i])
    ensures next < |spans| ==> holds(spans[next])
    decreases |spans| - from
  {
    if from == |spans| || holds(spans[from]) then from else NextAt(holds, spans, from + 1)
  }

  /** The first authored chunk from `from` on. */
  function NextMarkerAt(cues: Cues, chunks: seq<Span>, from: nat): (next: nat)
    requires from <= |chunks|
    ensures from <= next <= |chunks|
  {
    NextAt((s: Span) => Authored(cues, s), chunks, from)
  }

  lemma NextMarkerIs(cues: Cues, chunks: seq<Span>, from: nat)
    requires from <= |chunks|
    ensures var next := NextMarkerAt(cues, chunks, from);
            && (forall i :: from <= i < next ==> !Authored(cues, chunks[i]))
            && (next < |chunks| ==> Authored(cues, chunks[next]))
  {
    hide Authored;
  }

  method NextMarker(cues: Cues, chunks: seq<Span>, from: nat) returns (next: nat)
    requires from <= |chunks|
    ensures next == NextMarkerAt(cues, chunks, from)
    ensures forall i :: from <= i < next ==> !Authored(cues, chunks[i])
    ensures next < |chunks| ==> Authored(cues, chunks[next])
  {
    hide Authored;
    next := from;
    while next < |chunks| && !Authored(cues, chunks[next])
      invariant from <= next <= |chunks|
      invariant NextMarkerAt(cues, chunks, next) == NextMarkerAt(cues, chunks, from)
      invariant forall i :: from <= i < next ==> !Authored(cues, chunks[i])
    {
      next := next + 1;
    }
  }

  /** One span per authored chunk, up to the next one. */
  function SectionsFrom(cues: Cues, text: string, chunks: seq<Span>, marker: nat): (r: seq<Span>)
    requires marker <= |chunks|
    decreases |chunks| - marker
  {
    if marker == |chunks| then []
    else
      var next := NextMarkerAt(cues, chunks, marker + 1);
      [Join(text, chunks[marker..next])] + SectionsFrom(cues, text, chunks, next)
  }

  /** What precedes the first marker is split by attachment. */
  ghost predicate IsPreamble(cues: Cues, text: string, chunks: seq<Span>, first: nat, pre: seq<Span>)
    requires first <= |chunks|
  {
    if first == 0 then pre == [] else Attached(cues, text, chunks[..first], pre)
  }

  /** What precedes the first marker is split by attachment; every marker opens a section of its own. */
  method Sections(
      cues: Cues, text: string, chunks: seq<Span>, first: nat) returns (results: seq<Span>, ghost pre: seq<Span>)
    requires LineMachine(cues.step) && AllSound(cues.step, text, chunks) && Ordered(chunks)
    requires first < |chunks| && first == NextMarkerAt(cues, chunks, 0)
    ensures IsPreamble(cues, text, chunks, first, pre) && results == pre + SectionsFrom(cues, text, chunks, first)
    ensures AllSound(cues.step, text, results) && Ordered(results) && Within(pre, 0, chunks[first].start)
    ensures MarkersStart(cues, chunks, |chunks|, results)
    ensures forall own :: AreChunks(cues, text, chunks[..first], own) ==>
              (pre == [] <==> OnlyBreaks(cues, own)) && SpansFollow(cues, own, pre)
  {
    hide Attached, Authored, Sound, AllSound, Ordered, Within, LineMachine, MarkersStart, AreChunks, OnlyBreaks, SpansFollow;
    results := Preamble(cues, text, chunks, first);
    pre := results;
    NextMarkerIs(cues, chunks, 0);
    var marker := first;
    assert MarkersStart(cues, chunks, first, results) by { NoMarkersYet(cues, chunks, first, results); }
    while marker < |chunks|
      invariant first <= marker <= |chunks|
      invariant marker < |chunks| ==> Within(results, 0, chunks[marker].start) && Authored(cues, chunks[marker])
      invariant results + SectionsFrom(cues, text, chunks, marker) == pre + SectionsFrom(cues, text, chunks, first)
      invariant AllSound(cues.step, text, results) && Ordered(results)
      invariant MarkersStart(cues, chunks, marker, results)
      decreases |chunks| - marker
    {
      var next := NextMarker(cues, chunks, marker + 1);
      ghost var before := results;
      results := AddSection(cues, text, chunks, marker, next, results);
      Associative(before, [Join(text, chunks[marker..next])], SectionsFrom(cues, text, chunks, next));
      marker := next;
    }
  }

  lemma NoMarkersYet(cues: Cues, chunks: seq<Span>, first: nat, results: seq<Span>)
    requires first <= |chunks| && forall i :: 0 <= i < first ==> !Authored(cues, chunks[i])
    ensures MarkersStart(cues, chunks, first, results)
  {
  }

  method Preamble(cues: Cues, text: string, chunks: seq<Span>, first: nat) returns (results: seq<Span>)
    requires LineMachine(cues.step) && AllSound(cues.step, text, chunks) && Ordered(chunks) && first < |chunks|
    ensures AllSound(cues.step, text, results) && Ordered(results) && Within(results, 0, chunks[first].start)
    ensures IsPreamble(cues, text, chunks, first, results)
    ensures forall own :: AreChunks(cues, text, chunks[..first], own) ==>
              (results == [] <==> OnlyBreaks(cues, own)) && SpansFollow(cues, own, results)
  {
    hide Attached, Marker, AreChunks, Sound, Follows;
    results := [];
    if first > 0 {
      var before := chunks[..first];
      SliceSound(cues.step, text, chunks, 0, first);
      results := SplitMarkdownAttachment(cues, text, before);
      SpansAdvance(cues.step, text, chunks, 0, first - 1);
      assert before[|before| - 1].end <= chunks[first].start;
    } else {
      forall own | AreChunks(cues, text, chunks[..first], own) ensures OnlyBreaks(cues, own) {
        NoBlocksNoChunks(cues, text, own);
      }
    }
  }

  lemma NoBlocksNoChunks(cues: Cues, text: string, own: seq<Span>)
    requires AreChunks(cues, text, [], own)
    ensures own == []
  {
    hide Sound, MarkerLine;
    DivisionIsUnique(text, VisibleInside(text, []), ChunkCuts(cues, text, []), own, []);
  }

  method AddSection(
    cues: Cues, text: string, chunks: seq<Span>, marker: nat, next: nat, results: seq<Span>)
    returns (r: seq<Span>)
    requires AllSound(cues.step, text, chunks) && Ordered(chunks) && marker < next <= |chunks|
    requires forall i :: marker < i < next ==> !Authored(cues, chunks[i])
    requires AllSound(cues.step, text, results) && Ordered(results) && Within(results, 0, chunks[marker].start)
    requires MarkersStart(cues, chunks, marker, results)
    ensures r == results + [Join(text, chunks[marker..next])]
    ensures AllSound(cues.step, text, r) && Ordered(r)
    ensures next < |chunks| ==> Within(r, 0, chunks[next].start)
    ensures MarkersStart(cues, chunks, next, r)
  {
    var group := chunks[marker..next];
    SpansAdvance(cues.step, text, chunks, marker, next - 1);
    SliceSound(cues.step, text, chunks, marker, next);
    JoinIsSound(cues.step, text, group);
    ghost var lo, hi := chunks[marker].start, if next < |chunks| then chunks[next].start else |text|;
    assert chunks[next - 1].end <= hi;
    var section := Join(text, group);
    AppendSound(cues.step, text, results, section, 0, lo, hi);
    r := results + [section];
    StartsGrow(cues, chunks, marker, next, results, section);
  }

  lemma StartsGrow(
    cues: Cues, chunks: seq<Span>, marker: nat, next: nat, results: seq<Span>, section: Span)
    requires marker < next <= |chunks| && MarkersStart(cues, chunks, marker, results)
    requires forall i :: marker < i < next ==> !Authored(cues, chunks[i])
    requires section.start == chunks[marker].start
    ensures MarkersStart(cues, chunks, next, results + [section])
  {
    var r := results + [section];
    assert r[|results|] == section;
    forall i | 0 <= i < next && Authored(cues, chunks[i]) ensures HasStart(r, chunks[i].start) {
      if i < marker {
        var j :| 0 <= j < |results| && results[j].start == chunks[i].start;
        assert r[j].start == chunks[i].start;
      }
    }
  }


  // ---- the exact partition ---------------------------------------------------------------------------------

  function Piece(text: string, from: nat, to: nat): (r: seq<Span>) {
    if from < to <= |text| then [Span(from, to, text[from..to])] else []
  }

  /** The pieces between consecutive boundaries, empty ones left out. */
  function CutPieces(text: string, bounds: seq<nat>): (r: seq<Span>) {
    if |bounds| < 2 then []
    else CutPieces(text, bounds[..|bounds| - 1]) + Piece(text, bounds[|bounds| - 2], bounds[|bounds| - 1])
  }

  function Boundaries(text: string, spans: seq<Span>): (r: seq<nat>)
    requires spans != [] && forall i :: 0 <= i < |spans| ==> spans[i].start >= 0
  {
    [0] + seq(|spans| - 1, i requires 0 <= i < |spans| - 1 => spans[i + 1].start as nat) + [|text|]
  }

  function PartitionSourceSpans(text: string, spans: seq<Span>): (r: seq<Span>)
    requires forall i :: 0 <= i < |spans| ==> spans[i].start >= 0
  {
    if spans == [] then [] else CutPieces(text, Boundaries(text, spans))
  }

  ghost predicate Rising(bounds: seq<nat>) {
    forall i, j :: 0 <= i < j < |bounds| ==> bounds[i] < bounds[j]
  }

  ghost predicate CutsAt(pieces: seq<Span>, k: int, bounds: seq<nat>, text: string)
    requires 0 <= k < |pieces| && k + 1 < |bounds|
  {
    bounds[k] < bounds[k + 1] <= |text| && pieces[k] == Span(bounds[k], bounds[k + 1], text[bounds[k]..bounds[k + 1]])
  }

  lemma {:induction false} PiecesFit(text: string, bounds: seq<nat>)
    requires |bounds| >= 1 && Rising(bounds) && bounds[|bounds| - 1] <= |text|
    ensures |CutPieces(text, bounds)| == |bounds| - 1
    ensures forall k :: 0 <= k < |bounds| - 1 ==> CutsAt(CutPieces(text, bounds), k, bounds, text)
  {
    if |bounds| > 1 {
      var n := |bounds| - 1;
      var before := bounds[..n];
      PiecesFit(text, before);
      var all, earlier := CutPieces(text, bounds), CutPieces(text, before);
      assert all == earlier + [Span(bounds[n - 1], bounds[n], text[bounds[n - 1]..bounds[n]])];
      forall k | 0 <= k < n ensures CutsAt(all, k, bounds, text) {
        if k < n - 1 {
          assert CutsAt(earlier, k, before, text);
        }
      }
    }
  }

  lemma CutsPartition(text: string, pieces: seq<Span>, bounds: seq<nat>)
    requires |pieces| + 1 == |bounds| && bounds[0] == 0 && bounds[|pieces|] == |text|
    requires forall k :: 0 <= k < |pieces| ==> CutsAt(pieces, k, bounds, text)
    ensures Partitions(pieces, text)
  {
    forall k | 0 <= k < |pieces| ensures SpanFits(pieces, k, text) {
      assert CutsAt(pieces, k, bounds, text);
      assert k > 0 ==> CutsAt(pieces, k - 1, bounds, text);
    }
    assert |pieces| > 0 ==> CutsAt(pieces, |pieces| - 1, bounds, text);
  }

  lemma BoundariesRise(step: Scanner, text: string, spans: seq<Span>)
    requires spans != [] && AllSound(step, text, spans) && Ordered(spans)
    ensures forall i :: 0 <= i < |spans| ==> spans[i].start >= 0
    ensures var bounds := Boundaries(text, spans);
            && |bounds| == |spans| + 1 && bounds[0] == 0 && bounds[|spans|] == |text| && Rising(bounds)
            && forall k :: 0 < k < |spans| ==> bounds[k] == spans[k].start
  {
    hide IsSpace, IsBreak, Reaches, EndsLine;
    forall i | 0 <= i < |spans| ensures 0 <= spans[i].start < spans[i].end <= |text| {
      assert Sound(step, text, spans[i]);
    }
    var bounds := Boundaries(text, spans);
    forall k | 0 < k < |spans| ensures bounds[k] == spans[k].start {
    }
    forall i, j | 0 <= i < j < |bounds| ensures bounds[i] < bounds[j] {
      if 0 < i && j < |spans| {
        assert spans[i].end <= spans[j].start;
      } else if j < |spans| {
        assert spans[0].end <= spans[j].start;
      }
    }
  }

  /** Sound, ordered spans give a partition of the text with one piece each; every piece but the first starts
      where its span does. */
  lemma PartitionIsExact(step: Scanner, text: string, spans: seq<Span>)
    requires spans != [] && AllSound(step, text, spans) && Ordered(spans)
    ensures forall i :: 0 <= i < |spans| ==> spans[i].start >= 0
    ensures var r := PartitionSourceSpans(text, spans);
            && Partitions(r, text) && |r| == |spans|
            && forall k :: 0 < k < |r| ==> r[k].start == spans[k].start
  {
    BoundariesRise(step, text, spans);
    var bounds := Boundaries(text, spans);
    PiecesFit(text, bounds);
    var r := CutPieces(text, bounds);
    CutsPartition(text, r, bounds);
    forall k | 0 < k < |r| ensures r[k].start == spans[k].start {
      assert CutsAt(r, k, bounds, text);
    }
  }


  // ---- authored markers begin steps ------------------------------------------------------------------------

  /** Chunks split again are themselves. */
  lemma ChunksOfChunks(cues: Cues, text: string, blocks: seq<Span>, chunks: seq<Span>, n: nat)
    requires AreChunks(cues, text, blocks, chunks) && n <= |chunks|
    ensures AreChunks(cues, text, chunks[..n], chunks[..n])
  {
    hide Sound, MarkerLine, IsSpace;
    var own := chunks[..n];
    var covered, cut := VisibleInside(text, own), ChunkCuts(cues, text, own);
    forall i | 0 <= i < n ensures Tight(text, covered, own[i]) && Whole(own[i], cut) {
      assert own[i] == chunks[i];
      OwnChunk(cues, text, blocks, chunks, n, i);
    }
    forall i | 0 < i < n ensures CutBetween(cut, own[i - 1].end, own[i].start) {
      assert Tight(text, VisibleInside(text, blocks), chunks[i]);
      assert IsStart(own, own[i].start);
      assert cut(own[i].start);
    }
  }

  lemma OwnChunk(cues: Cues, text: string, blocks: seq<Span>, chunks: seq<Span>, n: nat, i: nat)
    requires AreChunks(cues, text, blocks, chunks) && i < n <= |chunks|
    ensures Tight(text, VisibleInside(text, chunks[..n]), chunks[i])
    ensures Whole(chunks[i], ChunkCuts(cues, text, chunks[..n]))
  {
    hide Sound, MarkerLine, IsSpace, CutBetween, Tight, Whole, InSome;
    var own, s := chunks[..n], chunks[i];
    assert own[i] == s;
    TightAlone(cues, text, blocks, own, i);
    forall j | 0 <= j < n ensures !(s.start < own[j].start < s.end) {
      assert own[j] == chunks[j];
      StartNotInside(text, VisibleInside(text, blocks), ChunkCuts(cues, text, blocks), chunks, i, j);
    }
    WholeAlone(cues, text, blocks, own, s);
  }

  lemma StartNotInside(text: string, covered: nat -> bool, cut: nat -> bool, chunks: seq<Span>, i: nat, j: nat)
    requires DividedAt(text, covered, cut, chunks) && i < |chunks| && j < |chunks|
    ensures chunks[j].start <= chunks[i].start || chunks[i].end <= chunks[j].start
  {
    hide Whole, CutBetween, InSome;
    assert Tight(text, covered, chunks[j]);
  }

  lemma TightAlone(cues: Cues, text: string, blocks: seq<Span>, own: seq<Span>, i: nat)
    requires i < |own| && Tight(text, VisibleInside(text, blocks), own[i])
    ensures Tight(text, VisibleInside(text, own), own[i])
  {
    hide IsSpace;
    var s := own[i];
    assert InSome(own, s.start) && InSome(own, s.end - 1);
  }

  lemma WholeAlone(cues: Cues, text: string, blocks: seq<Span>, own: seq<Span>, s: Span)
    requires Whole(s, ChunkCuts(cues, text, blocks))
    requires forall j :: 0 <= j < |own| ==> !(s.start < own[j].start < s.end)
    ensures Whole(s, ChunkCuts(cues, text, own))
  {
    hide MarkerLine;
    forall c: nat | s.start < c < s.end ensures !ChunkCuts(cues, text, own)(c) {
      assert !ChunkCuts(cues, text, blocks)(c);
    }
  }

  /** A marker line begins a chunk, and that chunk is authored. */
  lemma MarkerBeginsChunk(cues: Cues, text: string, blocks: seq<Span>, chunks: seq<Span>, p: nat) returns (i: nat)
    requires AreBlocks(cues.step, text, blocks) && AreChunks(cues, text, blocks, chunks) && MarkerLine(cues, text, p)
    ensures i < |chunks| && Leads(text, p, chunks[i].start) && Authored(cues, chunks[i])
  {
    hide MarkerLine, IsSpace, Leads, AreBlocks, AreChunks, AllSpace, Reaches, EndsLine, IsBreak, Authored;
    var f := MarkerShows(cues, text, p);
    i := VisibleInChunk(cues, text, blocks, chunks, f);
    var s := chunks[i];
    MarkerNotInside(cues, text, blocks, chunks, i, p);
    NotInSpace(text, p, f, s.start);
    assert s.start == f;
    FirstLineOfMarker(cues, text, p, f, s);
  }

  lemma MarkerShows(cues: Cues, text: string, p: nat) returns (f: nat)
    requires MarkerLine(cues, text, p)
    ensures p <= f < |text| && AllSpace(text[p..f]) && !IsSpace(text[f]) && Leads(text, p, f)
  {
    hide IsBreak, IsSpace, Marker, StateAt, Leads, AllSpace, LineLength;
    var end: nat := p + LineLength(text[p..]);
    f := FirstVisibleAt(text, p, end);
    LeadsToVisible(text, p, f);
  }

  lemma VisibleInChunk(cues: Cues, text: string, blocks: seq<Span>, chunks: seq<Span>, f: nat) returns (i: nat)
    requires AreBlocks(cues.step, text, blocks) && AreChunks(cues, text, blocks, chunks) && f < |text| && !IsSpace(text[f])
    ensures i < |chunks| && chunks[i].start <= f < chunks[i].end
  {
    hide Sound, IsSpace, MarkerLine, BlankLine, Tight, Whole, CutBetween;
    assert VisibleIn(text)(f);
    assert InSome(blocks, f);
    assert VisibleInside(text, blocks)(f);
    assert InSome(chunks, f);
    i :| i < |chunks| && chunks[i].start <= f < chunks[i].end;
  }

  lemma MarkerNotInside(cues: Cues, text: string, blocks: seq<Span>, chunks: seq<Span>, i: nat, p: nat)
    requires AreChunks(cues, text, blocks, chunks) && i < |chunks| && MarkerLine(cues, text, p)
    ensures p <= chunks[i].start || chunks[i].end <= p
    ensures Sound(cues.step, text, chunks[i])
  {
    hide IsSpace, MarkerLine, Tight, CutBetween, Sound;
    assert Whole(chunks[i], ChunkCuts(cues, text, blocks));
    assert ChunkCuts(cues, text, blocks)(p);
  }

  lemma FirstLineOfMarker(cues: Cues, text: string, p: nat, f: nat, s: Span)
    requires MarkerLine(cues, text, p) && Leads(text, p, f) && Sound(cues.step, text, s) && s.start == f
    ensures Authored(cues, s)
  {
    hide Reaches, EndsLine, IsBreak, IsSpace, Marker, LineLength, StateAt, FirstLine, Strip;
    var end: nat := p + LineLength(text[p..]);
    LeadLengthens(text, p, f);
    FirstLineExtends(text, f, s.end, |text|);
    FirstLineAt(text, f, end);
    LeadIsStripped(text, p, f, end);
  }

  lemma FirstLineAt(text: string, f: nat, end: nat)
    requires f < |text| && !IsSpace(text[f]) && end == f + LineLength(text[f..])
    ensures FirstLine(text[f..|text|]) == Strip(text[f..end])
  {
    hide IsSpace, LineLength, Strip, FirstLine;
    var rest := text[f..];
    assert text[f..|text|] == rest && rest[0] == text[f];
    FirstLineIsStrip(rest);
    assert rest[..end - f] == text[f..end];
  }

  lemma LeadIsStripped(text: string, p: nat, f: nat, end: nat)
    requires p <= f < end <= |text| && AllSpace(text[p..f]) && !IsSpace(text[f])
    ensures Strip(text[p..end]) == Strip(text[f..end])
  {
    hide IsSpace, RStrip;
    var line := text[p..end];
    SubSlice(text, p, end, 0, f - p, p, f);
    SubSlice(text, p, end, f - p, end - p, f, end);
    assert line[..f - p] == line[0..f - p] && line[f - p..] == line[f - p..end - p] && line[f - p] == text[f];
    LStripOf(line, f - p);
    assert text[f..end][..0] == "";
    LStripOf(text[f..end], 0);
  }

  /** All chunks that begin before `p` are thematic breaks. */
  ghost predicate OnlyBreaksBefore(cues: Cues, text: string, p: int) {
    exists blocks, chunks ::
      AreBlocks(cues.step, text, blocks) && AreChunks(cues, text, blocks, chunks) && BreaksBefore(cues, chunks, p)
  }

  ghost predicate BreaksBefore(cues: Cues, chunks: seq<Span>, p: int) {
    forall i :: 0 <= i < |chunks| && chunks[i].start < p ==> cues.thematicBreak(chunks[i].text)
  }

  /** A step begins with the line at `p`: at its first visible character, or at the start of the text when nothing
      but thematic breaks comes before. */
  ghost predicate StepBegins(cues: Cues, text: string, r: seq<Span>, p: nat) {
    exists k :: 0 <= k < |r| && r[k].start >= 0 && (Leads(text, p, r[k].start) || (k == 0 && p < r[0].end && OnlyBreaksBefore(cues, text, p)))
  }

  /** What the sections and the refinement are made of. */
  ghost predicate Sectioned(cues: Cues, text: string, blocks: seq<Span>, chunks: seq<Span>, results: seq<Span>) {
    var first := NextMarkerAt(cues, chunks, 0);
    if first == |chunks| then Attached(cues, text, blocks, results)
    else exists pre :: IsPreamble(cues, text, chunks, first, pre)
                       && results == pre + SectionsFrom(cues, text, chunks, first)
  }

  ghost predicate RefinedAs(cues: Cues, text: string, results: seq<Span>, parts: seq<seq<Span>>) {
    |parts| == |results| && forall i :: 0 <= i < |parts| ==> Refines(cues, text, results[i], parts[i])
  }

  /** The whole path from the text to its steps. */
  ghost predicate Hybrid(cues: Cues, text: string, r: seq<Span>) {
    exists blocks, chunks, results, parts ::
      && AreBlocks(cues.step, text, blocks) && AreChunks(cues, text, blocks, chunks)
      && Sectioned(cues, text, blocks, chunks, results) && RefinedAs(cues, text, results, parts)
      && AllSound(cues.step, text, Flatten(parts)) && r == PartitionSourceSpans(text, Flatten(parts))
  }

  /** Authored chunks begin results, and so do the first of them unless something else comes before. */
  ghost predicate ResultsBegin(cues: Cues, chunks: seq<Span>, results: seq<Span>) {
    && MarkersStart(cues, chunks, |chunks|, results)
    && forall i :: 0 <= i < |chunks| && Authored(cues, chunks[i]) && results != [] && results[0].start == chunks[i].start ==>
         OnlyBreaks(cues, chunks[..i])
  }

  method SplitSections(cues: Cues, text: string, blocks: seq<Span>, chunks: seq<Span>) returns (results: seq<Span>)
    requires LineMachine(cues.step) && CuesFit(cues) && AllSound(cues.step, text, blocks) && Ordered(blocks)
    requires AreChunks(cues, text, blocks, chunks) && AllSound(cues.step, text, chunks) && Ordered(chunks)
    ensures AllSound(cues.step, text, results) && Ordered(results)
    ensures Sectioned(cues, text, blocks, chunks, results) && ResultsBegin(cues, chunks, results)
    ensures results == [] <==> OnlyBreaks(cues, chunks) && NextMarkerAt(cues, chunks, 0) == |chunks|
    ensures SpansFollow(cues, chunks, results)
  {
    hide LineMachine, AllSound, Ordered, AreChunks, Attached, Authored, OnlyBreaks, Sound, Within, SpansFollow, CuesFit;
    var first := NextMarker(cues, chunks, 0);
    if first == |chunks| {
      results := SplitMarkdownAttachment(cues, text, blocks);
      assert chunks[..|chunks|] == chunks;
    } else {
      ghost var pre;
      results, pre := Sections(cues, text, chunks, first);
      ChunksOfChunks(cues, text, blocks, chunks, first);
      SectionsBegin(cues, text, chunks, first, pre, results);
      ResultsFollow(cues, text, chunks, first, pre, results);
    }
  }

  /** Sections begin with markers. */
  lemma {:induction false} SectionsAreMarked(cues: Cues, text: string, chunks: seq<Span>, marker: nat)
    requires marker < |chunks| ==> Authored(cues, chunks[marker])
    requires marker <= |chunks|
    ensures forall j :: 0 <= j < |SectionsFrom(cues, text, chunks, marker)| ==>
              MarkedAt(cues, chunks, SectionsFrom(cues, text, chunks, marker)[j].start)
    decreases |chunks| - marker
  {
    hide Authored, NextMarkerAt;
    if marker < |chunks| {
      NextMarkerIs(cues, chunks, marker + 1);
      SectionsAreMarked(cues, text, chunks, NextMarkerAt(cues, chunks, marker + 1));
    }
  }

  ghost predicate MarkedAt(cues: Cues, chunks: seq<Span>, at: int) {
    exists i :: 0 <= i < |chunks| && Authored(cues, chunks[i]) && chunks[i].start == at
  }

  lemma ResultsFollow(
    cues: Cues, text: string, chunks: seq<Span>, first: nat, pre: seq<Span>, results: seq<Span>)
    requires first < |chunks| && first == NextMarkerAt(cues, chunks, 0) && CuesFit(cues)
    requires results == pre + SectionsFrom(cues, text, chunks, first) && results != []
    requires AllSound(cues.step, text, chunks) && Ordered(chunks) && AllSound(cues.step, text, results) && Ordered(results)
    requires SpansFollow(cues, chunks[..first], pre) && (pre == [] ==> OnlyBreaks(cues, chunks[..first]))
    ensures SpansFollow(cues, chunks, results)
  {
    hide Authored, AllSound, Ordered, NextMarkerAt, FollowsAt, FirstAfterBreaks, CuesFit;
    NextMarkerIs(cues, chunks, 0);
    SectionsAreMarked(cues, text, chunks, first);
    FirstResult(cues, text, chunks, first, pre, results);
    forall k | 0 < k < |results| ensures FollowsAt(cues, chunks, results[k].start) {
      if k < |pre| {
        assert pre[k] == results[k];
        FollowsInPrefix(cues, chunks, first, results[k].start);
      } else {
        assert results[k] == SectionsFrom(cues, text, chunks, first)[k - |pre|];
        StartsTell(cues.step, text, results, 0, k);
        MarkedFollows(cues, text, chunks, results[0].start, results[k].start);
      }
    }
  }

  lemma FirstResult(
    cues: Cues, text: string, chunks: seq<Span>, first: nat, pre: seq<Span>, results: seq<Span>)
    requires first < |chunks| && Authored(cues, chunks[first]) && CuesFit(cues)
    requires results == pre + SectionsFrom(cues, text, chunks, first) && results != []
    requires SpansFollow(cues, chunks[..first], pre) && (pre == [] ==> OnlyBreaks(cues, chunks[..first]))
    ensures FirstAfterBreaks(cues, chunks, results[0].start)
  {
    hide FollowsAt, Marker;
    var before := chunks[..first];
    if pre != [] {
      var c :| 0 <= c < |before| && before[c].start == pre[0].start && !cues.thematicBreak(before[c].text)
        && forall i :: 0 <= i < c ==> cues.thematicBreak(before[i].text);
      assert chunks[c] == before[c] && forall i :: 0 <= i < c ==> chunks[i] == before[i];
    } else {
      assert forall i :: 0 <= i < first ==> chunks[i] == before[i];
      assert results[0].start == chunks[first].start;
    }
  }

  lemma FollowsInPrefix(cues: Cues, chunks: seq<Span>, n: nat, at: int)
    requires n <= |chunks| && FollowsAt(cues, chunks[..n], at)
    ensures FollowsAt(cues, chunks, at)
  {
    hide Follows;
    var before := chunks[..n];
    var c :| 0 < c < |before| && before[c].start == at
      && (cues.thematicBreak(before[c - 1].text) || Follows(cues, before[c - 1], before[c]));
    assert chunks[c] == before[c] && chunks[c - 1] == before[c - 1];
  }

  /** A marker after the first result follows, whatever precedes it. */
  lemma MarkedFollows(cues: Cues, text: string, chunks: seq<Span>, first: int, at: int)
    requires AllSound(cues.step, text, chunks) && Ordered(chunks)
    requires FirstAfterBreaks(cues, chunks, first) && MarkedAt(cues, chunks, at) && first < at
    ensures FollowsAt(cues, chunks, at)
  {
    hide FirstLine, AllSound, Ordered;
    var c :| 0 <= c < |chunks| && chunks[c].start == first;
    var i :| 0 <= i < |chunks| && Authored(cues, chunks[i]) && chunks[i].start == at;
    StartsTell(cues.step, text, chunks, c, i);
    assert Follows(cues, chunks[i - 1], chunks[i]);
  }

  lemma SectionsBegin(cues: Cues, text: string, chunks: seq<Span>, first: nat, pre: seq<Span>, results: seq<Span>)
    requires first < |chunks| && first == NextMarkerAt(cues, chunks, 0)
    requires results == pre + SectionsFrom(cues, text, chunks, first) && Within(pre, 0, chunks[first].start)
    requires AllSound(cues.step, text, chunks) && Ordered(chunks) && AllSound(cues.step, text, results)
    requires MarkersStart(cues, chunks, |chunks|, results) && (pre == [] ==> OnlyBreaks(cues, chunks[..first]))
    ensures results != [] && ResultsBegin(cues, chunks, results)
  {
    hide Authored, IsSpace, Reaches, EndsLine, MarkersStart, NextMarkerAt;
    NextMarkerIs(cues, chunks, 0);
    assert Sound(cues.step, text, results[0]);
    FirstOfConcat(pre, SectionsFrom(cues, text, chunks, first));
    forall i | 0 <= i < |chunks| && Authored(cues, chunks[i]) && results[0].start == chunks[i].start
      ensures OnlyBreaks(cues, chunks[..i])
    {
      assert i >= first;
      StartsApart(cues.step, text, chunks, first, i);
    }
  }

  lemma FirstOfConcat(a: seq<Span>, b: seq<Span>)
    requires a + b != []
    ensures (a + b)[0] == if a != [] then a[0] else b[0]
  {
  }

  lemma StartsApart(step: Scanner, text: string, chunks: seq<Span>, first: nat, i: nat)
    requires AllSound(step, text, chunks) && Ordered(chunks) && first <= i < |chunks|
    ensures chunks[first].start <= chunks[i].start && (chunks[first].start == chunks[i].start ==> first == i)
  {
    assert Sound(step, text, chunks[first]);
  }

  /** Semantic steps: nothing for a text of thematic breaks, and otherwise an exact partition whose inner boundaries
      are first visible characters of lines outside every protected region; every authored marker line outside
      protected regions begins a step. */
  method SplitSemanticHybrid(cues: Cues, text: string) returns (r: seq<Span>)
    requires LineMachine(cues.step) && CuesFit(cues)
    ensures r == [] || Partitions(r, text)
    ensures r == [] <==> OnlyBreaksBefore(cues, text, |text|)
    ensures forall k :: 0 < k < |r| ==> StepMayStart(cues.step, text, r[k].start)
    ensures forall p: nat :: MarkerLine(cues, text, p) ==> StepBegins(cues, text, r, p)
    ensures forall k :: 0 < k < |r| ==> StepFollows(cues, text, r[k].start)
    ensures !AllSpace(text) ==> Hybrid(cues, text, r)
  {
    hide AllSpace, Sound, AllSound, Ordered, AreBlocks, AreChunks, Sectioned, RefinedAs, ResultsBegin, MarkerLine, CuesFit,
         StepBegins, OnlyBreaksBefore, OnlyBreaks, LineMachine, PartitionSourceSpans, Partitions, StepMayStart, StepFollows,
         SpansFollow, RefinedStarts;
    StripBlank(text);
    if Strip(text) == "" {
      BlankText(cues, text);
      return [];
    }
    var blocks := SafeMarkdownBlocks(cues.step, text);
    BlocksAreOrdered(cues.step, text, blocks);
    var chunks := SplitBlocksAtStrongBoundaries(cues, text, blocks);
    var results := SplitSections(cues, text, blocks, chunks);
    var refined, parts := RefineAll(cues, text, results);
    if refined != [] {
      PartitionIsExact(cues.step, text, refined);
    } else {
      NoSpansNoSteps(text);
    }
    StartsAreNatural(cues.step, text, refined);
    r := PartitionSourceSpans(text, refined);
    NoSteps(cues, text, blocks, chunks, results, refined, r);
    InnerSteps(cues.step, text, refined, r);
    StepsFollow(cues, text, blocks, chunks, results, refined, r);
    forall p: nat | MarkerLine(cues, text, p) ensures StepBegins(cues, text, r, p) {
      MarkerBeginsStep(cues, text, blocks, chunks, results, refined, r, p);
    }
    assert Hybrid(cues, text, r);
  }

  lemma StartsAreNatural(step: Scanner, text: string, spans: seq<Span>)
    requires AllSound(step, text, spans)
    ensures forall i :: 0 <= i < |spans| ==> spans[i].start >= 0
  {
  }

  lemma NoSpansNoSteps(text: string)
    ensures PartitionSourceSpans(text, []) == []
  {
  }

  lemma BlankText(cues: Cues, text: string)
    requires AllSpace(text)
    ensures OnlyBreaksBefore(cues, text, |text|) && forall p: nat :: !MarkerLine(cues, text, p)
  {
    hide IsSpace;
    assert AreBlocks(cues.step, text, []);
    assert AreChunks(cues, text, [], []);
    forall p: nat | p < |text| ensures AllSpace(text[p..p + LineLength(text[p..])]) {
    }
  }

  /** No steps exactly when every chunk is a thematic break. */
  lemma NoSteps(
    cues: Cues, text: string, blocks: seq<Span>, chunks: seq<Span>, results: seq<Span>, refined: seq<Span>, r: seq<Span>)
    requires AreBlocks(cues.step, text, blocks) && AreChunks(cues, text, blocks, chunks) && CuesFit(cues)
    requires results == [] <==> OnlyBreaks(cues, chunks) && NextMarkerAt(cues, chunks, 0) == |chunks|
    requires refined == [] <==> results == []
    requires refined == [] <==> r == []
    ensures r == [] <==> OnlyBreaksBefore(cues, text, |text|)
  {
    hide AreBlocks, AreChunks, Marker, CuesFit;
    BreaksAreNotMarkers(cues, chunks);
    AllBreaksBefore(cues, text, blocks, chunks);
  }

  lemma BreaksAreNotMarkers(cues: Cues, chunks: seq<Span>)
    requires CuesFit(cues)
    ensures OnlyBreaks(cues, chunks) ==> NextMarkerAt(cues, chunks, 0) == |chunks|
  {
    hide Marker, NextMarkerAt;
    NextMarkerIs(cues, chunks, 0);
  }

  lemma AllBreaksBefore(cues: Cues, text: string, blocks: seq<Span>, chunks: seq<Span>)
    requires AreBlocks(cues.step, text, blocks) && AreChunks(cues, text, blocks, chunks)
    ensures OnlyBreaksBefore(cues, text, |text|) <==> OnlyBreaks(cues, chunks)
  {
    hide AreBlocks;
    if OnlyBreaksBefore(cues, text, |text|) {
      var blocks', chunks' :|
        AreBlocks(cues.step, text, blocks') && AreChunks(cues, text, blocks', chunks')
        && BreaksBefore(cues, chunks', |text|);
      BlocksAreUnique(cues.step, text, blocks, blocks');
      ChunksAreUnique(cues, text, blocks, chunks, chunks');
      ChunksInText(cues, text, blocks, chunks);
    }
  }

  lemma ChunksInText(cues: Cues, text: string, blocks: seq<Span>, chunks: seq<Span>)
    requires AreChunks(cues, text, blocks, chunks)
    ensures forall i :: 0 <= i < |chunks| ==> chunks[i].start < |text|
  {
    hide IsSpace, Reaches, EndsLine, DividedAt;
    forall i | 0 <= i < |chunks| ensures chunks[i].start < |text| {
      assert Sound(cues.step, text, chunks[i]);
    }
  }

  lemma StepsFollow(
    cues: Cues, text: string, blocks: seq<Span>, chunks: seq<Span>, results: seq<Span>, refined: seq<Span>, r: seq<Span>)
    requires AreBlocks(cues.step, text, blocks) && AreChunks(cues, text, blocks, chunks)
    requires SpansFollow(cues, chunks, results) && |r| == |refined|
    requires forall k :: 0 < k < |r| ==> r[k].start == refined[k].start
    requires RefinedStarts(cues, text, results, refined)
    ensures forall k :: 0 < k < |r| ==> StepFollows(cues, text, r[k].start)
  {
    hide AreBlocks, AreChunks, FollowsAt, FirstAfterBreaks, SectionBlocks;
    assert ChunkList(cues, text, chunks);
  }

  /** Inner steps start where their refined spans do. */
  lemma InnerSteps(step: Scanner, text: string, refined: seq<Span>, r: seq<Span>)
    requires AllSound(step, text, refined) && |r| == |refined|
    requires forall k :: 0 < k < |r| ==> r[k].start == refined[k].start
    ensures forall k :: 0 < k < |r| ==> StepMayStart(step, text, r[k].start)
  {
    hide IsSpace, Reaches, EndsLine;
    forall k | 0 < k < |r| ensures StepMayStart(step, text, r[k].start) {
      assert Sound(step, text, refined[k]);
    }
  }

  lemma MarkerBeginsStep(
    cues: Cues, text: string, blocks: seq<Span>, chunks: seq<Span>, results: seq<Span>, refined: seq<Span>, r: seq<Span>,
    p: nat)
    requires AreBlocks(cues.step, text, blocks) && AreChunks(cues, text, blocks, chunks) && MarkerLine(cues, text, p)
    requires ResultsBegin(cues, chunks, results) && AllSound(cues.step, text, results)
    requires KeepsStarts(cues, results, refined)
    requires AllSound(cues.step, text, refined) && Ordered(refined) && |r| == |refined|
    requires forall k :: 0 < k < |r| ==> r[k].start == refined[k].start
    requires r != [] ==> Partitions(r, text)
    ensures StepBegins(cues, text, r, p)
  {
    hide AreBlocks, AreChunks, MarkerLine, Authored, Partitions, Leads, Ordered, AllSound, ResultsBegin, KeepsStarts,
         OnlyBreaksBefore;
    var i := MarkerBeginsChunk(cues, text, blocks, chunks, p);
    var k := ChunkBeginsRefined(cues, text, blocks, chunks, results, refined, i);
    if k == 0 {
      FirstStep(cues, text, blocks, chunks, results, refined, r, p, i);
    } else {
      ChunkStarts(cues, text, blocks, chunks, i);
      assert r[k].start >= 0 && Leads(text, p, r[k].start);
    }
  }

  lemma ChunkStarts(cues: Cues, text: string, blocks: seq<Span>, chunks: seq<Span>, i: nat)
    requires AreChunks(cues, text, blocks, chunks) && i < |chunks|
    ensures chunks[i].start >= 0
  {
    hide IsSpace, Reaches, EndsLine, DividedAt;
    assert Sound(cues.step, text, chunks[i]);
  }

  lemma ChunkBeginsRefined(
    cues: Cues, text: string, blocks: seq<Span>, chunks: seq<Span>, results: seq<Span>, refined: seq<Span>, i: nat)
    returns (k: nat)
    requires AreChunks(cues, text, blocks, chunks) && i < |chunks| && Authored(cues, chunks[i])
    requires ResultsBegin(cues, chunks, results) && AllSound(cues.step, text, results)
    requires KeepsStarts(cues, results, refined)
    ensures k < |refined| && refined[k].start == chunks[i].start
  {
    hide AreChunks, Marker, AllSound, OnlyBreaks, Sound;
    var f := chunks[i].start;
    assert HasStart(results, f);
    var j :| 0 <= j < |results| && results[j].start == f;
    SoundMember(cues.step, text, results, j);
    ChunkIsSoundMember(cues, text, blocks, chunks, i);
    SameFirstLine(cues.step, text, chunks[i], results[j]);
    assert HasStart(refined, f);
    k :| k < |refined| && refined[k].start == f;
  }

  lemma SoundMember(step: Scanner, text: string, spans: seq<Span>, j: nat)
    requires AllSound(step, text, spans) && j < |spans|
    ensures Sound(step, text, spans[j])
  {
  }

  lemma ChunkIsSoundMember(cues: Cues, text: string, blocks: seq<Span>, chunks: seq<Span>, i: nat)
    requires AreChunks(cues, text, blocks, chunks) && i < |chunks|
    ensures Sound(cues.step, text, chunks[i])
  {
  }

  /** The refined spans still begin where authored results do, and the first of them lies in the first result. */
  ghost predicate KeepsStarts(cues: Cues, results: seq<Span>, refined: seq<Span>) {
    && (forall j :: 0 <= j < |results| && Authored(cues, results[j]) ==> HasStart(refined, results[j].start))
    && (refined == [] <==> results == [])
    && (refined != [] ==> results[0].start <= refined[0].start < results[0].end)
    && (forall j :: 0 < j < |results| ==> results[0].end <= results[j].start)
  }

  lemma FirstStep(
    cues: Cues, text: string, blocks: seq<Span>, chunks: seq<Span>, results: seq<Span>, refined: seq<Span>, r: seq<Span>,
    p: nat, i: nat)
    requires AreBlocks(cues.step, text, blocks) && AreChunks(cues, text, blocks, chunks) && i < |chunks|
    requires ResultsBegin(cues, chunks, results) && Authored(cues, chunks[i]) && Leads(text, p, chunks[i].start)
    requires KeepsStarts(cues, results, refined) && refined != [] && refined[0].start == chunks[i].start
    requires AllSound(cues.step, text, refined) && Ordered(refined) && |r| == |refined| && Partitions(r, text)
    requires forall k :: 0 < k < |r| ==> r[k].start == refined[k].start
    ensures StepBegins(cues, text, r, p)
  {
    hide AreBlocks, Marker, IsSpace, Reaches, EndsLine, Leads;
    var f := chunks[i].start;
    assert HasStart(results, f);
    assert results[0].start == f;
    EarlierChunks(cues, text, blocks, chunks, i, p);
    assert Sound(cues.step, text, refined[0]);
    assert SpanFits(r, 0, text);
    assert |r| > 1 ==> SpanFits(r, 1, text) && refined[0].end <= refined[1].start;
    assert p <= f by { LeadIsBefore(text, p, f); }
    assert p < r[0].end;
  }

  lemma LeadIsBefore(text: string, p: nat, f: int)
    requires f >= 0 && Leads(text, p, f)
    ensures p <= f
  {
  }

  lemma EarlierChunks(cues: Cues, text: string, blocks: seq<Span>, chunks: seq<Span>, i: nat, p: nat)
    requires AreBlocks(cues.step, text, blocks) && AreChunks(cues, text, blocks, chunks) && i < |chunks|
    requires OnlyBreaks(cues, chunks[..i]) && chunks[i].start >= 0 && Leads(text, p, chunks[i].start)
    ensures OnlyBreaksBefore(cues, text, p)
  {
    hide AreBlocks, IsSpace, Reaches, EndsLine, Whole, CutBetween, Tight;
    assert Ordered(chunks) && Sound(cues.step, text, chunks[i]);
    assert forall k :: i < k < |chunks| ==> chunks[i].end <= chunks[k].start;
    forall k | 0 <= k < |chunks| && chunks[k].start < p ensures cues.thematicBreak(chunks[k].text) {
      assert chunks[..i][k] == chunks[k];
    }
  }

  /** Where a later result begins, or at the start of a chunk that was free to begin a step. */
  ghost predicate RefinedStart(cues: Cues, text: string, results: seq<Span>, at: int) {
    StepFollows(cues, text, at) || exists i :: 0 < i < |results| && results[i].start == at
  }

  ghost predicate RefinedStarts(cues: Cues, text: string, results: seq<Span>, refined: seq<Span>) {
    forall m :: 0 < m < |refined| ==> RefinedStart(cues, text, results, refined[m].start)
  }

  lemma PiecesStart(
    cues: Cues, text: string, results: seq<Span>, i: nat, refined: seq<Span>, pieces: seq<Span>, all: seq<Span>)
    requires i < |results| && (refined == [] <==> i == 0) && all == refined + pieces
    requires RefinedStarts(cues, text, results, refined)
    requires pieces != [] && (pieces[0].start == results[i].start || StepFollows(cues, text, pieces[0].start))
    requires forall j :: 0 < j < |pieces| ==> StepFollows(cues, text, pieces[j].start)
    ensures RefinedStarts(cues, text, results, all)
  {
    hide StepFollows;
    forall m | 0 < m < |all| ensures RefinedStart(cues, text, results, all[m].start) {
      if m < |refined| {
        assert all[m] == refined[m];
      } else {
        assert all[m] == pieces[m - |refined|];
      }
    }
  }

  lemma NothingRefined(cues: Cues, text: string, results: seq<Span>)
    requires Ordered(results)
    ensures AllSound(cues.step, text, []) && Ordered([]) && RefinedStarts(cues, text, results, [])
    ensures forall j :: 0 < j < |results| ==> results[0].end <= results[j].start
  {
  }

  method RefineAll(cues: Cues, text: string, results: seq<Span>)
    returns (refined: seq<Span>, ghost parts: seq<seq<Span>>)
    requires LineMachine(cues.step) && AllSound(cues.step, text, results) && Ordered(results) && CuesFit(cues)
    ensures AllSound(cues.step, text, refined) && Ordered(refined) && KeepsStarts(cues, results, refined)
    ensures RefinedAs(cues, text, results, parts) && refined == Flatten(parts)
    ensures RefinedStarts(cues, text, results, refined)
  {
    hide Refines, Authored, LineMachine, Sound, CuesFit, RefinedStarts, AllSound, Ordered, StepFollows;
    refined, parts := [], [];
    NothingRefined(cues, text, results);
    for i := 0 to |results|
      invariant AllSound(cues.step, text, refined) && Ordered(refined)
      invariant i < |results| ==> Within(refined, 0, results[i].start)
      invariant refined == [] <==> i == 0
      invariant |parts| == i && refined == Flatten(parts)
      invariant forall j :: 0 <= j < i ==> Refines(cues, text, results[j], parts[j])
      invariant forall j :: 0 <= j < i && Authored(cues, results[j]) ==> HasStart(refined, results[j].start)
      invariant i > 0 ==> results[0].start <= refined[0].start < results[0].end
      invariant RefinedStarts(cues, text, results, refined)
    {
      SoundMember(cues.step, text, results, i);
      var pieces := Refine(cues, text, results[i]);
      ghost var hi := if i + 1 < |results| then results[i + 1].start else |text|;
      ghost var before := refined;
      ResultEnds(cues.step, text, results, i, hi);
      EndInside(cues.step, text, results[i], pieces, hi);
      ConcatSound(cues.step, text, refined, pieces, results[i].start, hi);
      StartsStay(before, pieces);
      PiecesStart(cues, text, results, i, before, pieces, before + pieces);
      FlattenSnoc(parts, pieces);
      refined := refined + pieces;
      parts := parts + [pieces];
    }
  }

  lemma ResultEnds(step: Scanner, text: string, results: seq<Span>, i: nat, hi: int)
    requires AllSound(step, text, results) && Ordered(results) && i < |results|
    requires hi == if i + 1 < |results| then results[i + 1].start else |text|
    ensures results[i].end <= hi
  {
    assert Sound(step, text, results[i]);
  }

  lemma EndInside(step: Scanner, text: string, piece: Span, pieces: seq<Span>, hi: int)
    requires Sound(step, text, piece) && Within(pieces, piece.start, piece.end) && piece.end <= hi
    requires pieces != [] && AllSound(step, text, pieces)
    ensures 0 <= piece.start && Within(pieces, piece.start, hi) && piece.start <= pieces[0].start < piece.end
  {
    hide IsSpace, Reaches, EndsLine;
    assert Sound(step, text, pieces[0]);
  }

  lemma StartsStay(before: seq<Span>, more: seq<Span>)
    ensures forall at :: HasStart(before, at) ==> HasStart(before + more, at)
    ensures more != [] ==> HasStart(before + more, more[0].start)
  {
    var all := before + more;
    forall at | HasStart(before, at) ensures HasStart(all, at) {
      var j :| 0 <= j < |before| && before[j].start == at;
      assert all[j] == before[j];
    }
    if more != [] {
      assert all[|before|] == more[0];
    }
  }

  lemma ConcatSound(step: Scanner, text: string, a: seq<Span>, b: seq<Span>, mid: int, hi: int)
    requires AllSound(step, text, a) && Ordered(a) && Within(a, 0, mid)
    requires AllSound(step, text, b) && Ordered(b) && Within(b, mid, hi) && 0 <= mid
    ensures AllSound(step, text, a + b) && Ordered(a + b)
    ensures b != [] ==> Within(a + b, 0, hi)
  {
    if b != [] {
      assert Sound(step, text, b[0]);
    }
  }
}
