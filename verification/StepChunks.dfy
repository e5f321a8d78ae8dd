// Chunks: blocks cut at authored headings and step markers.

module StepChunks {
  import opened Common
  import opened Spans
  import opened SpanCuts
  import opened TextLines
  import opened StepSpans
  import opened StepBlocks

  predicate Marker(cues: Cues, line: string) {
    cues.heading(line) || cues.explicitStep(line) || cues.finalHeading(line)
  }

  /** The span begins with an authored heading or step marker. */
  predicate Authored(cues: Cues, s: Span) {
    Marker(cues, FirstLine(s.text))
  }

  /** An authored heading or step line that no protected region contains. */
  ghost predicate MarkerLine(cues: Cues, text: string, c: nat) {
    && c < |text| && StateAt(cues.step, text, 0, Free, c) == Some(Free)
    && var line := text[c..c + LineLength(text[c..])];
    !AllSpace(line) && cues.step(line, Free) == Free && Marker(cues, Strip(line))
  }

  ghost predicate NoMarkerIn(cues: Cues, text: string, from: int, to: int) {
    forall c: nat :: from < c < to ==> !MarkerLine(cues, text, c)
  }

  ghost predicate MarkerBetween(cues: Cues, text: string, from: int, to: int) {
    exists c: nat :: from <= c <= to && MarkerLine(cues, text, c)
  }

  /** No marker line starts inside a chunk, and one lies between any two. */
  ghost predicate CutAtMarkers(cues: Cues, text: string, chunks: seq<Span>) {
    && (forall i :: 0 <= i < |chunks| ==> NoMarkerIn(cues, text, chunks[i].start, chunks[i].end))
    && (forall i :: 0 < i < |chunks| ==> MarkerBetween(cues, text, chunks[i - 1].end, chunks[i].start))
  }

  /** Every visible character from `lo` on and before `hi` lies in a span. */
  ghost predicate CoversFrom(text: string, spans: seq<Span>, lo: int, hi: int) {
    forall p: nat :: lo <= p < hi <= |text| && !IsSpace(text[p]) ==> InSome(spans, p)
  }

  /** The chunks of one block: all that is visible in it, cut at the marker lines and nowhere else. */
  ghost predicate ChunksOf(cues: Cues, text: string, block: Span, chunks: seq<Span>) {
    && AllSound(cues.step, text, chunks) && Ordered(chunks) && Within(chunks, block.start, block.end)
    && chunks != [] && chunks[0].start == block.start
    && CoversFrom(text, chunks, block.start, block.end) && CutAtMarkers(cues, text, chunks)
  }

  /** The chunks split so far, and where the next one began. */
  ghost predicate Chunking(cues: Cues, text: string, block: Span, chunks: seq<Span>, chunkStart: nat, cursor: nat) {
    && block.start <= chunkStart <= cursor <= block.end
    && Reaches(cues.step, text, chunkStart, Free)
    && (if chunkStart == cursor then cursor == block.start else Opens(text, chunkStart, cursor))
    && AllSound(cues.step, text, chunks) && Ordered(chunks) && Within(chunks, block.start, chunkStart)
    && (if chunkStart == block.start then chunks == [] else chunks != [] && chunks[0].start == block.start)
  }

  /** What that scan has established about marker lines. */
  ghost predicate Marking(cues: Cues, text: string, block: Span, chunks: seq<Span>, chunkStart: nat, cursor: nat) {
    && block.start <= chunkStart <= cursor <= block.end <= |text|
    && CoversFrom(text, chunks, block.start, chunkStart) && CutAtMarkers(cues, text, chunks)
    && (chunks != [] ==> MarkerLine(cues, text, chunkStart))
    && NoMarkerIn(cues, text, chunkStart, cursor)
  }

  /** The scan of the block agrees with the scan of the whole text. */
  ghost predicate InStep(step: Scanner, text: string, block: Span, cursor: nat, state: State) {
    cursor < block.end ==>
      Reaches(step, text, cursor, state)
      && (block.start < cursor ==> StateAt(step, text, 0, Free, cursor) == Some(state))
  }

  method SplitBlock(cues: Cues, text: string, block: Span) returns (chunks: seq<Span>)
    requires LineMachine(cues.step) && Sound(cues.step, text, block)
    ensures ChunksOf(cues, text, block, chunks)
  {
    hide Chunking, Marking, InStep, StateAt, Sound, LineMachine, ChunksOf;
    NothingMarked(cues, text, block);
    chunks := [];
    var state, local: nat, chunkStart: nat := Free, 0, block.start;
    ghost var cursor: nat := block.start;
    while local < |block.text|
      invariant local <= |block.text| && cursor == block.start + local
      invariant StateAt(cues.step, block.text, 0, Free, local) == Some(state)
      invariant Chunking(cues, text, block, chunks, chunkStart, cursor)
      invariant Marking(cues, text, block, chunks, chunkStart, cursor)
      invariant InStep(cues.step, text, block, cursor, state)
      decreases |block.text| - local
    {
      state, local, chunkStart, chunks, cursor :=
        TakeBlockLine(cues, text, block, state, local, chunkStart, chunks, cursor);
    }
    chunks := LastChunk(cues, text, block, chunks, chunkStart, cursor);
  }

  lemma NothingMarked(cues: Cues, text: string, block: Span)
    requires Sound(cues.step, text, block)
    ensures 0 <= block.start < block.end == block.start + |block.text|
    ensures StateAt(cues.step, block.text, 0, Free, 0) == Some(Free)
    ensures Chunking(cues, text, block, [], block.start, block.start)
    ensures Marking(cues, text, block, [], block.start, block.start)
    ensures InStep(cues.step, text, block, block.start, Free)
  {
  }

  method LastChunk(
    cues: Cues, text: string, block: Span, chunks: seq<Span>, chunkStart: nat, ghost cursor: nat)
    returns (r: seq<Span>)
    requires Sound(cues.step, text, block) && cursor == block.end
    requires Chunking(cues, text, block, chunks, chunkStart, cursor)
    requires Marking(cues, text, block, chunks, chunkStart, cursor)
    ensures ChunksOf(cues, text, block, r)
  {
    hide IsSpace, IsBreak, CutAtMarkers, CoversFrom, NoMarkerIn, EndsLine, MarkerLine, Reaches, Opens;
    r := AddChunk(cues, text, block, chunks, chunkStart, block.end);
    MarkMore(cues, text, chunks, r, block.start, chunkStart, block.end);
  }

  /** A marker line ends the chunk before it and begins the next one. */
  method CutHere(
    cues: Cues, text: string, block: Span, local: nat, local': nat, chunkStart: nat, chunks: seq<Span>, from: nat,
    to: nat, stripped: Span)
    returns (r: seq<Span>)
    requires LineMachine(cues.step) && Sound(cues.step, text, block)
    requires local < |block.text| && local' == local + LineLength(block.text[local..])
    requires from == block.start + local && to == block.start + local' && chunkStart < from
    requires StateAt(cues.step, block.text, 0, Free, local) == Some(Free)
    requires Chunking(cues, text, block, chunks, chunkStart, from)
    requires Marking(cues, text, block, chunks, chunkStart, from)
    requires from <= stripped.start < to <= |text|
    requires AllSpace(text[from..stripped.start]) && !IsSpace(text[stripped.start])
    requires MarkerLine(cues, text, from) && NoMarkerIn(cues, text, from, to)
    ensures Chunking(cues, text, block, r, from, to) && Marking(cues, text, block, r, from, to)
  {
    hide IsSpace, IsBreak, AllSpace, Reaches, Opens, AllSound, Ordered, Within, EndsLine, StateAt, LineLength,
         MarkerLine, CutAtMarkers, CoversFrom, NoMarkerIn, LineMachine;
    BreakBefore(cues.step, block, local);
    assert text[from - 1] == block.text[local - 1];
    r := AddChunk(cues, text, block, chunks, chunkStart, from);
    NewChunk(cues, text, block, r, local, local', from, to, stripped.start);
    MarkMore(cues, text, chunks, r, block.start, chunkStart, from);
  }

  lemma ChunkingBounds(
    cues: Cues, text: string, block: Span, chunks: seq<Span>, chunkStart: nat, cursor: nat)
    requires Chunking(cues, text, block, chunks, chunkStart, cursor) && Sound(cues.step, text, block)
    ensures 0 <= block.start <= chunkStart <= cursor <= block.end <= |text| && block.end == block.start + |block.text|
  {
  }

  method TakeBlockLine(
    cues: Cues, text: string, block: Span, state: State, local: nat, chunkStart: nat, chunks: seq<Span>,
    ghost cursor: nat)
    returns (state': State, local': nat, chunkStart': nat, chunks': seq<Span>, ghost cursor': nat)
    requires LineMachine(cues.step) && Sound(cues.step, text, block)
    requires local < |block.text| && cursor == block.start + local
    requires StateAt(cues.step, block.text, 0, Free, local) == Some(state)
    requires Chunking(cues, text, block, chunks, chunkStart, cursor)
    requires Marking(cues, text, block, chunks, chunkStart, cursor)
    requires InStep(cues.step, text, block, cursor, state)
    ensures local < local' <= |block.text| && cursor' == block.start + local'
    ensures StateAt(cues.step, block.text, 0, Free, local') == Some(state')
    ensures Chunking(cues, text, block, chunks', chunkStart', cursor')
    ensures Marking(cues, text, block, chunks', chunkStart', cursor')
    ensures InStep(cues.step, text, block, cursor', state')
  {
    hide IsSpace, IsBreak, AllSpace, Chunking, Marking, InStep, Sound, Marker, StateAt, LineLength, MarkerLine,
      NoMarkerIn, LineMachine;
    ChunkingBounds(cues, text, block, chunks, chunkStart, cursor);
    var from: nat := block.start + local;
    local' := local + LineLength(block.text[local..]);
    var to: nat := block.start + local';
    cursor' := to;
    state', chunkStart', chunks' := cues.step(block.text[local..local'], state), chunkStart, chunks;
    ScanOn(cues.step, block.text, 0, Free, local);
    var stripped := TrimmedSpan(text, from, to);
    LineOfBlock(cues, text, block, state, local, local', from, to, state', stripped);
    if stripped.Some? && state == Free && state' == Free && Marker(cues, stripped.value.text) && from > chunkStart {
      chunks' := CutHere(cues, text, block, local, local', chunkStart, chunks, from, to, stripped.value);
      chunkStart' := from;
    } else {
      ChunkGoesOn(cues, text, block, chunks, chunkStart, from, to);
      MarkingGoesOn(cues, text, block, chunks, chunkStart, from, to);
    }
  }

  /** A line of a block, as the whole text has it: the same state after it, the same marker test, and no other
      marker line up to its end. */
  lemma LineOfBlock(
    cues: Cues, text: string, block: Span, state: State, local: nat, local': nat, from: nat, to: nat, state': State,
    stripped: Option<Span>)
    requires LineMachine(cues.step) && Sound(cues.step, text, block) && local < |block.text|
    requires local' == local + LineLength(block.text[local..]) && state' == cues.step(block.text[local..local'], state)
    requires from == block.start + local && to == block.start + local' && InStep(cues.step, text, block, from, state)
    requires stripped.None? <==> AllSpace(text[from..to])
    requires stripped.Some? ==>
               && Exact(text, stripped.value) && TrimsTo(text, from, to, stripped.value)
               && !IsSpace(text[stripped.value.start]) && !IsSpace(text[stripped.value.end - 1])
    ensures NoMarkerIn(cues, text, from, to) && InStep(cues.step, text, block, to, state')
    ensures block.start < from ==>
              (MarkerLine(cues, text, from) <==>
               stripped.Some? && state == Free && state' == Free && Marker(cues, stripped.value.text))
  {
    hide IsSpace, IsBreak, AllSpace, Reaches, EndsLine, Marker, StateAt, LineLength, Strip, MarkerLine;
    var end: nat := from + LineLength(text[from..]);
    LineMeetsBlock(cues.step, text, block, local, local', from, to, end);
    SubSlice(text, block.start, block.end, local, local', from, to);
    TailDropped(cues.step, text, from, to, end, state);
    forall c: nat | from < c < to ensures !MarkerLine(cues, text, c) {
      ReachedLineIsWhole(cues.step, text, from, state, c);
      NotALine(cues, text, c);
    }
    if to < block.end {
      LineOn(cues.step, text, from, state);
    }
    if block.start < from {
      MarkerTest(cues, text, from, to, end, state, state', stripped);
    }
  }

  lemma NotALine(cues: Cues, text: string, c: nat)
    requires StateAt(cues.step, text, 0, Free, c) != Some(Free)
    ensures !MarkerLine(cues, text, c)
  {
  }

  /** The end of a block cuts off nothing but whitespace from a line. */
  lemma LineMeetsBlock(
    step: Scanner, text: string, block: Span, local: nat, local': nat, from: nat, to: nat, end: nat)
    requires Sound(step, text, block) && local < |block.text|
    requires local' == local + LineLength(block.text[local..])
    requires from == block.start + local && to == block.start + local' && end == from + LineLength(text[from..])
    ensures from < to <= end <= |text| && AllSpace(text[to..end]) && (to < block.end ==> to == end)
  {
    hide IsSpace, IsBreak, AllSpace, Reaches, EndsLine, LineLength;
    var w: nat := block.end - from;
    SubSlice(text, block.start, block.end, local, |block.text|, from, block.end);
    SubSlice(text, from, |text|, 0, w, from, block.end);
    assert block.text[local..] == text[from..][..w];
    WindowLine(text[from..], w);
    if to < end {
      assert text[from..|text|] == text[from..];
      assert to == block.end;
      TailOfLineIsSpace(text, from, block.end, |text|);
      SubSlice(text, from, |text|, w, end - from, block.end, end);
    } else {
      NoSpace(text, to);
    }
  }

  lemma NoSpace(text: string, at: nat)
    requires at <= |text|
    ensures AllSpace(text[at..at])
  {
  }

  lemma TailDropped(step: Scanner, text: string, from: nat, to: nat, end: nat, state: State)
    requires IgnoresTail(step) && from <= to <= end <= |text| && AllSpace(text[to..end])
    ensures step(text[from..end], state) == step(text[from..to], state)
  {
    assert text[from..end] == text[from..to] + text[to..end];
  }

  lemma MarkerTest(
    cues: Cues, text: string, from: nat, to: nat, end: nat, state: State, state': State, stripped: Option<Span>)
    requires from < to <= end <= |text| && end == from + LineLength(text[from..]) && AllSpace(text[to..end])
    requires StateAt(cues.step, text, 0, Free, from) == Some(state) && cues.step(text[from..end], state) == state'
    requires stripped.None? <==> AllSpace(text[from..to])
    requires stripped.Some? ==>
               && Exact(text, stripped.value) && TrimsTo(text, from, to, stripped.value)
               && !IsSpace(text[stripped.value.start]) && !IsSpace(text[stripped.value.end - 1])
    ensures MarkerLine(cues, text, from) <==>
              stripped.Some? && state == Free && state' == Free && Marker(cues, stripped.value.text)
  {
    hide IsSpace, IsBreak, Marker, StateAt, LineLength, Strip;
    if stripped.Some? {
      var s := stripped.value;
      StripOfLine(text, from, to, end, s.start, s.end);
      NotInSpace(text, from, end, s.start);
    } else {
      SpaceConcat(text, from, to, end);
    }
  }

  /** Appending the stretch up to a marker line, or the rest of the block, keeps the cuts. */
  lemma MarkMore(cues: Cues, text: string, chunks: seq<Span>, r: seq<Span>, lo: nat, from: nat, to: nat)
    requires lo <= from <= to <= |text| && Trimmed(text, from, to, chunks, r)
    requires CoversFrom(text, chunks, lo, from) && CutAtMarkers(cues, text, chunks)
    requires Within(chunks, lo, from)
    requires chunks != [] ==> MarkerLine(cues, text, from)
    requires NoMarkerIn(cues, text, from, to)
    ensures CoversFrom(text, r, lo, to) && CutAtMarkers(cues, text, r)
  {
    hide MarkerLine, IsSpace;
    forall p: nat | lo <= p < to && !IsSpace(text[p]) ensures InSome(r, p) {
      CoversFromMore(text, chunks, r, lo, from, to, p);
    }
    if r != chunks {
      assert forall i :: 0 <= i < |chunks| ==> r[i] == chunks[i] by { assert r[..|chunks|] == chunks; }
    }
  }

  lemma CoversFromMore(text: string, spans: seq<Span>, r: seq<Span>, lo: nat, from: nat, to: nat, p: nat)
    requires lo <= from <= to <= |text| && Trimmed(text, from, to, spans, r)
    requires CoversFrom(text, spans, lo, from) && lo <= p < to && !IsSpace(text[p])
    ensures InSome(r, p)
  {
    if p < from {
      var i :| 0 <= i < |spans| && spans[i].start <= p < spans[i].end;
      assert r == spans || r[..|spans|][i] == spans[i];
    } else {
      NotInSpace(text, from, to, p);
      var s := r[|spans|];
      NotInSpace(text, from, s.start, p);
      NotInSpace(text, s.end, to, p);
    }
  }

  lemma MarkingGoesOn(
    cues: Cues, text: string, block: Span, chunks: seq<Span>, chunkStart: nat, from: nat, to: nat)
    requires Marking(cues, text, block, chunks, chunkStart, from) && from < to <= block.end
    requires NoMarkerIn(cues, text, from, to) && (chunkStart < from ==> !MarkerLine(cues, text, from))
    ensures Marking(cues, text, block, chunks, chunkStart, to)
  {
    hide MarkerLine, CutAtMarkers, CoversFrom;
  }

  lemma BreakBefore(step: Scanner, block: Span, local: nat)
    requires 0 < local < |block.text| && StateAt(step, block.text, 0, Free, local).Some?
    ensures IsBreak(block.text[local - 1])
  {
    LineStartsFollowBreaks(step, block.text, 0, Free, local);
  }

  lemma ChunkGoesOn(
    cues: Cues, text: string, block: Span, chunks: seq<Span>, chunkStart: nat, cursor: nat, next: nat)
    requires Chunking(cues, text, block, chunks, chunkStart, cursor) && Sound(cues.step, text, block)
    requires cursor < next <= block.end
    ensures Chunking(cues, text, block, chunks, chunkStart, next)
  {
    if chunkStart == cursor {
      assert Leads(text, cursor, cursor);
    } else {
      OpensLonger(text, chunkStart, cursor, next);
    }
  }

  /** A visible free line inside a block opens a chunk. */
  lemma NewChunk(
    cues: Cues, text: string, block: Span, chunks: seq<Span>, local: nat, local': nat, from: nat, to: nat, f: nat)
    requires LineMachine(cues.step) && Sound(cues.step, text, block)
    requires local < |block.text| && local' == local + LineLength(block.text[local..])
    requires from == block.start + local && to == block.start + local' && block.start < from
    requires StateAt(cues.step, block.text, 0, Free, local) == Some(Free)
    requires from <= f < to && AllSpace(text[from..f]) && !IsSpace(text[f])
    requires AllSound(cues.step, text, chunks) && Ordered(chunks) && Within(chunks, block.start, from)
    requires chunks != [] && chunks[0].start == block.start
    ensures Chunking(cues, text, block, chunks, from, to)
  {
    hide IsSpace, IsBreak, StateAt, LineLength, EndsLine, AllSound, Ordered, Within;
    PieceStates(cues.step, text, block.start, block.end, 0, Free, local);
    LineLeadInPiece(text, block, local, local', from, to, f);
    assert Opens(text, from, to);
  }

  lemma LineLeadInPiece(
    text: string, block: Span, local: nat, local': nat, from: nat, to: nat, f: nat)
    requires Exact(text, block) && local < |block.text| && local' == local + LineLength(block.text[local..])
    requires from == block.start + local && to == block.start + local'
    requires from <= f < to && AllSpace(text[from..f]) && !IsSpace(text[f])
    ensures Leads(text, from, f)
  {
    var g: nat := f - block.start;
    SubSlice(text, block.start, block.end, local, g, from, f);
    LeadsToVisible(block.text, local, g);
    forall i | from <= i < f ensures !IsBreak(text[i]) {
      assert block.text[i - block.start] == text[i];
    }
  }

  lemma AppendSound(step: Scanner, text: string, spans: seq<Span>, s: Span, lo: int, mid: int, hi: int)
    requires AllSound(step, text, spans) && Ordered(spans) && Within(spans, lo, mid)
    requires Sound(step, text, s) && lo <= mid <= s.start && s.end <= hi
    ensures AllSound(step, text, spans + [s]) && Ordered(spans + [s]) && Within(spans + [s], lo, hi)
  {
  }

  method AddChunk(cues: Cues, text: string, block: Span, chunks: seq<Span>, chunkStart: nat, to: nat)
    returns (r: seq<Span>)
    requires Sound(cues.step, text, block) && Chunking(cues, text, block, chunks, chunkStart, to)
    requires chunkStart < to && (to == block.end || IsBreak(text[to - 1]))
    ensures AllSound(cues.step, text, r) && Ordered(r) && Within(r, block.start, to)
    ensures r != [] && r[0].start == block.start && Trimmed(text, chunkStart, to, chunks, r)
  {
    hide IsSpace, IsBreak, AllSpace, Reaches, Opens, EndsLine;
    var span := TrimmedSpan(text, chunkStart, to);
    r := chunks;
    VisibleSomewhere(text, chunkStart, to);
    if span.Some? {
      ChunkIsSound(cues, text, block, chunkStart, to, span.value);
      AppendSound(cues.step, text, chunks, span.value, block.start, chunkStart, to);
      r := chunks + [span.value];
    }
  }

  lemma ChunkIsSound(cues: Cues, text: string, block: Span, chunkStart: nat, to: nat, s: Span)
    requires Sound(cues.step, text, block) && block.start <= chunkStart < to <= block.end
    requires Reaches(cues.step, text, chunkStart, Free) && Opens(text, chunkStart, to)
    requires to == block.end || IsBreak(text[to - 1])
    requires Exact(text, s) && chunkStart <= s.start && s.end <= to
    requires !IsSpace(text[s.start]) && !IsSpace(text[s.end - 1])
    requires AllSpace(text[chunkStart..s.start]) && AllSpace(text[s.end..to])
    ensures Sound(cues.step, text, s)
    ensures chunkStart == block.start ==> s.start == block.start
  {
    hide IsSpace, IsBreak, AllSpace, Reaches, Opens, Leads;
    if to == block.end && s.end < to {
      SpaceAt(text, s.end, to, to - 1);
    }
    TrimmedIsSound(cues.step, text, chunkStart, to, s);
    if chunkStart == block.start {
      FirstVisible(text, chunkStart, chunkStart, s.start);
    }
  }

  lemma VisibleSomewhere(text: string, from: nat, to: nat)
    requires from <= to <= |text| && Opens(text, from, to)
    ensures !AllSpace(text[from..to])
  {
    var f: nat :| f < to && Leads(text, from, f) && !IsSpace(text[f]);
    assert text[from..to][f - from] == text[f];
  }

  ghost function VisibleInside(text: string, blocks: seq<Span>): (r: nat -> bool) {
    (p: nat) => p < |text| && !IsSpace(text[p]) && InSome(blocks, p)
  }

  ghost predicate IsStart(blocks: seq<Span>, c: int) {
    exists i :: 0 <= i < |blocks| && blocks[i].start == c
  }

  /** Blocks are divided where marker lines start, besides where they start themselves. */
  ghost function ChunkCuts(cues: Cues, text: string, blocks: seq<Span>): (r: nat -> bool) {
    (c: nat) => MarkerLine(cues, text, c) || IsStart(blocks, c)
  }

  /** The chunks of some blocks: all that is visible in the blocks, cut at their starts and at the marker lines,
      and nowhere else. */
  ghost predicate AreChunks(cues: Cues, text: string, blocks: seq<Span>, chunks: seq<Span>) {
    && AllSound(cues.step, text, chunks)
    && DividedAt(text, VisibleInside(text, blocks), ChunkCuts(cues, text, blocks), chunks)
  }

  /** That leaves no choice. */
  lemma ChunksAreUnique(cues: Cues, text: string, blocks: seq<Span>, a: seq<Span>, b: seq<Span>)
    requires AreChunks(cues, text, blocks, a) && AreChunks(cues, text, blocks, b)
    ensures a == b
  {
    hide DividedAt, AllSound;
    DivisionIsUnique(text, VisibleInside(text, blocks), ChunkCuts(cues, text, blocks), a, b);
  }

  ghost predicate InsideOne(blocks: seq<Span>, s: Span) {
    exists j :: 0 <= j < |blocks| && blocks[j].start <= s.start && s.end <= blocks[j].end
  }

  /** The first `n` blocks have been split. */
  ghost predicate ChunkedUpTo(cues: Cues, text: string, blocks: seq<Span>, n: nat, chunks: seq<Span>) {
    && n <= |blocks| && AllSound(cues.step, text, chunks) && Ordered(chunks)
    && (if n == 0 then chunks == []
        else chunks != [] && chunks[0].start == blocks[0].start && Within(chunks, blocks[0].start, blocks[n - 1].end))
    && (forall j :: 0 <= j < n ==> CoversFrom(text, chunks, blocks[j].start, blocks[j].end))
    && (forall k :: 0 <= k < |chunks| ==>
          NoMarkerIn(cues, text, chunks[k].start, chunks[k].end) && InsideOne(blocks, chunks[k]))
    && (forall k :: 0 < k < |chunks| ==> ChunkCutBetween(cues, text, blocks, chunks[k - 1].end, chunks[k].start))
  }

  ghost predicate ChunkCutBetween(cues: Cues, text: string, blocks: seq<Span>, from: int, to: int) {
    MarkerBetween(cues, text, from, to) || (from <= to && IsStart(blocks, to))
  }

  lemma BlockSplit(
    cues: Cues, text: string, blocks: seq<Span>, n: nat, before: seq<Span>, chunks: seq<Span>, all: seq<Span>)
    requires ChunkedUpTo(cues, text, blocks, n, before) && n < |blocks| && ChunksOf(cues, text, blocks[n], chunks)
    requires AllSound(cues.step, text, blocks) && Ordered(blocks) && all == before + chunks
    ensures ChunkedUpTo(cues, text, blocks, n + 1, all)
  {
    hide Sound, MarkerLine, NoMarkerIn, MarkerBetween, IsSpace, CoversFrom, CutAtMarkers, InsideOne;
    BlocksAdvance(cues.step, text, blocks, n);
    assert Ordered(all);
    forall j | 0 <= j < n + 1 ensures CoversFrom(text, all, blocks[j].start, blocks[j].end) {
      CoversConcat(text, before, chunks, all, blocks[j].start, blocks[j].end, j < n);
    }
    BlockChunks(cues, text, blocks, n, chunks);
    forall k | 0 <= k < |all|
      ensures NoMarkerIn(cues, text, all[k].start, all[k].end) && InsideOne(blocks, all[k])
    {
      if k < |before| {
        assert all[k] == before[k];
      } else {
        assert all[k] == chunks[k - |before|];
      }
    }
    forall k | 0 < k < |all| ensures ChunkCutBetween(cues, text, blocks, all[k - 1].end, all[k].start) {
      if k < |before| {
        assert all[k] == before[k] && all[k - 1] == before[k - 1];
      } else if k == |before| {
        assert all[k] == chunks[0] && all[k - 1] == before[k - 1];
        assert IsStart(blocks, all[k].start);
      } else {
        assert all[k] == chunks[k - |before|] && all[k - 1] == chunks[k - 1 - |before|];
      }
    }
  }

  /** What the chunks of one block contribute. */
  lemma BlockChunks(cues: Cues, text: string, blocks: seq<Span>, n: nat, chunks: seq<Span>)
    requires n < |blocks| && ChunksOf(cues, text, blocks[n], chunks)
    ensures forall k :: 0 <= k < |chunks| ==>
              NoMarkerIn(cues, text, chunks[k].start, chunks[k].end) && InsideOne(blocks, chunks[k])
    ensures forall k :: 0 < k < |chunks| ==> MarkerBetween(cues, text, chunks[k - 1].end, chunks[k].start)
    ensures IsStart(blocks, chunks[0].start)
  {
    hide AllSound, CoversFrom, NoMarkerIn, MarkerBetween;
  }

  lemma BlocksAdvance(step: Scanner, text: string, blocks: seq<Span>, n: nat)
    requires AllSound(step, text, blocks) && Ordered(blocks) && n < |blocks|
    ensures blocks[0].start <= blocks[n].start < blocks[n].end
    ensures n > 0 ==> blocks[n - 1].end <= blocks[n].start
  {
    SpansAdvance(step, text, blocks, 0, n);
  }

  lemma CoversConcat(
    text: string, before: seq<Span>, chunks: seq<Span>, all: seq<Span>, lo: int, hi: int, early: bool)
    requires all == before + chunks && CoversFrom(text, if early then before else chunks, lo, hi)
    ensures CoversFrom(text, all, lo, hi)
  {
    forall p: nat | lo <= p < hi <= |text| && !IsSpace(text[p]) ensures InSome(all, p) {
      if early {
        var i :| 0 <= i < |before| && before[i].start <= p < before[i].end;
        assert all[i] == before[i];
      } else {
        var i :| 0 <= i < |chunks| && chunks[i].start <= p < chunks[i].end;
        assert all[|before| + i] == chunks[i];
      }
    }
  }

  lemma AllBlocksSplit(cues: Cues, text: string, blocks: seq<Span>, chunks: seq<Span>)
    requires ChunkedUpTo(cues, text, blocks, |blocks|, chunks)
    requires AllSound(cues.step, text, blocks) && Ordered(blocks)
    ensures AreChunks(cues, text, blocks, chunks)
  {
    hide Sound, MarkerLine, NoMarkerIn, MarkerBetween, IsSpace, Tight, Whole, CutBetween, InsideOne, IsStart;
    var covered, cut := VisibleInside(text, blocks), ChunkCuts(cues, text, blocks);
    forall k | 0 <= k < |chunks|
      ensures Tight(text, covered, chunks[k]) && Whole(chunks[k], cut) && chunks[k].start >= 0
    {
      ChunkIsTight(cues, text, blocks, chunks[k]);
    }
    forall p: nat | p < |text| && covered(p) ensures InSome(chunks, p) {
      CoveredByChunks(cues, text, blocks, chunks, p);
    }
    forall k | 0 < k < |chunks| ensures CutBetween(cut, chunks[k - 1].end, chunks[k].start) {
      ChunkCutIsCut(cues, text, blocks, chunks[k - 1].end, chunks[k].start);
    }
  }

  lemma CoveredByChunks(cues: Cues, text: string, blocks: seq<Span>, chunks: seq<Span>, p: nat)
    requires ChunkedUpTo(cues, text, blocks, |blocks|, chunks) && p < |text| && VisibleInside(text, blocks)(p)
    requires AllSound(cues.step, text, blocks)
    ensures InSome(chunks, p)
  {
    hide IsSpace, MarkerLine, NoMarkerIn, InsideOne, ChunkCutBetween, Reaches, EndsLine;
    var j :| 0 <= j < |blocks| && blocks[j].start <= p < blocks[j].end;
    assert Sound(cues.step, text, blocks[j]);
    assert CoversFrom(text, chunks, blocks[j].start, blocks[j].end);
  }

  lemma ChunkIsVisible(step: Scanner, text: string, blocks: seq<Span>, s: Span)
    requires Sound(step, text, s) && InsideOne(blocks, s)
    ensures Tight(text, VisibleInside(text, blocks), s) && s.start >= 0
  {
    hide IsSpace, Reaches, EndsLine;
    assert InSome(blocks, s.start) && InSome(blocks, s.end - 1);
  }

  lemma ChunkIsTight(cues: Cues, text: string, blocks: seq<Span>, s: Span)
    requires Sound(cues.step, text, s) && InsideOne(blocks, s) && NoMarkerIn(cues, text, s.start, s.end)
    requires AllSound(cues.step, text, blocks) && Ordered(blocks)
    ensures Tight(text, VisibleInside(text, blocks), s) && Whole(s, ChunkCuts(cues, text, blocks)) && s.start >= 0
  {
    hide IsSpace, MarkerLine, Reaches, EndsLine, Tight;
    ChunkIsVisible(cues.step, text, blocks, s);
    var j :| 0 <= j < |blocks| && blocks[j].start <= s.start && s.end <= blocks[j].end;
    forall i | 0 <= i < |blocks| ensures !(s.start < blocks[i].start < s.end) {
      NoOtherStart(cues.step, text, blocks, i, j);
    }
  }

  lemma NoOtherStart(step: Scanner, text: string, blocks: seq<Span>, i: nat, j: nat)
    requires AllSound(step, text, blocks) && Ordered(blocks) && i < |blocks| && j < |blocks|
    ensures blocks[i].start <= blocks[j].start || blocks[j].end <= blocks[i].start
  {
    hide IsSpace, Reaches, EndsLine;
    assert Sound(step, text, blocks[i]);
  }

  lemma ChunkCutIsCut(cues: Cues, text: string, blocks: seq<Span>, from: int, to: int)
    requires ChunkCutBetween(cues, text, blocks, from, to) && 0 <= to
    ensures CutBetween(ChunkCuts(cues, text, blocks), from, to)
  {
    hide MarkerLine, IsStart;
    var cut := ChunkCuts(cues, text, blocks);
    if MarkerBetween(cues, text, from, to) {
      var c: nat :| from <= c <= to && MarkerLine(cues, text, c);
      assert cut(c);
    } else {
      assert cut(to);
    }
  }

  method SplitBlocksAtStrongBoundaries(cues: Cues, text: string, blocks: seq<Span>) returns (results: seq<Span>)
    requires LineMachine(cues.step) && AllSound(cues.step, text, blocks) && Ordered(blocks)
    ensures AreChunks(cues, text, blocks, results)
    ensures AllSound(cues.step, text, results) && Ordered(results)
    ensures blocks == [] ==> results == []
    ensures blocks != [] ==>
              && results != [] && results[0].start == blocks[0].start
              && Within(results, blocks[0].start, blocks[|blocks| - 1].end)
  {
    hide Sound, NoMarkerIn, InsideOne, ChunkCutBetween, CoversFrom, ChunksOf, DividedAt;
    results := [];
    for i := 0 to |blocks|
      invariant ChunkedUpTo(cues, text, blocks, i, results)
    {
      var chunks := SplitBlock(cues, text, blocks[i]);
      BlockSplit(cues, text, blocks, i, results, chunks, results + chunks);
      results := results + chunks;
    }
    AllBlocksSplit(cues, text, blocks, results);
  }
}
