// Blocks: a text cut at its unprotected blank lines.

module StepBlocks {
  import opened Common
  import opened Spans
  import opened SpanCuts
  import opened TextLines
  import opened StepSpans

  /** Where the block scan stands: in which state, where the current block began, and where a run of
      unprotected blank lines began, if one is open. */
  ghost predicate Scanning(
    step: Scanner, text: string, state: State, blockStart: nat, cursor: nat, blankStart: Option<nat>)
  {
    && blockStart <= cursor <= |text|
    && StateAt(step, text, 0, Free, cursor) == Some(state)
    && StateAt(step, text, 0, Free, blockStart) == Some(Free)
    && (blankStart.Some? ==>
          && state == Free && blockStart <= blankStart.value < cursor
          && StateAt(step, text, 0, Free, blankStart.value).Some?
          && (blankStart.value == blockStart || Opens(text, blockStart, blankStart.value)))
    && (blankStart.None? ==>
          if cursor == blockStart then state == Free else Opens(text, blockStart, cursor))
  }

  lemma ScanBlank(
    step: Scanner, text: string, blockStart: nat, cursor: nat, next: nat, blankStart: Option<nat>,
    blankStart': Option<nat>)
    requires Scanning(step, text, Free, blockStart, cursor, blankStart) && cursor < |text|
    requires next == cursor + LineLength(text[cursor..]) && step(text[cursor..next], Free) == Free
    requires blankStart' == if blankStart.Some? then blankStart else Some(cursor)
    ensures Scanning(step, text, Free, blockStart, next, blankStart')
  {
    ScanOn(step, text, 0, Free, cursor);
  }

  lemma VisibleLine(step: Scanner, text: string, state: State, cursor: nat, n: nat)
    requires LineMachine(step) && cursor < |text| && n == LineLength(text[cursor..])
    requires !(state == Free && step(text[cursor..cursor + n], state) == Free && AllSpace(text[cursor..cursor + n]))
    ensures state == Free ==> Opens(text, cursor, cursor + n)
  {
    if state == Free {
      VisibleLineOpens(text, cursor, n);
    }
  }

  lemma OpensLonger(text: string, c: nat, limit: nat, longer: nat)
    requires Opens(text, c, limit) && limit <= longer <= |text|
    ensures Opens(text, c, longer)
  {
  }

  lemma ScanVisible(
    step: Scanner, text: string, state: State, state': State, blockStart: nat, blockStart': nat,
    cursor: nat, next: nat, blankStart: Option<nat>)
    requires LineMachine(step) && Scanning(step, text, state, blockStart, cursor, blankStart) && cursor < |text|
    requires next == cursor + LineLength(text[cursor..]) && state' == step(text[cursor..next], state)
    requires state == Free && state' == Free ==> !AllSpace(text[cursor..next])
    requires blockStart' == if blankStart.Some? then cursor else blockStart
    ensures Scanning(step, text, state', blockStart', next, None)
  {
    hide IsSpace, IsBreak;
    ScanOn(step, text, 0, Free, cursor);
    VisibleLine(step, text, state, cursor, next - cursor);
    if blankStart.None? && blockStart < cursor {
      OpensLonger(text, blockStart, cursor, next);
    }
  }

  /** A blank line that no protected region contains. */
  ghost predicate BlankLine(step: Scanner, text: string, c: nat) {
    c < |text| && StateAt(step, text, 0, Free, c) == Some(Free) && AllSpace(text[c..c + LineLength(text[c..])])
  }

  ghost predicate NoBlankIn(step: Scanner, text: string, from: int, to: int) {
    forall c: nat :: from <= c < to ==> !BlankLine(step, text, c)
  }

  ghost predicate BlankBetween(step: Scanner, text: string, from: int, to: int) {
    exists c: nat :: from <= c < to && BlankLine(step, text, c)
  }

  /** Every visible character before `hi` lies in a span. */
  ghost predicate Covers(text: string, spans: seq<Span>, hi: int) {
    forall p: nat :: p < hi <= |text| && !IsSpace(text[p]) ==> InSome(spans, p)
  }

  /** No blank line starts inside a span, and one lies between any two. */
  ghost predicate CutAtBlanks(step: Scanner, text: string, spans: seq<Span>) {
    && (forall i :: 0 <= i < |spans| ==> NoBlankIn(step, text, spans[i].start, spans[i].end))
    && (forall i :: 0 < i < |spans| ==> BlankBetween(step, text, spans[i - 1].end, spans[i].start))
  }

  ghost function VisibleIn(text: string): (r: nat -> bool) {
    (p: nat) => p < |text| && !IsSpace(text[p])
  }

  ghost function Blanks(step: Scanner, text: string): (r: nat -> bool) {
    (c: nat) => BlankLine(step, text, c)
  }

  /** The blocks of a text: all that is visible, cut at the unprotected blank lines and nowhere else. */
  ghost predicate AreBlocks(step: Scanner, text: string, spans: seq<Span>) {
    AllSound(step, text, spans) && DividedAt(text, VisibleIn(text), Blanks(step, text), spans)
  }

  /** That leaves no choice. */
  lemma BlocksAreUnique(step: Scanner, text: string, a: seq<Span>, b: seq<Span>)
    requires AreBlocks(step, text, a) && AreBlocks(step, text, b)
    ensures a == b
  {
    hide DividedAt, AllSound;
    DivisionIsUnique(text, VisibleIn(text), Blanks(step, text), a, b);
  }

  lemma SoundIsTight(step: Scanner, text: string, s: Span)
    requires Sound(step, text, s)
    ensures Tight(text, VisibleIn(text), s)
  {
    hide Reaches, EndsLine, IsSpace;
  }

  lemma NoBlankIsWhole(step: Scanner, text: string, s: Span)
    requires NoBlankIn(step, text, s.start, s.end)
    ensures Whole(s, Blanks(step, text))
  {
    hide BlankLine;
  }

  lemma BlankIsCut(step: Scanner, text: string, from: int, to: int)
    requires BlankBetween(step, text, from, to)
    ensures CutBetween(Blanks(step, text), from, to)
  {
    hide BlankLine;
    var c: nat :| from <= c < to && BlankLine(step, text, c);
    assert Blanks(step, text)(c);
  }

  lemma CutsMakeBlocks(step: Scanner, text: string, spans: seq<Span>)
    requires AllSound(step, text, spans) && Ordered(spans)
    requires Covers(text, spans, |text|) && CutAtBlanks(step, text, spans)
    ensures AreBlocks(step, text, spans)
  {
    hide BlankLine, IsSpace, Sound, Tight, Whole, CutBetween, NoBlankIn, BlankBetween;
    forall i | 0 <= i < |spans|
      ensures Tight(text, VisibleIn(text), spans[i]) && Whole(spans[i], Blanks(step, text))
    {
      SoundIsTight(step, text, spans[i]);
      NoBlankIsWhole(step, text, spans[i]);
    }
    forall i | 0 < i < |spans| ensures CutBetween(Blanks(step, text), spans[i - 1].end, spans[i].start) {
      BlankIsCut(step, text, spans[i - 1].end, spans[i].start);
    }
  }

  /** What the block scan has established about the text before `blockStart`, and about the block at hand. */
  ghost predicate Cutting(
    step: Scanner, text: string, spans: seq<Span>, blockStart: nat, cursor: nat, blankStart: Option<nat>)
  {
    && blockStart <= cursor <= |text|
    && Covers(text, spans, blockStart) && CutAtBlanks(step, text, spans)
    && (spans != [] ==> BlankBetween(step, text, spans[|spans| - 1].end, blockStart))
    && match blankStart
       case None => NoBlankIn(step, text, blockStart, cursor)
       case Some(b) =>
         && blockStart <= b < cursor && NoBlankIn(step, text, blockStart, b)
         && BlankLine(step, text, b) && AllSpace(text[b..cursor])
  }

  /** Blank lines separate blocks, except inside protected regions. */
  method SafeMarkdownBlocks(step: Scanner, text: string) returns (spans: seq<Span>)
    requires LineMachine(step)
    ensures AreBlocks(step, text, spans)
  {
    hide BlankLine, CutAtBlanks, Covers;
    spans := [];
    var state, blockStart: nat, cursor: nat := Free, 0, 0;
    var blankStart: Option<nat> := None;
    NothingCut(step, text);
    while cursor < |text|
      invariant Scanning(step, text, state, blockStart, cursor, blankStart)
      invariant Collected(step, text, spans, blockStart)
      invariant Cutting(step, text, spans, blockStart, cursor, blankStart)
      decreases |text| - cursor
    {
      state, blockStart, cursor, blankStart, spans :=
        TakeLine(step, text, state, blockStart, cursor, blankStart, spans);
    }
    var boundary := if blankStart.Some? then blankStart.value else |text|;
    ghost var before := spans;
    spans := AddBlock(step, text, spans, blockStart, boundary);
    CutMore(step, text, before, spans, blockStart, boundary, |text|);
    CutsMakeBlocks(step, text, spans);
  }

  lemma NothingCut(step: Scanner, text: string)
    ensures Cutting(step, text, [], 0, 0, None)
  {
  }

  ghost predicate Collected(step: Scanner, text: string, spans: seq<Span>, hi: int) {
    AllSound(step, text, spans) && Ordered(spans) && Within(spans, 0, hi)
  }

  method TakeLine(
    step: Scanner, text: string, state: State, blockStart: nat, cursor: nat, blankStart: Option<nat>,
    spans: seq<Span>)
    returns (state': State, blockStart': nat, cursor': nat, blankStart': Option<nat>, spans': seq<Span>)
    requires LineMachine(step) && Scanning(step, text, state, blockStart, cursor, blankStart) && cursor < |text|
    requires Collected(step, text, spans, blockStart)
    requires Cutting(step, text, spans, blockStart, cursor, blankStart)
    ensures Scanning(step, text, state', blockStart', cursor', blankStart') && cursor < cursor'
    ensures Collected(step, text, spans', blockStart')
    ensures Cutting(step, text, spans', blockStart', cursor', blankStart')
  {
    hide BlankLine, CutAtBlanks, Covers, NoBlankIn, BlankBetween, IsSpace, IsBreak;
    cursor' := cursor + LineLength(text[cursor..]);
    var line := text[cursor..cursor'];
    state', blockStart', blankStart', spans' := step(line, state), blockStart, blankStart, spans;
    StripBlank(line);
    if state == Free && state' == Free && Strip(line) == "" {
      if blankStart.None? {
        blankStart' := Some(cursor);
      }
      ScanBlank(step, text, blockStart, cursor, cursor', blankStart, blankStart');
      CutBlank(step, text, spans, blockStart, cursor, cursor', blankStart, blankStart');
    } else {
      spans', blockStart' := CloseBlock(step, text, spans, blockStart, cursor, blankStart);
      blankStart' := None;
      NoBlankHere(step, text, state, cursor, cursor', state');
      CutVisible(step, text, spans', blockStart', cursor, cursor');
      ScanVisible(step, text, state, state', blockStart, blockStart', cursor, cursor', blankStart);
    }
  }

  /** A visible line after blank ones closes the block before them. */
  method CloseBlock(
    step: Scanner, text: string, spans: seq<Span>, blockStart: nat, cursor: nat, blankStart: Option<nat>)
    returns (spans': seq<Span>, blockStart': nat)
    requires blankStart.Some? ==> Scanning(step, text, Free, blockStart, cursor, blankStart)
    requires Collected(step, text, spans, blockStart) && Cutting(step, text, spans, blockStart, cursor, blankStart)
    ensures blockStart' == if blankStart.Some? then cursor else blockStart
    ensures Collected(step, text, spans', blockStart') && Cutting(step, text, spans', blockStart', cursor, None)
  {
    hide BlankLine, CutAtBlanks, Covers, BlankBetween, IsSpace, IsBreak, AllSpace;
    spans', blockStart' := spans, blockStart;
    if blankStart.Some? {
      spans' := AddBlock(step, text, spans, blockStart, blankStart.value);
      WithinLonger(spans', blankStart.value, cursor);
      CutMore(step, text, spans, spans', blockStart, blankStart.value, cursor);
      BlankAfter(step, text, spans, spans', blockStart, blankStart.value, cursor);
      blockStart' := cursor;
    }
  }

  lemma WithinLonger(spans: seq<Span>, hi: int, longer: int)
    requires Within(spans, 0, hi) && hi <= longer
    ensures Within(spans, 0, longer)
  {
  }

  /** The trimmed stretch from `from` to `to` was appended, if anything is visible there. */
  ghost predicate Trimmed(text: string, from: nat, to: nat, spans: seq<Span>, r: seq<Span>)
    requires from <= to <= |text|
  {
    || (r == spans && AllSpace(text[from..to]))
    || (|r| == |spans| + 1 && r[..|spans|] == spans && TrimsTo(text, from, to, r[|spans|]))
  }

  ghost predicate TrimsTo(text: string, from: nat, to: nat, s: Span)
    requires from <= to <= |text|
  {
    from <= s.start <= s.end <= to && AllSpace(text[from..s.start]) && AllSpace(text[s.end..to])
  }

  /** Appending the stretch after a blank line keeps the cuts, and everything visible up to `hi` is covered. */
  lemma CutMore(step: Scanner, text: string, spans: seq<Span>, r: seq<Span>, from: nat, to: nat, hi: nat)
    requires from <= to <= hi <= |text| && Trimmed(text, from, to, spans, r) && AllSpace(text[to..hi])
    requires Covers(text, spans, from) && CutAtBlanks(step, text, spans) && NoBlankIn(step, text, from, to)
    requires spans != [] ==> BlankBetween(step, text, spans[|spans| - 1].end, from)
    ensures Covers(text, r, hi) && CutAtBlanks(step, text, r)
  {
    hide BlankLine, IsSpace;
    forall p: nat | p < hi && !IsSpace(text[p]) ensures InSome(r, p) {
      CoversMore(text, spans, r, from, to, hi, p);
    }
    if r != spans {
      assert forall i :: 0 <= i < |spans| ==> r[i] == spans[i] by { assert r[..|spans|] == spans; }
    }
  }

  lemma CoversMore(text: string, spans: seq<Span>, r: seq<Span>, from: nat, to: nat, hi: nat, p: nat)
    requires from <= to <= hi <= |text| && Trimmed(text, from, to, spans, r) && AllSpace(text[to..hi])
    requires Covers(text, spans, from) && p < hi && !IsSpace(text[p])
    ensures InSome(r, p)
  {
    if p < from {
      var i :| 0 <= i < |spans| && spans[i].start <= p < spans[i].end;
      assert r == spans || r[..|spans|][i] == spans[i];
    } else {
      NotInSpace(text, to, hi, p);
      NotInSpace(text, from, to, p);
      var s := r[|spans|];
      NotInSpace(text, from, s.start, p);
      NotInSpace(text, s.end, to, p);
    }
  }

  lemma BlankAfter(step: Scanner, text: string, spans: seq<Span>, r: seq<Span>, from: nat, b: nat, cursor: nat)
    requires from <= b < cursor <= |text| && Trimmed(text, from, b, spans, r) && BlankLine(step, text, b)
    requires spans != [] ==> BlankBetween(step, text, spans[|spans| - 1].end, from)
    ensures r != [] ==> BlankBetween(step, text, r[|r| - 1].end, cursor)
  {
    hide BlankLine;
  }

  lemma BlankHere(step: Scanner, text: string, cursor: nat, next: nat)
    requires cursor < |text| && next == cursor + LineLength(text[cursor..])
    requires StateAt(step, text, 0, Free, cursor) == Some(Free) && AllSpace(text[cursor..next])
    ensures BlankLine(step, text, cursor)
  {
    hide AllSpace, StateAt, LineLength;
  }

  lemma CutBlank(
    step: Scanner, text: string, spans: seq<Span>, blockStart: nat, cursor: nat, next: nat, blankStart: Option<nat>,
    blankStart': Option<nat>)
    requires Cutting(step, text, spans, blockStart, cursor, blankStart) && cursor < |text|
    requires next == cursor + LineLength(text[cursor..]) && StateAt(step, text, 0, Free, cursor) == Some(Free)
    requires AllSpace(text[cursor..next])
    requires blankStart' == if blankStart.Some? then blankStart else Some(cursor)
    ensures Cutting(step, text, spans, blockStart, next, blankStart')
  {
    hide CutAtBlanks, Covers, BlankBetween, NoBlankIn, BlankLine, AllSpace, StateAt;
    assert BlankLine(step, text, cursor) by { BlankHere(step, text, cursor, next); }
    if blankStart.Some? {
      SpaceGrows(text, blankStart.value, cursor, next);
    }
  }

  /** No blank line starts in a line that is visible or protected. */
  lemma NoBlankHere(step: Scanner, text: string, state: State, cursor: nat, next: nat, state': State)
    requires LineMachine(step) && cursor < |text| && next == cursor + LineLength(text[cursor..])
    requires StateAt(step, text, 0, Free, cursor) == Some(state) && state' == step(text[cursor..next], state)
    requires !(state == Free && state' == Free && AllSpace(text[cursor..next]))
    ensures NoBlankIn(step, text, cursor, next)
  {
    hide IsSpace, IsBreak, LineLength;
    forall c: nat | cursor < c < next ensures StateAt(step, text, 0, Free, c).None? {
      InsideLine(step, text, cursor, c);
    }
  }

  lemma InsideLine(step: Scanner, text: string, cursor: nat, c: nat)
    requires cursor < |text| && StateAt(step, text, 0, Free, cursor).Some?
    requires cursor < c < cursor + LineLength(text[cursor..])
    ensures StateAt(step, text, 0, Free, c).None?
  {
    if StateAt(step, text, 0, Free, c).Some? {
      NextLineStart(step, text, 0, Free, cursor, c);
    }
  }

  lemma CutVisible(step: Scanner, text: string, spans: seq<Span>, blockStart: nat, cursor: nat, next: nat)
    requires Cutting(step, text, spans, blockStart, cursor, None) && cursor <= next <= |text|
    requires NoBlankIn(step, text, cursor, next)
    ensures Cutting(step, text, spans, blockStart, next, None)
  {
    hide CutAtBlanks, Covers, BlankLine;
  }

  /** Append the trimmed stretch between two line boundaries, if anything is left of it. */
  method AddBlock(step: Scanner, text: string, spans: seq<Span>, from: nat, to: nat) returns (r: seq<Span>)
    requires from <= to <= |text| && (from == to || Opens(text, from, to))
    requires StateAt(step, text, 0, Free, from) == Some(Free)
    requires to == |text| || StateAt(step, text, 0, Free, to).Some?
    requires AllSound(step, text, spans) && Ordered(spans) && Within(spans, 0, from)
    ensures AllSound(step, text, r) && Ordered(r) && Within(r, 0, to)
    ensures Trimmed(text, from, to, spans, r)
  {
    hide IsSpace, IsBreak, AllSpace, LineLength, Opens, EndsLine, Sound;
    var span := TrimmedSpan(text, from, to);
    r := spans;
    if span.Some? {
      assert from < to;
      LineStartIsReached(step, text, from);
      if to < |text| {
        LineStartsFollowBreaks(step, text, 0, Free, to);
      }
      TrimmedIsSound(step, text, from, to, span.value);
      r := r + [span.value];
    }
  }
}
