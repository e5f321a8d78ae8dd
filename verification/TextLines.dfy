// Lines, surrounding whitespace, and the line state machine of protected regions.

module TextLines {
  import opened Common

  /** The characters at which a text is cut into lines. */
  predicate IsBreak(c: char) {
    var n := c as int;
    10 <= n <= 13 || 28 <= n <= 30 || n == 0x85 || n == 0x2028 || n == 0x2029
  }

  predicate IsSpace(c: char) {
    var n := c as int;
    || 9 <= n <= 13 || 28 <= n <= 32 || n == 0x85 || n == 0xA0 || n == 0x1680 || 0x2000 <= n <= 0x200A
    || n == 0x2028 || n == 0x2029 || n == 0x202F || n == 0x205F || n == 0x3000
  }

  predicate AllSpace(s: string) {
    forall i :: 0 <= i < |s| ==> IsSpace(s[i])
  }

  lemma SubSlice(text: string, i: nat, j: nat, a: nat, b: nat, p: nat, q: nat)
    requires i <= j <= |text| && a <= b <= j - i && p == i + a && q == i + b
    ensures text[i..j][a..b] == text[p..q]
  {
    assert |text[i..j][a..b]| == |text[p..q]|;
    forall k | 0 <= k < b - a ensures text[i..j][a..b][k] == text[p..q][k] {
    }
  }

  lemma SpaceAt(text: string, from: nat, to: nat, i: nat)
    requires from <= i < to <= |text| && AllSpace(text[from..to])
    ensures IsSpace(text[i])
  {
    assert text[from..to][i - from] == text[i];
  }

  /** The length of the first line of `s`, terminator included; carriage return and line feed count as one
      terminator. */
  function LineLength(s: string): (n: nat)
    requires s != ""
    ensures 0 < n <= |s|
  {
    if IsBreak(s[0]) then (if s[0] == '\r' && |s| > 1 && s[1] == '\n' then 2 else 1)
    else if |s| == 1 then 1
    else 1 + LineLength(s[1..])
  }

  function LStrip(s: string): (r: string)
    ensures |r| <= |s| && r == s[|s| - |r|..] && AllSpace(s[..|s| - |r|])
    ensures r != "" ==> !IsSpace(r[0])
  {
    if s != "" && IsSpace(s[0]) then LStrip(s[1..]) else s
  }

  function RStrip(s: string): (r: string)
    ensures |r| <= |s| && r == s[..|r|] && AllSpace(s[|r|..])
    ensures r != "" ==> !IsSpace(r[|r| - 1])
  {
    if s != "" && IsSpace(s[|s| - 1]) then RStrip(s[..|s| - 1]) else s
  }

  function Strip(s: string): (r: string) {
    RStrip(LStrip(s))
  }

  lemma StripBlank(s: string)
    ensures Strip(s) == "" <==> AllSpace(s)
  {
    var l := LStrip(s);
    if l != "" {
      assert s[|s| - |l|] == l[0];
      var r := RStrip(l);
      assert |r| < |l| ==> l[|r|..][0] == l[|r|];
    } else {
      assert s[..|s| - |l|] == s;
    }
  }

  lemma {:induction false} StripIgnoresSpaceAfter(s: string, c: char)
    requires IsSpace(c)
    ensures Strip(s + [c]) == Strip(s)
  {
    if s == "" {
      assert s + [c] == [c] && [c][1..] == "";
    } else if IsSpace(s[0]) {
      assert (s + [c])[1..] == s[1..] + [c];
      StripIgnoresSpaceAfter(s[1..], c);
    } else {
      assert (s + [c])[..|s|] == s;
    }
  }

  lemma {:induction false} LStripOf(s: string, a: nat)
    requires a < |s| && AllSpace(s[..a]) && !IsSpace(s[a])
    ensures LStrip(s) == s[a..]
  {
    if a > 0 {
      assert s[..a][0] == s[0];
      assert s[1..][..a - 1] == s[..a][1..];
      LStripOf(s[1..], a - 1);
    }
  }

  lemma {:induction false} RStripOf(s: string, b: nat)
    requires 0 < b <= |s| && AllSpace(s[b..]) && !IsSpace(s[b - 1])
    ensures RStrip(s) == s[..b]
  {
    if b < |s| {
      var n := |s| - 1;
      assert s[b..][n - b] == s[n];
      assert s[..n][b..] == s[b..][..n - b];
      RStripOf(s[..n], b);
      assert s[..n][..b] == s[..b];
    } else {
      assert s[..b] == s;
    }
  }

  /** Stripping removes exactly the whitespace at both ends. */
  lemma StripOf(s: string, a: nat, b: nat)
    requires a < b <= |s| && AllSpace(s[..a]) && AllSpace(s[b..]) && !IsSpace(s[a]) && !IsSpace(s[b - 1])
    ensures Strip(s) == s[a..b]
  {
    hide IsSpace, LStrip, RStrip;
    LStripOf(s, a);
    assert s[a..][b - a..] == s[b..];
    RStripOf(s[a..], b - a);
    assert s[a..][..b - a] == s[a..b];
  }

  /** The same, for a line of a text that a window may have cut short. */
  lemma StripOfLine(text: string, from: nat, to: nat, end: nat, a: nat, b: nat)
    requires from <= a < b <= to <= end <= |text| && !IsSpace(text[a]) && !IsSpace(text[b - 1])
    requires AllSpace(text[from..a]) && AllSpace(text[b..to]) && AllSpace(text[to..end])
    ensures Strip(text[from..end]) == text[a..b]
  {
    hide *;
    var line := text[from..end];
    var i: nat, j: nat, n: nat := a - from, b - from, end - from;
    SubSlice(text, from, end, 0, i, from, a);
    SubSlice(text, from, end, j, n, b, end);
    SubSlice(text, from, end, i, j, a, b);
    SpaceConcat(text, b, to, end);
    assert line[..i] == line[0..i] && line[j..] == line[j..n];
    assert line[i] == text[a] && line[j - 1] == text[b - 1];
    StripOf(line, i, j);
  }

  lemma SpaceConcat(text: string, a: nat, b: nat, c: nat)
    requires a <= b <= c <= |text| && AllSpace(text[a..b]) && AllSpace(text[b..c])
    ensures AllSpace(text[a..c])
  {
    assert text[a..c] == text[a..b] + text[b..c];
  }

  // ---- scanning a text line by line ---------------------------------------------------------------

  datatype State = Free | FenceBacktick | FenceTilde | DollarMath | BracketMath | LatexEnv

  /** The state after a line, from the line and the state before it. */
  type Scanner = (string, State) -> State

  /** Whitespace before a line never matters. */
  ghost predicate IgnoresLead(step: Scanner) {
    forall lead, line, state :: AllSpace(lead) ==> step(lead + line, state) == step(line, state)
  }

  ghost predicate IgnoresTail(step: Scanner) {
    forall line, tail, state :: AllSpace(tail) ==> step(line + tail, state) == step(line, state)
  }

  /** The line state machine ignores whitespace around a line, and blank lines altogether. */
  ghost predicate LineMachine(step: Scanner) {
    && IgnoresLead(step) && IgnoresTail(step)
    && forall line, state :: AllSpace(line) ==> step(line, state) == state
  }

  /** The state before the line that starts at `at`, for a scan that reaches `from` in state `state`; None
      when no line starts there. The end of the text counts as a line start. */
  function StateAt(step: Scanner, text: string, from: nat, state: State, at: nat): (r: Option<State>)
    requires from <= |text|
    decreases |text| - from
  {
    if from == at then Some(state)
    else if from > at || from == |text| then None
    else
      var n := LineLength(text[from..]);
      StateAt(step, text, from + n, step(text[from..from + n], state), at)
  }

  lemma {:induction false} ScanOn(step: Scanner, text: string, from: nat, state: State, at: nat)
    requires from <= |text| && at < |text| && StateAt(step, text, from, state, at).Some?
    ensures var n := LineLength(text[at..]);
            StateAt(step, text, from, state, at + n)
            == Some(step(text[at..at + n], StateAt(step, text, from, state, at).value))
    decreases |text| - from
  {
    if from < at {
      var n := LineLength(text[from..]);
      ScanOn(step, text, from + n, step(text[from..from + n], state), at);
    }
  }

  /** No line starts strictly inside a line. */
  lemma {:induction false} NextLineStart(step: Scanner, text: string, from: nat, state: State, p: nat, q: nat)
    requires from <= |text| && p < q && p < |text|
    requires StateAt(step, text, from, state, p).Some? && StateAt(step, text, from, state, q).Some?
    ensures p + LineLength(text[p..]) <= q <= |text|
    decreases |text| - from
  {
    var n := LineLength(text[from..]);
    if from < p {
      NextLineStart(step, text, from + n, step(text[from..from + n], state), p, q);
    } else {
      StateAtBeyond(step, text, from + n, step(text[from..from + n], state), q);
    }
  }

  lemma {:induction false} StateAtBeyond(step: Scanner, text: string, from: nat, state: State, at: nat)
    requires from <= |text| && StateAt(step, text, from, state, at).Some?
    ensures from <= at <= |text|
    decreases |text| - from
  {
    if from < at {
      var n := LineLength(text[from..]);
      StateAtBeyond(step, text, from + n, step(text[from..from + n], state), at);
    }
  }

  // ---- line starts and the first visible character of a line ---------------------------------------

  /** Only whitespace of one line between `p` and `c`. */
  ghost predicate Leads(text: string, p: nat, c: nat) {
    && p <= c <= |text|
    && AllSpace(text[p..c])
    && forall i :: p <= i < c ==> !IsBreak(text[i])
  }

  /** `c` is the start of a line, or lies in its leading whitespace or right behind it, and the scan of the
      whole text reaches that line in this state. */
  ghost predicate Reaches(step: Scanner, text: string, c: nat, state: State) {
    exists p: nat :: Leads(text, p, c) && StateAt(step, text, 0, Free, p) == Some(state)
  }

  lemma {:induction false} LeadLengthens(text: string, p: nat, c: nat)
    requires Leads(text, p, c) && c < |text|
    ensures LineLength(text[p..]) == (c - p) + LineLength(text[c..])
    decreases c - p
  {
    if p < c {
      assert text[p..][1..] == text[p + 1..];
      assert text[p..][0] == text[p];
      LeadLengthens(text, p + 1, c);
    }
  }

  /** A line that ends inside a window is the same line without the window. */
  lemma {:induction false} WindowLine(s: string, window: nat)
    requires 0 < window <= |s|
    ensures LineLength(s[..window]) < window ==> LineLength(s) == LineLength(s[..window])
    ensures LineLength(s[..window]) <= LineLength(s)
  {
    var w := s[..window];
    if !IsBreak(w[0]) && |w| > 1 {
      assert s[1..][..window - 1] == w[1..];
      WindowLine(s[1..], window - 1);
    }
  }

  /** The states of a piece of text agree with the states of the whole, when the piece begins with the
      first visible character of a line that the whole reaches free. */
  lemma {:induction false} PieceStates(
    step: Scanner, text: string, start: nat, end: nat, local: nat, localState: State, at: nat)
    requires IgnoresLead(step) && start <= end <= |text| && local <= end - start
    requires Reaches(step, text, start + local, localState)
    requires at < end - start && StateAt(step, text[start..end], local, localState, at).Some?
    ensures Reaches(step, text, start + at, StateAt(step, text[start..end], local, localState, at).value)
    decreases end - start - local
  {
    hide IsSpace, IsBreak, AllSpace, LineLength, Reaches;
    var piece := text[start..end];
    if local < at {
      var n := LineLength(piece[local..]);
      StateAtBeyond(step, piece, local + n, step(piece[local..local + n], localState), at);
      PieceLine(step, text, start, end, local, localState);
      PieceStates(step, text, start, end, local + n, step(piece[local..local + n], localState), at);
    }
  }

  lemma PieceLine(step: Scanner, text: string, start: nat, end: nat, local: nat, localState: State)
    requires IgnoresLead(step) && start <= end <= |text| && local < end - start
    requires Reaches(step, text, start + local, localState)
    requires local + LineLength(text[start..end][local..]) < end - start
    ensures var piece := text[start..end];
            var n := LineLength(piece[local..]);
            Reaches(step, text, start + local + n, step(piece[local..local + n], localState))
  {
    hide *;
    var piece, c := text[start..end], start + local;
    var n := LineLength(piece[local..]);
    SubSlice(text, start, end, local, end - start, c, end);
    SubSlice(text, c, |text|, 0, end - c, c, end);
    assert piece[local..] == text[c..][..end - c];
    WindowLine(text[c..], end - c);
    SubSlice(text, start, end, local, local + n, c, c + n);
    LineOn(step, text, c, localState);
  }

  lemma LineOn(step: Scanner, text: string, c: nat, state: State)
    requires IgnoresLead(step) && c < |text| && Reaches(step, text, c, state)
    ensures var n := LineLength(text[c..]);
            && StateAt(step, text, 0, Free, c + n) == Some(step(text[c..c + n], state))
            && Reaches(step, text, c + n, step(text[c..c + n], state))
  {
    hide IsSpace, IsBreak, AllSpace, LineLength, StateAt;
    var p: nat :| Leads(text, p, c) && StateAt(step, text, 0, Free, p) == Some(state);
    var n := LineLength(text[c..]);
    LeadLengthens(text, p, c);
    ScanOn(step, text, 0, Free, p);
    LeadDropped(step, text, p, c, c + n, state);
    LineStartIsReached(step, text, c + n);
  }

  lemma LeadDropped(step: Scanner, text: string, p: nat, c: nat, e: nat, state: State)
    requires IgnoresLead(step) && p <= c <= e <= |text| && AllSpace(text[p..c])
    ensures step(text[p..e], state) == step(text[c..e], state)
  {
    assert text[p..c] + text[c..e] == text[p..e];
  }

  lemma LineStartIsReached(step: Scanner, text: string, p: nat)
    requires StateAt(step, text, 0, Free, p).Some? && p <= |text|
    ensures Reaches(step, text, p, StateAt(step, text, 0, Free, p).value)
  {
    assert Leads(text, p, p);
  }

  /** Inside a line, terminator characters only occur at its end. */
  lemma {:induction false} BreaksEndLines(s: string, i: nat, j: nat)
    requires s != "" && i <= j < LineLength(s) && IsBreak(s[i])
    ensures IsBreak(s[j])
  {
    if i > 0 && !IsBreak(s[0]) && |s| > 1 {
      BreaksEndLines(s[1..], i - 1, j - 1);
    }
  }

  /** A line start leads to the first visible character of its line. */
  lemma LeadsToVisible(text: string, c: nat, f: nat)
    requires c <= f < |text| && AllSpace(text[c..f]) && !IsSpace(text[f])
    requires f < c + LineLength(text[c..])
    ensures Leads(text, c, f)
  {
    forall i | c <= i < f ensures IsSpace(text[i]) && !IsBreak(text[i]) {
      assert text[c..f][i - c] == text[i];
      if IsBreak(text[i]) {
        assert text[c..][i - c] == text[i] && text[c..][f - c] == text[f];
        BreaksEndLines(text[c..], i - c, f - c);
      }
    }
  }

  /** Every line start but the first follows a terminator. */
  lemma {:induction false} LineStartsFollowBreaks(step: Scanner, text: string, from: nat, state: State, at: nat)
    requires from <= |text| && from < at < |text| && StateAt(step, text, from, state, at).Some?
    ensures IsBreak(text[at - 1])
    decreases |text| - from
  {
    var n := LineLength(text[from..]);
    var next := step(text[from..from + n], state);
    StateAtBeyond(step, text, from + n, next, at);
    if from + n == at {
      LineEndsWithBreak(text[from..]);
    } else {
      LineStartsFollowBreaks(step, text, from + n, next, at);
    }
  }

  lemma {:induction false} LineEndsWithBreak(s: string)
    requires s != "" && LineLength(s) < |s|
    ensures IsBreak(s[LineLength(s) - 1])
  {
    if !IsBreak(s[0]) && |s| > 1 {
      LineEndsWithBreak(s[1..]);
    }
  }

  /** No line starts strictly inside a line that the scan reaches. */
  lemma ReachedLineIsWhole(step: Scanner, text: string, from: nat, state: State, c: nat)
    requires from < |text| && Reaches(step, text, from, state) && from < c < from + LineLength(text[from..])
    ensures StateAt(step, text, 0, Free, c).None?
  {
    hide IsSpace, IsBreak, LineLength, StateAt;
    var p: nat :| Leads(text, p, from) && StateAt(step, text, 0, Free, p) == Some(state);
    LeadLengthens(text, p, from);
    if StateAt(step, text, 0, Free, c).Some? {
      NextLineStart(step, text, 0, Free, p, c);
    }
  }

  // ---- first substantive line ------------------------------------------------------------------------

  function FirstLine(s: string): (r: string) {
    if s == "" then ""
    else
      var n := LineLength(s);
      var stripped := Strip(s[..n]);
      if stripped != "" then stripped else FirstLine(s[n..])
  }

  /** What follows `e` on its line is whitespace. */
  ghost predicate EndsLine(text: string, e: nat) {
    exists q: nat :: e <= q <= |text| && AllSpace(text[e..q]) && (q == |text| || (q > e && IsBreak(text[q - 1])))
  }

  lemma {:induction false} LineLengthAtBreak(s: string, i: nat)
    requires i < |s| && IsBreak(s[i])
    ensures LineLength(s) <= i + 2
    ensures LineLength(s) == i + 2 ==> i + 1 < |s| && IsBreak(s[i + 1])
  {
    if !IsBreak(s[0]) {
      LineLengthAtBreak(s[1..], i - 1);
    }
  }

  lemma {:induction false} StripIgnoresTail(s: string, tail: string)
    requires AllSpace(tail) && s != "" && !IsSpace(s[0])
    ensures Strip(s + tail) == Strip(s)
  {
    if tail == "" {
      assert s + tail == s;
    } else {
      var c, init := tail[|tail| - 1], tail[..|tail| - 1];
      assert s + tail == (s + init) + [c];
      assert ((s + init) + [c])[..|s + init|] == s + init;
      StripIgnoresTail(s, init);
    }
  }

  /** Extending a line-aligned piece does not change its first substantive line. */
  lemma FirstLineExtends(text: string, a: nat, b: nat, b': nat)
    requires a < b <= b' <= |text| && !IsSpace(text[a]) && EndsLine(text, b)
    ensures FirstLine(text[a..b']) == FirstLine(text[a..b])
  {
    hide *;
    var s := text[a..b'];
    if LineLength(s) > b - a {
      TailOfLineIsSpace(text, a, b, b');
    }
    FirstLineGrows(s, b - a);
    assert s[..b - a] == text[a..b];
  }

  lemma FirstLineGrows(s: string, w: nat)
    requires 0 < w <= |s| && !IsSpace(s[0])
    requires LineLength(s) > w ==> AllSpace(s[w..LineLength(s)])
    ensures FirstLine(s) == FirstLine(s[..w])
  {
    hide *;
    FirstLineIsStrip(s);
    FirstLineIsStrip(s[..w]);
    var n, m := LineLength(s), LineLength(s[..w]);
    WindowLine(s, w);
    assert s[..w][..m] == s[..m];
    if m == w && n > w {
      assert s[..n] == s[..w] + s[w..n];
      StripIgnoresTail(s[..w], s[w..n]);
    }
  }

  lemma FirstLineIsStrip(s: string)
    requires s != "" && !IsSpace(s[0])
    ensures FirstLine(s) == Strip(s[..LineLength(s)])
  {
    var line := s[..LineLength(s)];
    StripBlank(line);
    assert !IsSpace(line[0]);
  }

  lemma TailOfLineIsSpace(text: string, a: nat, b: nat, b': nat)
    requires a < b <= b' <= |text| && EndsLine(text, b)
    requires LineLength(text[a..b']) > b - a
    ensures AllSpace(text[a..b'][b - a..LineLength(text[a..b'])])
  {
    hide IsBreak, LineLength;
    var s, n, w := text[a..b'], LineLength(text[a..b']), b - a;
    var q: nat :| b <= q <= |text| && AllSpace(text[b..q]) && (q == |text| || (q > b && IsBreak(text[q - 1])));
    forall i | w <= i < n ensures IsSpace(s[i]) {
      assert s[i] == text[a + i];
      if a + i < q {
        assert text[b..q][i - w] == text[a + i];
      } else {
        assert s[q - 1 - a] == text[q - 1];
        LineLengthAtBreak(s, q - 1 - a);
      }
    }
  }
}
