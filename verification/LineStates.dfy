// The line state machine of fences, display formulas and LaTeX environments.

module LineStates {
  import opened TextLines

  /** The two environment patterns, tested anywhere in a line. */
  datatype EnvPatterns = EnvPatterns(begins: string -> bool, ends: string -> bool)

  /** Both patterns consist of visible characters, so whitespace around the line never matters and a blank
      line never matches. */
  ghost predicate Visible(env: EnvPatterns) {
    && (forall c, s :: IsSpace(c) ==> env.begins([c] + s) == env.begins(s) == env.begins(s + [c]))
    && (forall c, s :: IsSpace(c) ==> env.ends([c] + s) == env.ends(s) == env.ends(s + [c]))
    && !env.begins("") && !env.ends("")
  }

  /** Occurrences of $$ that no backslash precedes, counted from left to right without overlap. */
  function Dollars(s: string, escaped: bool): (r: nat) {
    if |s| < 2 then 0
    else if s[0] == '$' && s[1] == '$' && !escaped then 1 + Dollars(s[2..], false)
    else Dollars(s[1..], s[0] == '\\')
  }

  predicate HasPair(s: string, a: char, b: char) {
    |s| >= 2 && ((s[0] == a && s[1] == b) || HasPair(s[1..], a, b))
  }

  /** The first \[ is not followed by a \]. */
  predicate OpensBracket(s: string) {
    |s| >= 2 &&
    if s[0] == '\\' && s[1] == '[' then !HasPair(s[2..], '\\', ']') else OpensBracket(s[1..])
  }

  predicate StartsWith(s: string, prefix: string) {
    prefix <= s
  }

  /** What a transition looks at in one line. */
  datatype LineView = LineView(
    stripped: string, oddDollars: bool, opensBracket: bool, closesBracket: bool, beginsEnv: bool, endsEnv: bool)

  function View(env: EnvPatterns, line: string): (r: LineView) {
    LineView(Strip(line), Dollars(line, false) % 2 == 1, OpensBracket(line), HasPair(line, '\\', ']'),
             env.begins(line), env.ends(line))
  }

  function Transition(v: LineView, state: State): (r: State) {
    match state
    case FenceBacktick => if StartsWith(v.stripped, "```") then Free else state
    case FenceTilde => if StartsWith(v.stripped, "~~~") then Free else state
    case DollarMath => if v.oddDollars then Free else state
    case BracketMath => if v.closesBracket then Free else state
    case LatexEnv => if v.endsEnv then Free else state
    case Free =>
      if StartsWith(v.stripped, "```") then FenceBacktick
      else if StartsWith(v.stripped, "~~~") then FenceTilde
      else if v.oddDollars then DollarMath
      else if v.opensBracket then BracketMath
      else if v.beginsEnv && !v.endsEnv then LatexEnv
      else Free
  }

  function Step(env: EnvPatterns, line: string, state: State): (r: State) {
    Transition(View(env, line), state)
  }

  lemma SpaceChangesNoCount(c: char, rest: string)
    requires IsSpace(c)
    ensures Dollars([c] + rest, false) == Dollars(rest, false)
    ensures HasPair([c] + rest, '\\', ']') == HasPair(rest, '\\', ']')
    ensures OpensBracket([c] + rest) == OpensBracket(rest)
  {
    assert ([c] + rest)[1..] == rest;
    assert c != '$' && c != '\\';
  }

  lemma SpaceIsStripped(c: char, rest: string)
    requires IsSpace(c)
    ensures LStrip([c] + rest) == LStrip(rest) && Strip([c] + rest) == Strip(rest)
  {
    assert ([c] + rest)[1..] == rest;
  }

  lemma ViewIgnoresSpace(env: EnvPatterns, c: char, rest: string)
    requires Visible(env) && IsSpace(c)
    ensures View(env, [c] + rest) == View(env, rest)
  {
    SpaceChangesNoCount(c, rest);
    SpaceIsStripped(c, rest);
  }

  lemma {:induction false} StepIgnoresLead(env: EnvPatterns, lead: string, line: string, state: State)
    requires Visible(env) && AllSpace(lead)
    ensures Step(env, lead + line, state) == Step(env, line, state)
  {
    if lead == "" {
      assert lead + line == line;
    } else {
      assert lead + line == [lead[0]] + (lead[1..] + line);
      ViewIgnoresSpace(env, lead[0], lead[1..] + line);
      StepIgnoresLead(env, lead[1..], line, state);
    }
  }

  lemma {:induction false} PairIgnoresTail(s: string, a: char, b: char, c: char)
    requires IsSpace(c) && !IsSpace(a) && !IsSpace(b)
    ensures HasPair(s + [c], a, b) == HasPair(s, a, b)
  {
    if |s| >= 2 {
      assert (s + [c])[1..] == s[1..] + [c];
      PairIgnoresTail(s[1..], a, b, c);
    } else if |s| == 1 {
      assert (s + [c])[1..] == [c];
    }
  }

  lemma {:induction false} BracketIgnoresTail(s: string, c: char)
    requires IsSpace(c)
    ensures OpensBracket(s + [c]) == OpensBracket(s)
  {
    if |s| >= 2 {
      assert (s + [c])[1..] == s[1..] + [c] && (s + [c])[2..] == s[2..] + [c];
      PairIgnoresTail(s[2..], '\\', ']', c);
      BracketIgnoresTail(s[1..], c);
    } else if |s| == 1 {
      assert (s + [c])[1..] == [c];
    }
  }

  lemma {:induction false} DollarsIgnoreTail(s: string, escaped: bool, c: char)
    requires IsSpace(c)
    ensures Dollars(s + [c], escaped) == Dollars(s, escaped)
  {
    if |s| >= 2 {
      assert (s + [c])[1..] == s[1..] + [c] && (s + [c])[2..] == s[2..] + [c];
      DollarsIgnoreTail(s[2..], false, c);
      DollarsIgnoreTail(s[1..], s[0] == '\\', c);
    } else if |s| == 1 {
      assert (s + [c])[1..] == [c];
    }
  }

  lemma {:induction false} StepIgnoresTail(env: EnvPatterns, line: string, tail: string, state: State)
    requires Visible(env) && AllSpace(tail)
    ensures Step(env, line + tail, state) == Step(env, line, state)
  {
    hide Step, Visible;
    if tail == "" {
      assert line + tail == line;
    } else {
      var init, c := tail[..|tail| - 1], tail[|tail| - 1];
      var longer := line + init;
      assert line + tail == longer + [c];
      StepIgnoresTail(env, line, init, state);
      StepIgnoresSpace(env, longer, c, state);
    }
  }

  lemma StepIgnoresSpace(env: EnvPatterns, line: string, c: char, state: State)
    requires Visible(env) && IsSpace(c)
    ensures Step(env, line + [c], state) == Step(env, line, state)
  {
    PairIgnoresTail(line, '\\', ']', c);
    BracketIgnoresTail(line, c);
    DollarsIgnoreTail(line, false, c);
    StripIgnoresSpaceAfter(line, c);
  }

  function LineScanner(env: EnvPatterns): (r: Scanner) {
    (line, state) => Step(env, line, state)
  }

  /** The line states of a text do not depend on where in its leading whitespace a line is cut. */
  lemma ScannerIgnoresLead(env: EnvPatterns)
    requires Visible(env)
    ensures IgnoresLead(LineScanner(env))
  {
    var step := LineScanner(env);
    forall lead, line, state | AllSpace(lead)
      ensures step(lead + line, state) == step(line, state)
    {
      StepIgnoresLead(env, lead, line, state);
    }
  }

  lemma EmptyLineKeepsState(env: EnvPatterns, state: State)
    requires Visible(env)
    ensures Step(env, "", state) == state
  {
    assert Strip("") == "" && Dollars("", false) == 0;
    assert !StartsWith("", "```") && !StartsWith("", "~~~");
  }

  /** A blank line changes no state. */
  lemma BlankLineKeepsState(env: EnvPatterns, line: string, state: State)
    requires Visible(env) && AllSpace(line)
    ensures Step(env, line, state) == state
  {
    StepIgnoresLead(env, line, "", state);
    assert line + "" == line;
    EmptyLineKeepsState(env, state);
  }

  /** The line states are a machine that ignores whitespace around a line and blank lines altogether. */
  lemma ScannerIsLineMachine(env: EnvPatterns)
    requires Visible(env)
    ensures LineMachine(LineScanner(env))
  {
    ScannerIgnoresLead(env);
    var step := LineScanner(env);
    forall line, tail, state | AllSpace(tail) ensures step(line + tail, state) == step(line, state) {
      StepIgnoresTail(env, line, tail, state);
    }
    forall line, state | AllSpace(line) ensures step(line, state) == state {
      BlankLineKeepsState(env, line, state);
    }
  }

  // ---- which lines open and close a region --------------------------------------------------------------------------

  /** The positions of the $$ that count: no backslash before, and not overlapping the one before. */
  ghost predicate AreDollars(s: string, at: set<int>, from: nat) {
    forall i :: Counts(s, at, from, i)
  }

  ghost predicate Counts(s: string, at: set<int>, from: nat, i: int) {
    i in at <==> from <= i && DollarsAt(s, i) && (i == from || i - 1 !in at)
  }

  ghost predicate DollarsAt(s: string, i: int) {
    0 <= i && i + 1 < |s| && s[i] == '$' && s[i + 1] == '$' && (i > 0 ==> s[i - 1] != '\\')
  }

  lemma {:induction false} DollarsFrom(s: string, from: nat) returns (at: set<int>)
    requires from <= |s|
    ensures AreDollars(s, at, from) && |at| == Dollars(s[from..], from > 0 && s[from - 1] == '\\')
    decreases |s| - from
  {
    at := {};
    if |s| >= from + 2 {
      var next := if DollarsAt(s, from) then from + 2 else from + 1;
      var rest := DollarsFrom(s, next);
      assert s[from..][next - from..] == s[next..];
      assert Counts(s, rest, next, from) && Counts(s, rest, next, from + 1);
      at := if DollarsAt(s, from) then rest + {from} else rest;
      forall i ensures Counts(s, at, from, i) {
        assert Counts(s, rest, next, i) && Counts(s, rest, next, i - 1);
      }
    }
  }

  /** Their number, which positions alone determine. */
  lemma DollarsAreCounted(s: string, at: set<int>)
    requires AreDollars(s, at, 0)
    ensures Dollars(s, false) == |at|
  {
    var found := DollarsFrom(s, 0);
    assert s[0..] == s;
    forall i ensures i in at <==> i in found {
      assert Counts(s, at, 0, i) && Counts(s, found, 0, i);
      if i >= 0 {
        SameDollars(s, at, found, i);
      }
    }
    assert at == found;
  }

  lemma {:induction false} SameDollars(s: string, a: set<int>, b: set<int>, i: nat)
    requires AreDollars(s, a, 0) && AreDollars(s, b, 0)
    ensures i in a <==> i in b
  {
    assert Counts(s, a, 0, i) && Counts(s, b, 0, i);
    if i > 0 {
      SameDollars(s, a, b, i - 1);
    }
  }

  ghost predicate PairAt(s: string, i: int, a: char, b: char) {
    0 <= i && i + 1 < |s| && s[i] == a && s[i + 1] == b
  }

  lemma {:induction false} PairIsSomewhere(s: string, a: char, b: char)
    ensures HasPair(s, a, b) <==> exists i :: PairAt(s, i, a, b)
  {
    if |s| >= 2 {
      PairIsSomewhere(s[1..], a, b);
      forall i | PairAt(s[1..], i, a, b) ensures PairAt(s, i + 1, a, b) {
      }
      forall i | PairAt(s, i, a, b) && i > 0 ensures PairAt(s[1..], i - 1, a, b) {
      }
      assert s[0] == a && s[1] == b ==> PairAt(s, 0, a, b);
    }
  }

  /** A \[ with none before it and no \] after it. */
  ghost predicate LeavesOpen(s: string, i: int) {
    && PairAt(s, i, '\\', '[') && (forall j :: j < i ==> !PairAt(s, j, '\\', '['))
    && forall j :: i + 2 <= j ==> !PairAt(s, j, '\\', ']')
  }

  lemma {:induction false} BracketIsSomewhere(s: string)
    ensures OpensBracket(s) <==> exists i :: LeavesOpen(s, i)
  {
    if |s| >= 2 {
      if s[0] == '\\' && s[1] == '[' {
        PairIsSomewhere(s[2..], '\\', ']');
        FirstBracket(s);
      } else {
        BracketIsSomewhere(s[1..]);
        LaterBracket(s);
      }
    }
  }

  lemma FirstBracket(s: string)
    requires PairAt(s, 0, '\\', '[')
    ensures (exists i :: LeavesOpen(s, i)) <==> !exists j :: PairAt(s[2..], j, '\\', ']')
  {
    forall j | PairAt(s[2..], j, '\\', ']') ensures PairAt(s, j + 2, '\\', ']') {
    }
    forall j | 2 <= j && PairAt(s, j, '\\', ']') ensures PairAt(s[2..], j - 2, '\\', ']') {
    }
    assert forall i :: LeavesOpen(s, i) ==> i == 0;
    if !exists j :: PairAt(s[2..], j, '\\', ']') {
      assert LeavesOpen(s, 0);
    }
  }

  lemma LaterBracket(s: string)
    requires |s| >= 2 && !PairAt(s, 0, '\\', '[')
    ensures (exists i :: LeavesOpen(s, i)) <==> exists i :: LeavesOpen(s[1..], i)
  {
    forall i | LeavesOpen(s, i) ensures LeavesOpen(s[1..], i - 1) {
      PairsShift(s, '[');
      PairsShift(s, ']');
    }
    forall i | LeavesOpen(s[1..], i) ensures LeavesOpen(s, i + 1) {
      PairsShift(s, '[');
      PairsShift(s, ']');
    }
  }

  lemma PairsShift(s: string, b: char)
    requires |s| >= 1
    ensures forall j :: j >= 1 ==> (PairAt(s, j, '\\', b) <==> PairAt(s[1..], j - 1, '\\', b))
    ensures forall j :: PairAt(s[1..], j, '\\', b) ==> PairAt(s, j + 1, '\\', b)
  {
  }

  /** A line opens a region exactly if it starts with a fence, has an odd number of $$, leaves a \[ open, or begins an
      environment that it does not end; the first of these that holds decides which line closes it. */
  lemma OpensAndCloses(env: EnvPatterns, opening: string, line: string, odd: set<int>, odds: set<int>)
    requires AreDollars(opening, odd, 0) && AreDollars(line, odds, 0)
    ensures var state, bracket := Step(env, opening, Free), exists i :: LeavesOpen(opening, i);
            var closed, still := Step(env, line, state) == Free, Step(env, line, state) == state;
            && (closed || still || state == Free)
            && if "```" <= Strip(opening) then closed <==> "```" <= Strip(line)
               else if "~~~" <= Strip(opening) then closed <==> "~~~" <= Strip(line)
               else if |odd| % 2 == 1 then closed <==> |odds| % 2 == 1
               else if bracket then closed <==> exists i :: PairAt(line, i, '\\', ']')
               else if env.begins(opening) && !env.ends(opening) then closed <==> env.ends(line)
               else state == Free
    ensures Step(env, opening, Free) != Free <==>
              || "```" <= Strip(opening) || "~~~" <= Strip(opening) || |odd| % 2 == 1
              || (exists i :: LeavesOpen(opening, i)) || (env.begins(opening) && !env.ends(opening))
  {
    hide Dollars, OpensBracket, HasPair, LeavesOpen, PairAt, AreDollars, Strip;
    DollarsAreCounted(opening, odd);
    DollarsAreCounted(line, odds);
    BracketIsSomewhere(opening);
    PairIsSomewhere(line, '\\', ']');
  }
}
