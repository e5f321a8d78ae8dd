// Choosing, for every record, another problem's solution of the closest token length.

module CalOpd {
  import opened Common
  import opened Sets

  /** A record; `hasSolution` says that its solution is not blank. */
  datatype Record = Record(question: string, answer: string, hasSolution: bool)

  datatype ChoiceError = LengthsMismatch | NoCandidate(target: nat)

  function Distance(a: int, b: int): (r: nat) {
    if a >= b then a - b else b - a
  }

  /** A record whose solution may replace the one of `target`. */
  predicate Unrelated(records: seq<Record>, target: nat, i: nat)
    requires target < |records|
  {
    && i < |records| && i != target && records[i].hasSolution
    && records[i].question != records[target].question && records[i].answer != records[target].answer
  }

  /** Closest in length, the smallest index among equals: what a scan over all records would choose. */
  ghost predicate Closest(records: seq<Record>, lengths: seq<int>, target: nat, choice: nat)
    requires target < |records| == |lengths|
  {
    && Unrelated(records, target, choice)
    && forall i: nat :: Unrelated(records, target, i) ==>
         var d, e := Distance(lengths[choice], lengths[target]), Distance(lengths[i], lengths[target]);
         d < e || (d == e && choice <= i)
  }

  /** Buckets list, for every length, exactly the records with a solution of that length. */
  ghost predicate AreBuckets(buckets: map<int, seq<nat>>, records: seq<Record>, lengths: seq<int>, n: nat)
    requires n <= |records| == |lengths|
  {
    && (forall l, i :: l in buckets && i in buckets[l] ==> i < n && records[i].hasSolution && lengths[i] == l)
    && (forall i: nat :: i < n && records[i].hasSolution ==> lengths[i] in buckets && i in buckets[lengths[i]])
  }

  method MakeBuckets(records: seq<Record>, lengths: seq<int>) returns (buckets: map<int, seq<nat>>)
    requires |records| == |lengths|
    ensures AreBuckets(buckets, records, lengths, |records|)
    ensures buckets == map[] <==> forall i :: 0 <= i < |records| ==> !records[i].hasSolution
  {
    buckets := map[];
    for i := 0 to |records|
      invariant AreBuckets(buckets, records, lengths, i)
      invariant buckets == map[] <==> forall j :: 0 <= j < i ==> !records[j].hasSolution
    {
      if records[i].hasSolution {
        var l := lengths[i];
        var bucket := if l in buckets then buckets[l] else [];
        buckets := buckets[l := bucket + [i]];
      }
    }
  }

  ghost predicate Increasing(xs: seq<int>) {
    forall i, j :: 0 <= i < j < |xs| ==> xs[i] < xs[j]
  }

  method SortedKeys(keys: set<int>) returns (r: seq<int>)
    ensures Increasing(r) && forall l :: l in r <==> l in keys
  {
    r := [];
    var rest := keys;
    while rest != {}
      invariant rest <= keys && Increasing(r)
      invariant forall l :: l in r <==> l in keys && l !in rest
      invariant forall i, l :: 0 <= i < |r| && l in rest ==> r[i] < l
      decreases |rest|
    {
      var m := Pick(rest);
      var others := rest - {m};
      while others != {}
        invariant m in rest && others <= rest
        invariant forall l :: l in rest && l !in others ==> m <= l
        decreases |others|
      {
        var l := Pick(others);
        others := others - {l};
        if l < m {
          m := l;
        }
      }
      rest := rest - {m};
      r := r + [m];
    }
  }

  /** The leftmost place that keeps `lengths` sorted. */
  method BisectLeft(lengths: seq<int>, target: int) returns (at: nat)
    requires Increasing(lengths)
    ensures at <= |lengths|
    ensures forall i :: 0 <= i < at ==> lengths[i] < target
    ensures forall i :: at <= i < |lengths| ==> target <= lengths[i]
  {
    var lo, hi := 0, |lengths|;
    while lo < hi
      invariant 0 <= lo <= hi <= |lengths|
      invariant forall i :: 0 <= i < lo ==> lengths[i] < target
      invariant forall i :: hi <= i < |lengths| ==> target <= lengths[i]
    {
      var mid := (lo + hi) / 2;
      if lengths[mid] < target {
        lo := mid + 1;
      } else {
        hi := mid;
      }
    }
    at := lo;
  }

  /** The candidates of the given lengths. */
  method CandidatesOf(
    records: seq<Record>, lengths: seq<int>, buckets: map<int, seq<nat>>, target: nat, candidateLengths: seq<int>)
    returns (valid: seq<nat>)
    requires target < |records| == |lengths| && AreBuckets(buckets, records, lengths, |records|)
    requires forall l :: l in candidateLengths ==> l in buckets
    ensures forall i: nat :: i in valid <==> Unrelated(records, target, i) && lengths[i] in candidateLengths
  {
    valid := [];
    for k := 0 to |candidateLengths|
      invariant forall i: nat :: i in valid <==> Unrelated(records, target, i) && lengths[i] in candidateLengths[..k]
    {
      assert candidateLengths[k] in candidateLengths;
      var l := candidateLengths[k];
      var bucket := buckets[l];
      ghost var before := valid;
      for j := 0 to |bucket|
        invariant forall i: nat :: i in valid <==> i in before || (i in bucket[..j] && Unrelated(records, target, i))
      {
        assert bucket[j] in bucket && bucket[..j + 1] == bucket[..j] + [bucket[j]];
        if Unrelated(records, target, bucket[j]) {
          valid := valid + [bucket[j]];
        }
      }
      assert bucket[..|bucket|] == bucket;
      assert candidateLengths[..k + 1] == candidateLengths[..k] + [l];
      forall i: nat
        ensures i in valid <==> Unrelated(records, target, i) && lengths[i] in candidateLengths[..k + 1]
      {
        assert i in bucket && Unrelated(records, target, i) <==> Unrelated(records, target, i) && lengths[i] == l;
      }
    }
    assert candidateLengths[..|candidateLengths|] == candidateLengths;
  }

  method Smallest(valid: seq<nat>) returns (m: nat)
    requires valid != []
    ensures m in valid && forall i :: i in valid ==> m <= i
  {
    m := valid[0];
    for k := 1 to |valid|
      invariant m in valid && forall j :: 0 <= j < k ==> m <= valid[j]
    {
      if valid[k] < m {
        m := valid[k];
      }
    }
  }

  /** Between the two pointers nothing is left to choose. */
  ghost predicate Exhausted(
    records: seq<Record>, lengths: seq<int>, target: nat, available: seq<int>, left: int, right: int)
    requires target < |records| == |lengths| && -1 <= left < right <= |available|
  {
    forall i: nat, k :: Unrelated(records, target, i) && left < k < right ==> lengths[i] != available[k]
  }

  /** A length not yet passed is at least as far as the pointer on its side, and as far only at that pointer. */
  lemma NextIsNearest(
    records: seq<Record>, lengths: seq<int>, target: nat, available: seq<int>, insertion: nat, left: int, right: int, i: nat)
    requires target < |records| == |lengths| && Unrelated(records, target, i) && lengths[i] in available
    requires Increasing(available) && -1 <= left < insertion <= right <= |available|
    requires forall k :: 0 <= k < insertion ==> available[k] < lengths[target]
    requires forall k :: insertion <= k < |available| ==> lengths[target] <= available[k]
    requires Exhausted(records, lengths, target, available, left, right)
    ensures
      || (left >= 0 && (lengths[i] == available[left]
                        || Distance(lengths[i], lengths[target]) > lengths[target] - available[left]))
      || (right < |available| && (lengths[i] == available[right]
                                  || Distance(lengths[i], lengths[target]) > available[right] - lengths[target]))
  {
    var k :| 0 <= k < |available| && available[k] == lengths[i];
    assert k <= left || right <= k;
  }

  lemma LengthsAreAvailable(
    records: seq<Record>, lengths: seq<int>, buckets: map<int, seq<nat>>, available: seq<int>, target: nat)
    requires target < |records| == |lengths| && AreBuckets(buckets, records, lengths, |records|)
    requires forall l :: l in available <==> l in buckets
    ensures forall i: nat :: Unrelated(records, target, i) ==> lengths[i] in available
  {
  }

  /** The two pointers walk outwards from the target's length, the nearer of the two next lengths first. */
  method ClosestSolution(
    records: seq<Record>, lengths: seq<int>, buckets: map<int, seq<nat>>, available: seq<int>, target: nat)
    returns (selected: int)
    requires target < |records| == |lengths| && AreBuckets(buckets, records, lengths, |records|)
    requires Increasing(available) && forall l :: l in available <==> l in buckets
    ensures selected >= -1
    ensures selected == -1 <==> forall i: nat :: !Unrelated(records, target, i)
    ensures selected >= 0 ==> Closest(records, lengths, target, selected)
  {
    hide AreBuckets;
    LengthsAreAvailable(records, lengths, buckets, available, target);
    var targetLength := lengths[target];
    var insertion := BisectLeft(available, targetLength);
    var left, right := insertion - 1, insertion;
    while left >= 0 || right < |available|
      invariant -1 <= left < insertion <= right <= |available|
      invariant Exhausted(records, lengths, target, available, left, right)
      decreases left + |available| - right
    {
      var leftDistance := if left >= 0 then targetLength - available[left] else -1;
      var rightDistance := if right < |available| then available[right] - targetLength else -1;
      var nextDistance :=
        if left < 0 then rightDistance else if right == |available| || leftDistance < rightDistance then leftDistance
        else rightDistance;
      var candidateLengths := [];
      ghost var left0, right0 := left, right;
      if left >= 0 && leftDistance == nextDistance {
        candidateLengths := candidateLengths + [available[left]];
        left := left - 1;
      }
      if right < |available| && rightDistance == nextDistance {
        candidateLengths := candidateLengths + [available[right]];
        right := right + 1;
      }
      var valid := CandidatesOf(records, lengths, buckets, target, candidateLengths);
      if valid != [] {
        selected := Smallest(valid);
        forall i: nat | Unrelated(records, target, i)
          ensures Distance(lengths[i], targetLength) >= nextDistance
          ensures Distance(lengths[i], targetLength) == nextDistance ==> lengths[i] in candidateLengths
        {
          NextIsNearest(records, lengths, target, available, insertion, left0, right0, i);
        }
        return;
      }
      assert forall i: nat :: i !in valid;
    }
    selected := -1;
  }

  /** A record with a solution that no other record may replace. */
  ghost predicate Stuck(records: seq<Record>, target: nat)
    requires target < |records|
  {
    records[target].hasSolution && forall i: nat :: !Unrelated(records, target, i)
  }

  /** What is chosen for a record: nothing without a solution, else the closest unrelated one. */
  ghost predicate ChosenWell(records: seq<Record>, lengths: seq<int>, target: nat, choice: int)
    requires target < |records| == |lengths|
  {
    if records[target].hasSolution then choice >= 0 && Closest(records, lengths, target, choice) else choice == -1
  }

  method ChooseWrongSolutionIndices(records: seq<Record>, lengths: seq<int>)
    returns (r: Result<seq<int>, ChoiceError>)
    ensures |records| != |lengths| <==> r == Err(LengthsMismatch)
    ensures |records| == |lengths| ==> (r.Err? <==> exists t: nat :: t < |records| && Stuck(records, t))
    ensures r.Err? && r.error.NoCandidate? ==>
              && r.error.target < |records| && Stuck(records, r.error.target)
              && forall t: nat :: t < r.error.target ==> !Stuck(records, t)
    ensures r.Ok? ==>
              && |r.value| == |records| == |lengths|
              && forall t :: 0 <= t < |records| ==> ChosenWell(records, lengths, t, r.value[t])
  {
    hide Closest, AreBuckets;
    if |records| != |lengths| {
      return Err(LengthsMismatch);
    }
    if records == [] {
      return Ok([]);
    }
    var buckets := MakeBuckets(records, lengths);
    var available := SortedKeys(buckets.Keys);
    if |available| == 0 {
      assert forall l :: l !in buckets.Keys;
      return Ok(seq(|records|, _ => -1));
    }
    var chosen := [];
    for t := 0 to |records|
      invariant |chosen| == t
      invariant forall j: nat :: j < t ==> !Stuck(records, j) && ChosenWell(records, lengths, j, chosen[j])
    {
      if !records[t].hasSolution {
        chosen := chosen + [-1];
      } else {
        var selected := ClosestSolution(records, lengths, buckets, available, t);
        if selected < 0 {
          assert Stuck(records, t);
          return Err(NoCandidate(t));
        }
        assert exists i: nat :: Unrelated(records, t, i);
        chosen := chosen + [selected];
      }
    }
    r := Ok(chosen);
  }

  /** Length and index together leave one choice, so the walk and the scan over all records agree. */
  lemma ClosestIsUnique(records: seq<Record>, lengths: seq<int>, target: nat, a: nat, b: nat)
    requires target < |records| == |lengths|
    requires Closest(records, lengths, target, a) && Closest(records, lengths, target, b)
    ensures a == b
  {
    assert Unrelated(records, target, a) && Unrelated(records, target, b);
  }

  // ---- disguised answers ---------------------------------------------------------------------------------------

  predicate IsDigit(c: char) {
    '0' <= c <= '9'
  }

  /** All digits, without zero for the start of a run. */
  function Digits(first: bool): (r: string)
    ensures forall d :: d in r <==> IsDigit(d) && (first ==> d != '0')
  {
    var r := if first then "123456789" else "0123456789";
    forall d: char ensures d in r <==> IsDigit(d) && (first ==> d != '0') {
      DigitIsListed(r, first, d);
    }
    r
  }

  lemma DigitIsListed(r: string, first: bool, d: char)
    requires r == if first then "123456789" else "0123456789"
    ensures d in r <==> IsDigit(d) && (first ==> d != '0')
  {
    var n := d as int - '0' as int - if first then 1 else 0;
    assert 0 <= n < |r| ==> r[n] == d;
    assert forall k :: 0 <= k < |r| ==> r[k] as int == '0' as int + k + if first then 1 else 0;
  }

  ghost predicate NoRepeats(s: string) {
    forall a, b :: 0 <= a < b < |s| ==> s[a] != s[b]
  }

  lemma DigitsAreDistinct(first: bool)
    ensures NoRepeats(Digits(first))
  {
  }

  function Without(s: seq<char>, c: char): (r: seq<char>)
    ensures forall d :: d in r <==> d in s && d != c
  {
    if s == [] then [] else (if s[0] == c then [] else [s[0]]) + Without(s[1..], c)
  }

  /** Digits that may replace `c`: any other one, but no zero at the start of a run. */
  function Choices(c: char, first: bool): (r: seq<char>)
    ensures r != [] && forall d :: d in r <==> IsDigit(d) && d != c && (first ==> d != '0')
  {
    assert '1' in Digits(first) && '2' in Digits(first);
    assert '1' in Without(Digits(first), c) || '2' in Without(Digits(first), c);
    Without(Digits(first), c)
  }

  lemma {:induction false} WithoutKeepsDistinct(s: seq<char>, c: char)
    requires NoRepeats(s)
    ensures NoRepeats(Without(s, c))
  {
    if s != [] {
      var rest := Without(s[1..], c);
      WithoutKeepsDistinct(s[1..], c);
      assert s[0] !in rest;
      assert Without(s, c) == if s[0] == c then rest else [s[0]] + rest;
    }
  }

  /** No digit is listed twice, so each is as likely as any other. */
  lemma ChoicesAreDistinct(c: char, first: bool)
    ensures NoRepeats(Choices(c, first))
  {
    DigitsAreDistinct(first);
    WithoutKeepsDistinct(Digits(first), c);
  }

  /** The digit that the random choice `n` picks. */
  function Chosen(c: char, first: bool, n: nat): (d: char)
    ensures IsDigit(d) && d != c && (first ==> d != '0')
  {
    var choices := Choices(c, first);
    assert choices[n % |choices|] in choices;
    choices[n % |choices|]
  }

  lemma ChoiceFor(c: char, first: bool, d: char) returns (n: nat)
    requires IsDigit(d) && d != c && (first ==> d != '0')
    ensures Chosen(c, first, n) == d
  {
    var choices := Choices(c, first);
    assert d in choices;
    n :| n < |choices| && choices[n] == d;
    hide Choices, Digits, Without;
    Remainder(n, |choices|);
  }

  lemma Remainder(n: nat, m: nat)
    requires n < m
    ensures n % m == n
  {
  }

  predicate StartsRun(s: string, i: nat) {
    i < |s| && IsDigit(s[i]) && (i == 0 || !IsDigit(s[i - 1]))
  }

  /** What may stand in place of the character at `i`. */
  predicate MayReplace(correct: string, i: nat, c: char)
    requires i < |correct|
  {
    if IsDigit(correct[i]) then IsDigit(c) && c != correct[i] && (StartsRun(correct, i) ==> c != '0')
    else c == correct[i]
  }

  /** Same shape, every digit changed, no run of digits starts with zero. */
  ghost predicate Disguised(correct: string, wrong: string, n: nat) {
    && n == |wrong| <= |correct|
    && forall i :: 0 <= i < n ==> MayReplace(correct, i, wrong[i])
  }

  /** The digits up to `n` are those that were picked. */
  ghost predicate PickedBy(correct: string, pick: nat -> nat, wrong: string, n: nat) {
    && n <= |wrong| && n <= |correct|
    && forall i: nat :: i < n && IsDigit(correct[i]) ==> wrong[i] == Chosen(correct[i], StartsRun(correct, i), pick(i))
  }

  /** Every disguise comes out for some choices. */
  lemma {:induction false} EveryDisguiseComesOut(correct: string, wrong: string, n: nat) returns (pick: nat -> nat)
    requires Disguised(correct, wrong, |correct|) && n <= |correct|
    ensures PickedBy(correct, pick, wrong, n)
  {
    hide Chosen;
    if n == 0 {
      pick := i => 0;
    } else {
      var before := EveryDisguiseComesOut(correct, wrong, n - 1);
      var last: nat := 0;
      if IsDigit(correct[n - 1]) {
        assert MayReplace(correct, n - 1, wrong[n - 1]);
        last := ChoiceFor(correct[n - 1], StartsRun(correct, n - 1), wrong[n - 1]);
      }
      pick := (i: nat) => if i == n - 1 then last else before(i);
    }
  }

  /** `pick` is the random choice made for each position. */
  method MakeWrongAnswer(correct: string, pick: nat -> nat) returns (wrong: string)
    ensures wrong != correct
    ensures if exists i :: 0 <= i < |correct| && IsDigit(correct[i]) then Disguised(correct, wrong, |correct|)
            else wrong == "\\left(" + correct + "\\right)+1"
    ensures (exists i :: 0 <= i < |correct| && IsDigit(correct[i])) ==> PickedBy(correct, pick, wrong, |correct|)
  {
    hide Chosen, Choices;
    var output := "";
    var previousWasDigit, changedDigit := false, false;
    for i := 0 to |correct|
      invariant Disguised(correct, output, i) && PickedBy(correct, pick, output, i)
      invariant previousWasDigit == (i > 0 && IsDigit(correct[i - 1]))
      invariant changedDigit == exists j :: 0 <= j < i && IsDigit(correct[j])
    {
      var c := correct[i];
      if !IsDigit(c) {
        output := output + [c];
        previousWasDigit := false;
      } else {
        output := output + [Chosen(c, !previousWasDigit, pick(i))];
        previousWasDigit, changedDigit := true, true;
      }
    }
    if !changedDigit {
      wrong := "\\left(" + correct + "\\right)+1";
      assert |wrong| > |correct|;
    } else {
      wrong := output;
      var i :| 0 <= i < |correct| && IsDigit(correct[i]);
      assert MayReplace(correct, i, wrong[i]);
    }
  }
}
