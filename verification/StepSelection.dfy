// Selecting disjoint positive and negative response groups under one shared margin.

module StepSelection {
  import opened Common
  import opened Sets
  import opened Sorting

  datatype Outcome = Correct | Incorrect | Unlabelled

  /** A response; a strength is None when fewer than two steps move in its direction. */
  datatype Row = Row(recordIndex: int, outcome: Outcome, positive: Option<real>, negative: Option<real>)

  datatype Sign = Positive | Negative

  function Strength(row: Row, sign: Sign): (r: Option<real>) {
    match sign case Positive => row.positive case Negative => row.negative
  }

  predicate Qualifies(row: Row, sign: Sign, margin: real) {
    Strength(row, sign).Some? && Strength(row, sign).value >= margin
  }

  function Index(row: Row): (r: int) {
    row.recordIndex
  }

  ghost predicate Unique(rows: seq<Row>) {
    UniqueKeys(rows, Index)
  }

  // ---- strengths ------------------------------------------------------------------------------------------

  /** The magnitudes of the deltas that move in one direction, strongest first. */
  function Magnitudes(deltas: seq<real>, sign: Sign): (r: seq<real>) {
    var signed := if sign == Positive then deltas else seq(|deltas|, i requires 0 <= i < |deltas| => -deltas[i]);
    Sort(Filter(signed, (v: real) => v > 0.0), (a: real, b: real) => a >= b)
  }

  /** The second strongest magnitude, if there are two. */
  function SecondStepStrength(deltas: seq<real>, sign: Sign): (r: Option<real>) {
    var m := Magnitudes(deltas, sign);
    if |m| >= 2 then Some(m[1]) else None
  }

  function CountAtLeast(xs: seq<real>, margin: real): (r: nat) {
    if xs == [] then 0 else CountAtLeast(xs[..|xs| - 1], margin) + if xs[|xs| - 1] >= margin then 1 else 0
  }

  lemma {:induction false} CountOfMultiset(xs: seq<real>, ys: seq<real>, margin: real)
    requires multiset(xs) == multiset(ys)
    ensures CountAtLeast(xs, margin) == CountAtLeast(ys, margin)
    decreases |xs|
  {
    if xs == [] {
      assert |multiset(ys)| == 0;
    } else {
      var x, init := xs[|xs| - 1], xs[..|xs| - 1];
      assert xs == init + [x];
      assert x in multiset(xs);
      var rest := WithoutOne(ys, x, margin);
      assert multiset(init) == multiset(xs) - multiset{x};
      CountOfMultiset(init, rest, margin);
    }
  }

  lemma WithoutOne(ys: seq<real>, x: real, margin: real) returns (rest: seq<real>)
    requires x in multiset(ys)
    ensures multiset(rest) == multiset(ys) - multiset{x}
    ensures CountAtLeast(ys, margin) == CountAtLeast(rest, margin) + if x >= margin then 1 else 0
  {
    hide CountAtLeast;
    var i :| 0 <= i < |ys| && ys[i] == x;
    var before, after := ys[..i], ys[i + 1..];
    rest := before + after;
    assert ys == before + [x] + after;
    CountOfParts(before, x, after, margin);
  }

  lemma {:induction false} CountOfParts(a: seq<real>, x: real, b: seq<real>, margin: real)
    ensures CountAtLeast(a + [x] + b, margin) == CountAtLeast(a + b, margin) + if x >= margin then 1 else 0
  {
    if b == [] {
      assert a + [x] + b == a + [x] && a + b == a;
    } else {
      var n := |b| - 1;
      assert (a + [x] + b)[..|a + [x] + b| - 1] == a + [x] + b[..n];
      assert (a + b)[..|a + b| - 1] == a + b[..n];
      CountOfParts(a, x, b[..n], margin);
    }
  }

  lemma {:induction false} CountInOrder(m: seq<real>, margin: real)
    requires SortedBy(m, (a: real, b: real) => a >= b)
    ensures CountAtLeast(m, margin) >= 2 <==> |m| >= 2 && m[1] >= margin
    ensures CountAtLeast(m, margin) >= 1 <==> |m| >= 1 && m[0] >= margin
  {
    if |m| > 0 {
      CountInOrder(m[..|m| - 1], margin);
    }
  }

  lemma {:induction false} CountOfKept(xs: seq<real>, keep: real -> bool, margin: real)
    requires forall v :: v >= margin ==> keep(v)
    ensures CountAtLeast(Filter(xs, keep), margin) == CountAtLeast(xs, margin)
  {
    if xs != [] {
      var init, x := xs[..|xs| - 1], xs[|xs| - 1];
      CountOfKept(init, keep, margin);
      var f := Filter(init, keep);
      assert (f + [x])[..|f|] == f;
      assert f + [] == f;
    }
  }

  /** A response qualifies at a positive margin exactly when at least two of its steps reach the margin. */
  lemma QualifyingNeedsTwoSteps(deltas: seq<real>, margin: real)
    requires margin > 0.0
    ensures var strength := SecondStepStrength(deltas, Positive);
            strength.Some? && strength.value >= margin <==> CountAtLeast(deltas, margin) >= 2
    ensures var strength := SecondStepStrength(deltas, Negative);
            strength.Some? && strength.value >= margin <==>
              CountAtLeast(seq(|deltas|, i requires 0 <= i < |deltas| => -deltas[i]), margin) >= 2
  {
    OneSign(deltas, margin);
    OneSign(seq(|deltas|, i requires 0 <= i < |deltas| => -deltas[i]), margin);
  }

  lemma OneSign(xs: seq<real>, margin: real)
    requires margin > 0.0
    ensures var m := Sort(Filter(xs, (v: real) => v > 0.0), (a: real, b: real) => a >= b);
            |m| >= 2 && m[1] >= margin <==> CountAtLeast(xs, margin) >= 2
  {
    var ge := (a: real, b: real) => a >= b;
    var f := Filter(xs, (v: real) => v > 0.0);
    SortIsSorted(f, ge);
    SortKeepsElements(f, ge);
    CountInOrder(Sort(f, ge), margin);
    CountOfMultiset(Sort(f, ge), f, margin);
    CountOfKept(xs, (v: real) => v > 0.0, margin);
  }

  // ---- the quota conditions ------------------------------------------------------------------------------------

  function Ids(rows: seq<Row>, outcome: Outcome, sign: Sign, margin: real): (r: set<int>) {
    set row | row in rows && row.outcome == outcome && Qualifies(row, sign, margin) :: row.recordIndex
  }

  datatype Counts = Counts(positive: nat, negative: nat, union: nat, both: nat)

  function FeasibilityCounts(rows: seq<Row>, outcome: Outcome, margin: real): (r: Counts) {
    var p, n := Ids(rows, outcome, Positive, margin), Ids(rows, outcome, Negative, margin);
    Counts(|p|, |n|, |p + n|, |p * n|)
  }

  predicate Enough(c: Counts, k: nat) {
    c.positive >= k && c.negative >= k && c.union >= 2 * k
  }

  predicate Feasible(rows: seq<Row>, margin: real, k: nat) {
    Enough(FeasibilityCounts(rows, Correct, margin), k) && Enough(FeasibilityCounts(rows, Incorrect, margin), k)
  }

  /** Two disjoint groups of `k` that qualify with one sign each. */
  ghost predicate Assignable(p: set<int>, n: set<int>, k: nat) {
    exists a, b :: IsAssignment(a, b, p, n, k)
  }

  ghost predicate IsAssignment(a: set<int>, b: set<int>, p: set<int>, n: set<int>, k: nat) {
    a <= p && b <= n && a !! b && |a| == k && |b| == k
  }

  /** The three counts decide: they hold exactly when disjoint groups of size `k` exist. */
  lemma TwoSetHall(p: set<int>, n: set<int>, k: nat)
    ensures Enough(Counts(|p|, |n|, |p + n|, |p * n|), k) <==> Assignable(p, n, k)
  {
    if Enough(Counts(|p|, |n|, |p + n|, |p * n|), k) {
      EnoughIsAssignable(p, n, k);
    }
    if a, b :| IsAssignment(a, b, p, n, k) {
      SubsetIsSmaller(a, p);
      SubsetIsSmaller(b, n);
      SubsetIsSmaller(a + b, p + n);
    }
  }

  /** Take from what only `p` offers first, then from the overlap; the rest of `n` is enough. */
  lemma EnoughIsAssignable(p: set<int>, n: set<int>, k: nat)
    requires |p| >= k && |n| >= k && |p + n| >= 2 * k
    ensures Assignable(p, n, k)
  {
    var only := p - n;
    UnionSize(p, n);
    assert p == only + (p * n) && only !! (p * n);
    var a, b;
    if |only| >= k {
      a := SubsetOfSize(only, k);
      b := SubsetOfSize(n, k);
    } else {
      var more := SubsetOfSize(p * n, k - |only|);
      a := only + more;
      assert n == (n - more) + more && (n - more) !! more;
      b := SubsetOfSize(n - more, k);
    }
    assert IsAssignment(a, b, p, n, k);
  }

  /** Both outcomes can be served from their own rows. */
  ghost predicate AllAssignable(rows: seq<Row>, margin: real, k: nat) {
    && Assignable(Ids(rows, Correct, Positive, margin), Ids(rows, Correct, Negative, margin), k)
    && Assignable(Ids(rows, Incorrect, Positive, margin), Ids(rows, Incorrect, Negative, margin), k)
  }

  lemma FeasibleMeansAssignable(rows: seq<Row>, margin: real, k: nat)
    ensures Feasible(rows, margin, k) <==> AllAssignable(rows, margin, k)
  {
    TwoSetHall(Ids(rows, Correct, Positive, margin), Ids(rows, Correct, Negative, margin), k);
    TwoSetHall(Ids(rows, Incorrect, Positive, margin), Ids(rows, Incorrect, Negative, margin), k);
  }

  // ---- the largest margin -----------------------------------------------------------------------------------------

  datatype MarginError = BadQuota | NoMargin

  /** The positive strengths of all rows. */
  function Candidates(rows: seq<Row>): (r: set<real>) {
    (set row | row in rows && row.positive.Some? && row.positive.value > 0.0 :: row.positive.value)
    + (set row | row in rows && row.negative.Some? && row.negative.value > 0.0 :: row.negative.value)
  }

  method MaximumOf(s: set<real>) returns (m: real)
    requires s != {}
    ensures m in s && forall x :: x in s ==> x <= m
  {
    m := Pick(s);
    var rest := s - {m};
    while rest != {}
      invariant m in s && rest <= s
      invariant forall x :: x in s && x !in rest ==> x <= m
      decreases |rest|
    {
      var x := Pick(rest);
      rest := rest - {x};
      if x > m {
        m := x;
      }
    }
  }

  method SortedDescending(s: set<real>) returns (r: seq<real>)
    ensures forall x :: x in s <==> x in r
    ensures forall i, j :: 0 <= i < j < |r| ==> r[i] > r[j]
  {
    r := [];
    var rest := s;
    while rest != {}
      invariant rest <= s && forall x :: x in s && x !in rest <==> x in r
      invariant forall i, j :: 0 <= i < j < |r| ==> r[i] > r[j]
      invariant forall i, y :: 0 <= i < |r| && y in rest ==> r[i] > y
      decreases |rest|
    {
      var m := MaximumOf(rest);
      rest := rest - {m};
      r := r + [m];
    }
  }

  lemma LeastAbove(s: set<real>, bound: real) returns (c: real)
    requires exists x :: x in s && x >= bound
    ensures c in s && c >= bound && forall x :: x in s && x >= bound ==> c <= x
    decreases s
  {
    c :| c in s && c >= bound;
    if exists x :: x in s && x >= bound && x < c {
      var x :| x in s && x >= bound && x < c;
      var rest := s - {c};
      assert x in rest;
      var d := LeastAbove(rest, bound);
      forall y | y in s && y >= bound ensures d <= y {
        assert y in rest || y == c;
      }
      c := d;
    }
  }

  /** Any feasible margin, whether or not some row has it as a strength, is at most some feasible candidate. */
  lemma FeasibleCandidateAbove(rows: seq<Row>, margin: real, k: nat) returns (c: real)
    requires margin > 0.0 && k > 0 && Feasible(rows, margin, k)
    ensures c in Candidates(rows) && c >= margin && Feasible(rows, c, k)
  {
    var p := Ids(rows, Correct, Positive, margin);
    assert |p| > 0;
    var id := AnyOf(p);
    var row :| row in rows && row.outcome == Correct && Qualifies(row, Positive, margin) && row.recordIndex == id;
    assert row.positive.value in Candidates(rows);
    c := LeastAbove(Candidates(rows), margin);
    forall r | r in rows
      ensures Qualifies(r, Positive, margin) <==> Qualifies(r, Positive, c)
      ensures Qualifies(r, Negative, margin) <==> Qualifies(r, Negative, c)
    {
      assert r.positive.Some? && r.positive.value > 0.0 ==> r.positive.value in Candidates(rows);
      assert r.negative.Some? && r.negative.value > 0.0 ==> r.negative.value in Candidates(rows);
    }
    forall outcome, sign ensures Ids(rows, outcome, sign, margin) == Ids(rows, outcome, sign, c) {
    }
  }

  /** The largest of all positive reals at which all four quotas can be met; an error exactly when there is
      no such real. */
  method LargestFeasibleSymmetricMargin(rows: seq<Row>, perGroup: int)
    returns (r: Result<(real, Counts, Counts), MarginError>)
    ensures perGroup <= 0 <==> r == Err(BadQuota)
    ensures r.Ok? ==>
              && r.value.0 > 0.0 && AllAssignable(rows, r.value.0, perGroup)
              && (forall margin :: margin > r.value.0 ==> !AllAssignable(rows, margin, perGroup))
              && r.value.1 == FeasibilityCounts(rows, Correct, r.value.0)
              && r.value.2 == FeasibilityCounts(rows, Incorrect, r.value.0)
    ensures r == Err(NoMargin) ==> forall margin :: margin > 0.0 ==> !AllAssignable(rows, margin, perGroup)
  {
    if perGroup <= 0 {
      return Err(BadQuota);
    }
    var candidates := SortedDescending(Candidates(rows));
    for i := 0 to |candidates|
      invariant forall j :: 0 <= j < i ==> !Feasible(rows, candidates[j], perGroup)
    {
      var margin := candidates[i];
      assert margin in Candidates(rows);
      if Feasible(rows, margin, perGroup) {
        NothingAbove(rows, candidates, i, perGroup);
        FeasibleMeansAssignable(rows, margin, perGroup);
        return Ok((margin, FeasibilityCounts(rows, Correct, margin), FeasibilityCounts(rows, Incorrect, margin)));
      }
    }
    forall margin | margin > 0.0 ensures !AllAssignable(rows, margin, perGroup) {
      FeasibleMeansAssignable(rows, margin, perGroup);
      if Feasible(rows, margin, perGroup) {
        var c := FeasibleCandidateAbove(rows, margin, perGroup);
      }
    }
    return Err(NoMargin);
  }

  lemma NothingAbove(rows: seq<Row>, candidates: seq<real>, i: nat, k: nat)
    requires i < |candidates| && k > 0 && candidates[i] > 0.0
    requires forall x :: x in Candidates(rows) <==> x in candidates
    requires forall a, b :: 0 <= a < b < |candidates| ==> candidates[a] > candidates[b]
    requires forall j :: 0 <= j < i ==> !Feasible(rows, candidates[j], k)
    ensures forall margin :: margin > candidates[i] ==> !AllAssignable(rows, margin, k)
  {
    forall margin | margin > candidates[i] ensures !AllAssignable(rows, margin, k) {
      FeasibleMeansAssignable(rows, margin, k);
      if Feasible(rows, margin, k) {
        var c := FeasibleCandidateAbove(rows, margin, k);
      }
    }
  }

  // ---- selecting the groups ---------------------------------------------------------------------------------------

  function ScoreOf(row: Row, sign: Sign): (r: real) {
    if Strength(row, sign).Some? then Strength(row, sign).value else 0.0
  }

  /** Highest score first, ties by record index. */
  function ByScore(score: Row -> real): (r: (Row, Row) -> bool) {
    (a, b) => score(a) > score(b) || (score(a) == score(b) && a.recordIndex <= b.recordIndex)
  }

  function ByStrength(sign: Sign): (r: (Row, Row) -> bool) {
    ByScore(row => ScoreOf(row, sign))
  }

  function ByDifference(): (r: (Row, Row) -> bool) {
    ByScore(row => ScoreOf(row, Positive) - ScoreOf(row, Negative))
  }

  lemma ByScoreIsOrder(score: Row -> real)
    ensures TotalOrder(ByScore(score))
  {
  }

  function OnlyPositive(margin: real): (r: Row -> bool) {
    row => Qualifies(row, Positive, margin) && !Qualifies(row, Negative, margin)
  }

  function OnlyNegative(margin: real): (r: Row -> bool) {
    row => Qualifies(row, Negative, margin) && !Qualifies(row, Positive, margin)
  }

  function Overlap(margin: real): (r: Row -> bool) {
    row => Qualifies(row, Positive, margin) && Qualifies(row, Negative, margin)
  }

  function QualifiedIds(rows: seq<Row>, sign: Sign, margin: real): (r: set<int>) {
    set row | row in rows && Qualifies(row, sign, margin) :: row.recordIndex
  }

  /** The lists of rows with one sign or both have as many members as there are qualifying indices. */
  lemma {:induction false} ListCounts(rows: seq<Row>, margin: real)
    requires Unique(rows)
    ensures var p, n, b := Filter(rows, OnlyPositive(margin)), Filter(rows, OnlyNegative(margin)), Filter(rows, Overlap(margin));
            var ps, ns := QualifiedIds(rows, Positive, margin), QualifiedIds(rows, Negative, margin);
            |ps| == |p| + |b| && |ns| == |n| + |b| && |ps + ns| == |p| + |n| + |b|
  {
    hide Qualifies;
    if rows != [] {
      var n := |rows| - 1;
      ListCounts(rows[..n], margin);
      NewIndex(rows, n, margin);
      GrowsBy(rows, n, Positive, margin);
      GrowsBy(rows, n, Negative, margin);
      AddIndex(QualifiedIds(rows[..n], Positive, margin), QualifiedIds(rows[..n], Negative, margin), rows[n].recordIndex,
               Qualifies(rows[n], Positive, margin), Qualifies(rows[n], Negative, margin));
      CountsGrow(rows, n, margin);
    }
  }

  function One(b: bool): (r: nat) {
    if b then 1 else 0
  }

  function Added(ids: set<int>, id: int, really: bool): (r: set<int>) {
    if really then ids + {id} else ids
  }

  lemma AddIndex(ps: set<int>, ns: set<int>, id: int, p: bool, n: bool)
    requires id !in ps + ns
    ensures |Added(ps, id, p)| == |ps| + One(p) && |Added(ns, id, n)| == |ns| + One(n)
    ensures |Added(ps, id, p) + Added(ns, id, n)| == |ps + ns| + One(p || n)
  {
    assert Added(ps, id, p) + Added(ns, id, n) == Added(ps + ns, id, p || n);
  }

  lemma CountsGrow(rows: seq<Row>, n: nat, margin: real)
    requires n + 1 == |rows|
    ensures var p, q := Qualifies(rows[n], Positive, margin), Qualifies(rows[n], Negative, margin);
            && |Filter(rows, OnlyPositive(margin))| == |Filter(rows[..n], OnlyPositive(margin))| + One(p && !q)
            && |Filter(rows, OnlyNegative(margin))| == |Filter(rows[..n], OnlyNegative(margin))| + One(q && !p)
            && |Filter(rows, Overlap(margin))| == |Filter(rows[..n], Overlap(margin))| + One(p && q)
  {
  }

  lemma NewIndex(rows: seq<Row>, n: nat, margin: real)
    requires Unique(rows) && n < |rows|
    ensures rows[n].recordIndex !in QualifiedIds(rows[..n], Positive, margin) + QualifiedIds(rows[..n], Negative, margin)
  {
    forall row | row in rows[..n] ensures row.recordIndex != rows[n].recordIndex {
      NewKey(rows, n, Index, row);
    }
  }

  lemma GrowsBy(rows: seq<Row>, n: nat, sign: Sign, margin: real)
    requires n + 1 == |rows|
    ensures QualifiedIds(rows, sign, margin)
         == Added(QualifiedIds(rows[..n], sign, margin), rows[n].recordIndex, Qualifies(rows[n], sign, margin))
  {
    assert rows == rows[..n] + [rows[n]];
  }

  datatype SelectError = CannotSatisfyQuotas | FailedToFill | Overlapping

  /** A group of `k` different rows that qualify, strongest first. */
  ghost predicate IsGroup(group: seq<Row>, rows: seq<Row>, sign: Sign, margin: real, k: nat) {
    && |group| == k && Unique(group) && SortedBy(group, ByStrength(sign))
    && forall row :: row in group ==> row in rows && Qualifies(row, sign, margin)
  }

  /** No row left out that only `sign` could use is stronger than a selected one. */
  ghost predicate Strongest(group: seq<Row>, pool: seq<Row>, sign: Sign) {
    forall row, g :: row in pool && row !in group && g in group ==> ByStrength(sign)(g, row)
  }

  function IndexSet(rows: seq<Row>): (r: set<int>) {
    set row | row in rows :: row.recordIndex
  }

  /** The `k` strongest of a list with unique indices. */
  lemma TopOfSorted(cands: seq<Row>, rows: seq<Row>, sign: Sign, margin: real, k: nat)
    requires Unique(cands) && k <= |cands|
    requires forall row :: row in cands ==> row in rows && Qualifies(row, sign, margin)
    ensures var group := Sort(cands, ByStrength(sign));
            && |group| == |cands|
            && IsGroup(group[..k], rows, sign, margin, k) && Strongest(group[..k], cands, sign)
            && forall row :: row in group[..k] ==> row in cands
  {
    var le := ByStrength(sign);
    var sorted := Sort(cands, le);
    ByScoreIsOrder(row => ScoreOf(row, sign));
    SortIsSorted(cands, le);
    SortMembers(cands, le);
    SortUnique(cands, Index, le);
    var group := sorted[..k];
    forall row, g | row in cands && row !in group && g in group ensures le(g, row) {
      assert row in sorted;
      var i :| 0 <= i < |sorted| && sorted[i] == row;
      assert forall a :: 0 <= a < k ==> group[a] == sorted[a] && sorted[a] in group;
      var j :| 0 <= j < |group| && group[j] == g;
      assert sorted[j] == g;
    }
    forall row | row in group ensures row in cands {
      assert row in sorted;
    }
  }

  /** What is left of the overlap after removing the reserved tail by index is everything before it. */
  lemma RemoveReserved(before: seq<Row>, reserved: seq<Row>, ids: set<int>)
    requires Unique(before + reserved) && ids == IndexSet(reserved)
    ensures Filter(before + reserved, (row: Row) => row.recordIndex !in ids) == before
  {
    var keep := (row: Row) => row.recordIndex !in ids;
    UniqueConcat(before, reserved, Index);
    FilterConcat(before, reserved, keep);
    forall row | row in before ensures keep(row) {
      var i :| 0 <= i < |before| && before[i] == row;
      assert forall j :: 0 <= j < |reserved| ==> Index(before[i]) != Index(reserved[j]);
    }
    FilterAll(before, keep);
    FilterNone(reserved, keep);
  }

  lemma {:induction false} FilterNone(rows: seq<Row>, keep: Row -> bool)
    requires forall row :: row in rows ==> !keep(row)
    ensures Filter(rows, keep) == []
  {
    if rows != [] {
      var init := rows[..|rows| - 1];
      assert rows == init + [rows[|rows| - 1]];
      FilterNone(init, keep);
    }
  }

  /** What the three lists of rows are, for the selection below. */
  ghost predicate Lists(rows: seq<Row>, margin: real, only: seq<Row>, other: seq<Row>, both: seq<Row>) {
    && Unique(only + both) && Unique(other + both) && Apart(only, other, Index)
    && (forall row :: row in only <==> row in rows && OnlyPositive(margin)(row))
    && (forall row :: row in other <==> row in rows && OnlyNegative(margin)(row))
    && (forall row :: row in both <==> row in rows && Overlap(margin)(row))
  }

  lemma SortedLists(
    rows: seq<Row>, margin: real, only: seq<Row>, other: seq<Row>, both: seq<Row>,
    lp: (Row, Row) -> bool, ln: (Row, Row) -> bool, lb: (Row, Row) -> bool)
    requires Unique(rows)
    requires only == Sort(Filter(rows, OnlyPositive(margin)), lp)
    requires other == Sort(Filter(rows, OnlyNegative(margin)), ln)
    requires both == Sort(Filter(rows, Overlap(margin)), lb)
    ensures Lists(rows, margin, only, other, both)
    ensures |only| == |Filter(rows, OnlyPositive(margin))| && |other| == |Filter(rows, OnlyNegative(margin))|
    ensures |both| == |Filter(rows, Overlap(margin))|
  {
    OneList(rows, OnlyPositive(margin), lp);
    OneList(rows, OnlyNegative(margin), ln);
    OneList(rows, Overlap(margin), lb);
    FiltersApart(rows, Index, OnlyPositive(margin), Overlap(margin));
    FiltersApart(rows, Index, OnlyNegative(margin), Overlap(margin));
    FiltersApart(rows, Index, OnlyPositive(margin), OnlyNegative(margin));
    var p, n, b := Filter(rows, OnlyPositive(margin)), Filter(rows, OnlyNegative(margin)), Filter(rows, Overlap(margin));
    SortMembers(p, lp);
    SortMembers(n, ln);
    SortMembers(b, lb);
    ApartMembers(p, b, only, both, Index);
    ApartMembers(n, b, other, both, Index);
    ApartMembers(p, n, only, other, Index);
    UniqueConcat(only, both, Index);
    UniqueConcat(other, both, Index);
  }

  lemma OneList(rows: seq<Row>, keep: Row -> bool, le: (Row, Row) -> bool)
    requires Unique(rows)
    ensures var list := Sort(Filter(rows, keep), le);
            && Unique(list) && |list| == |Filter(rows, keep)|
            && forall row :: row in list <==> row in rows && keep(row)
  {
    FilterUnique(rows, Index, keep);
    SortUnique(Filter(rows, keep), Index, le);
    SortMembers(Filter(rows, keep), le);
    FilterMembers(rows, keep);
  }

  /** The overlap rows open to the positive group are all but the reserved tail. */
  lemma PositiveCandidates(both: seq<Row>, p: nat, n: nat, reserved: seq<Row>)
    requires Unique(both) && p + n <= |both|
    requires reserved == if n > 0 then both[p..][|both[p..]| - n..] else []
    ensures both[..p] + Filter(both[p..], (row: Row) => row.recordIndex !in IndexSet(reserved)) == both[..|both| - n]
    ensures reserved == both[|both| - n..]
  {
    hide UniqueKeys, Filter;
    var middle := both[p..|both| - n];
    assert both[p..] == middle + reserved;
    assert both == both[..p] + (middle + reserved);
    UniqueConcat(both[..p], middle + reserved, Index);
    RemoveReserved(middle, reserved, IndexSet(reserved));
  }

  /** The positive group: the strongest of the rows open to it. */
  lemma PositiveGroup(
    rows: seq<Row>, margin: real, only: seq<Row>, other: seq<Row>, both: seq<Row>, front: seq<Row>, tail: seq<Row>,
    k: nat, positive: seq<Row>)
    requires Lists(rows, margin, only, other, both) && both == front + tail && k <= |only + front|
    requires positive == Take(Sort(only + front, ByStrength(Positive)), k)
    ensures IsGroup(positive, rows, Positive, margin, k)
    ensures Strongest(positive, Filter(rows, OnlyPositive(margin)), Positive)
    ensures forall row :: row in positive ==> row in only + front
  {
    assert only + both == (only + front) + tail;
    UniqueConcat(only + front, tail, Index);
    forall row | row in only + front ensures row in rows && Qualifies(row, Positive, margin) {
      assert row in only || row in both;
    }
    TopOfSorted(only + front, rows, Positive, margin, k);
    assert positive == Sort(only + front, ByStrength(Positive))[..k];
    FilterMembers(rows, OnlyPositive(margin));
  }

  /** Everything that qualifies negatively and is not taken yet is a candidate, and enough of it is left. */
  lemma NegativeCandidates(
    rows: seq<Row>, margin: real, only: seq<Row>, other: seq<Row>, both: seq<Row>, front: seq<Row>, tail: seq<Row>,
    positive: seq<Row>)
    requires Unique(rows) && Lists(rows, margin, only, other, both) && both == front + tail
    requires forall row :: row in positive ==> row in only + front
    ensures var cands := other + Filter(both, (row: Row) => row.recordIndex !in IndexSet(positive));
            && |cands| >= |other| + |tail| && Unique(cands)
            && forall row :: row in cands <==>
                 row in rows && Qualifies(row, Negative, margin) && row.recordIndex !in IndexSet(positive)
  {
    var keep := (row: Row) => row.recordIndex !in IndexSet(positive);
    TailIsFree(only, both, front, tail, positive);
    FilterConcat(front, tail, keep);
    FilterAll(tail, keep);
    UniqueConcat(other, both, Index);
    FilterUnique(both, Index, keep);
    FilterMembers(both, keep);
    ApartMembers(other, both, other, Filter(both, keep), Index);
    UniqueConcat(other, Filter(both, keep), Index);
    OtherIsFree(only, other, both, front, tail, positive);
  }

  lemma TailIsFree(only: seq<Row>, both: seq<Row>, front: seq<Row>, tail: seq<Row>, positive: seq<Row>)
    requires Unique(only + both) && both == front + tail
    requires forall row :: row in positive ==> row in only + front
    ensures forall row :: row in tail ==> row.recordIndex !in IndexSet(positive)
  {
    assert only + both == (only + front) + tail;
    UniqueConcat(only + front, tail, Index);
    ApartMembers(only + front, tail, positive, tail, Index);
    ApartIndices(positive, tail);
  }

  lemma OtherIsFree(
    only: seq<Row>, other: seq<Row>, both: seq<Row>, front: seq<Row>, tail: seq<Row>, positive: seq<Row>)
    requires Unique(other + both) && both == front + tail && Apart(only, other, Index)
    requires forall row :: row in positive ==> row in only + front
    ensures forall row :: row in other ==> row.recordIndex !in IndexSet(positive)
  {
    UniqueConcat(other, both, Index);
    assert Apart(only + both, other, Index) by {
      forall i, j | 0 <= i < |only + both| && 0 <= j < |other| ensures Index((only + both)[i]) != Index(other[j]) {
        assert i >= |only| ==> Index(other[j]) != Index(both[i - |only|]);
        assert i < |only| ==> Index(only[i]) != Index(other[j]);
      }
    }
    ApartMembers(only + both, other, positive, other, Index);
    ApartIndices(positive, other);
  }

  lemma ApartIndices(a: seq<Row>, b: seq<Row>)
    ensures Apart(a, b, Index) <==> forall row :: row in b ==> row.recordIndex !in IndexSet(a)
  {
    if Apart(a, b, Index) {
      forall row | row in b ensures row.recordIndex !in IndexSet(a) {
        var j :| 0 <= j < |b| && b[j] == row;
        forall other | other in a ensures other.recordIndex != row.recordIndex {
          var i :| 0 <= i < |a| && a[i] == other;
          assert Index(a[i]) != Index(b[j]);
        }
      }
    }
    if forall row :: row in b ==> row.recordIndex !in IndexSet(a) {
      forall i, j | 0 <= i < |a| && 0 <= j < |b| ensures Index(a[i]) != Index(b[j]) {
        assert a[i] in a && b[j] in b;
        assert a[i].recordIndex in IndexSet(a);
      }
    }
  }

  /** The negative group: the strongest of what is left. */
  lemma NegativeGroup(rows: seq<Row>, margin: real, positive: seq<Row>, cands: seq<Row>, k: nat, negative: seq<Row>)
    requires Unique(cands) && k <= |cands|
    requires forall row :: row in cands <==>
               row in rows && Qualifies(row, Negative, margin) && row.recordIndex !in IndexSet(positive)
    requires negative == Take(Sort(cands, ByStrength(Negative)), k)
    ensures IsGroup(negative, rows, Negative, margin, k) && Apart(positive, negative, Index)
    ensures Strongest(negative, Filter(rows, (row: Row) =>
              Qualifies(row, Negative, margin) && row.recordIndex !in IndexSet(positive)), Negative)
  {
    TopOfSorted(cands, rows, Negative, margin, k);
    assert negative == Sort(cands, ByStrength(Negative))[..k];
    ApartIndices(positive, negative);
    FilterMembers(rows, (row: Row) => Qualifies(row, Negative, margin) && row.recordIndex !in IndexSet(positive));
  }

  function Take(rows: seq<Row>, k: nat): (r: seq<Row>) {
    if k < |rows| then rows[..k] else rows
  }

  /** Nothing stronger was left for the positive group among what only it can use, nor for the negative group
      among all that the positive group left. */
  ghost predicate StrongestOf(rows: seq<Row>, margin: real, positive: seq<Row>, negative: seq<Row>) {
    && Strongest(positive, Filter(rows, OnlyPositive(margin)), Positive)
    && Strongest(negative, Filter(rows, (row: Row) =>
         Qualifies(row, Negative, margin) && row.recordIndex !in IndexSet(positive)), Negative)
  }

  // ---- which rows are selected -------------------------------------------------------------------------------------

  ghost function PositiveRows(rows: seq<Row>, margin: real): (r: set<Row>) {
    set row | row in rows && row.positive.Some? && row.positive.value >= margin
  }

  ghost function NegativeRows(rows: seq<Row>, margin: real): (r: set<Row>) {
    set row | row in rows && row.negative.Some? && row.negative.value >= margin
  }

  ghost function Lean(row: Row): (r: real) {
    if row.positive.Some? && row.negative.Some? then row.positive.value - row.negative.value else 0.0
  }

  ghost function PositiveStrength(row: Row): (r: real) {
    if row.positive.Some? then row.positive.value else 0.0
  }

  ghost function NegativeStrength(row: Row): (r: real) {
    if row.negative.Some? then row.negative.value else 0.0
  }

  /** Larger value first, then smaller index. */
  ghost predicate Ahead(value: Row -> real, a: Row, b: Row) {
    value(a) > value(b) || (value(a) == value(b) && a.recordIndex < b.recordIndex)
  }

  /** The rows with both signs that are kept for the negative group: as many as the rows with the negative sign alone
      leave missing, and those that lean least to the positive sign. */
  ghost predicate Withheld(rows: seq<Row>, margin: real, k: nat, kept: set<Row>) {
    var p, n := PositiveRows(rows, margin), NegativeRows(rows, margin);
    && kept <= p * n && |kept| == (if k > |n - p| then k - |n - p| else 0)
    && forall a, b :: a in p * n - kept && b in kept ==> Ahead(Lean, a, b)
  }

  /** The `k` rows of the pool that come first, in that order. */
  ghost predicate TopOf(value: Row -> real, pool: set<Row>, group: seq<Row>, k: nat) {
    && |group| == k && (forall i :: 0 <= i < k ==> group[i] in pool)
    && (forall i, j :: 0 <= i < j < k ==> Ahead(value, group[i], group[j]))
    && (forall i, row :: 0 <= i < k && row in pool && row !in group ==> Ahead(value, group[i], row))
  }

  ghost function RowSet(rows: seq<Row>): (r: set<Row>) {
    set row | row in rows
  }

  /** The positive group: the strongest of all that qualify positively and are not withheld; the negative group:
      the strongest of all that qualify negatively and are not in the positive group. */
  ghost predicate Selected(rows: seq<Row>, margin: real, k: nat, positive: seq<Row>, negative: seq<Row>) {
    exists kept ::
      && Withheld(rows, margin, k, kept)
      && TopOf(PositiveStrength, PositiveRows(rows, margin) - kept, positive, k)
      && TopOf(NegativeStrength, NegativeRows(rows, margin) - RowSet(positive), negative, k)
  }

  lemma {:induction false} TopIsUnique(value: Row -> real, pool: set<Row>, a: seq<Row>, b: seq<Row>, k: nat, n: nat)
    requires TopOf(value, pool, a, k) && TopOf(value, pool, b, k) && n <= k
    ensures a[..n] == b[..n]
  {
    if n > 0 {
      var i := n - 1;
      TopIsUnique(value, pool, a, b, k, i);
      AheadOfOther(value, pool, a, b, k, i);
      AheadOfOther(value, pool, b, a, k, i);
      NotBoth(value, a[i], b[i]);
      assert a[..n] == a[..i] + [a[i]] && b[..n] == b[..i] + [b[i]];
    }
  }

  lemma NotBoth(value: Row -> real, a: Row, b: Row)
    ensures !Ahead(value, a, b) || !Ahead(value, b, a)
  {
  }

  lemma AheadOfOther(value: Row -> real, pool: set<Row>, a: seq<Row>, b: seq<Row>, k: nat, i: nat)
    requires TopOf(value, pool, a, k) && TopOf(value, pool, b, k) && i < k && a[..i] == b[..i]
    ensures a[i] == b[i] || Ahead(value, a[i], b[i])
  {
    forall j | 0 <= j < i ensures a[j] != b[i] {
      assert a[..i][j] == b[..i][j];
      assert Ahead(value, b[j], b[i]);
      NotBoth(value, b[j], b[i]);
    }
    assert b[i] in a ==> exists j :: i <= j < k && a[j] == b[i];
  }

  lemma WithheldIsUnique(rows: seq<Row>, margin: real, k: nat, a: set<Row>, b: set<Row>)
    requires Withheld(rows, margin, k, a) && Withheld(rows, margin, k, b)
    ensures a == b
  {
    WithheldInOther(rows, margin, k, a, b);
    WithheldInOther(rows, margin, k, b, a);
  }

  lemma WithheldInOther(rows: seq<Row>, margin: real, k: nat, a: set<Row>, b: set<Row>)
    requires Withheld(rows, margin, k, a) && Withheld(rows, margin, k, b)
    ensures a <= b
  {
    forall x | x in a ensures x in b {
      if x !in b {
        var y := OneMore(a, b, x);
        NotBoth(Lean, x, y);
      }
    }
  }

  lemma OneMore(a: set<Row>, b: set<Row>, x: Row) returns (y: Row)
    requires |a| == |b| && x in a && x !in b
    ensures y in b && y !in a
  {
    if b <= a {
      ProperIsSmaller(b, a);
    }
    y :| y in b && y !in a;
  }

  lemma ProperIsSmaller(a: set<Row>, b: set<Row>)
    requires a < b
    ensures |a| < |b|
  {
    assert b == a + (b - a) && a !! (b - a) && b - a != {};
  }

  /** That leaves one possible selection. */
  lemma SelectionIsUnique(
    rows: seq<Row>, margin: real, k: nat, positive: seq<Row>, negative: seq<Row>, positive': seq<Row>, negative': seq<Row>)
    requires Selected(rows, margin, k, positive, negative) && Selected(rows, margin, k, positive', negative')
    ensures positive == positive' && negative == negative'
  {
    hide Withheld;
    var p, n := PositiveRows(rows, margin), NegativeRows(rows, margin);
    var kept :| Withheld(rows, margin, k, kept)
      && TopOf(PositiveStrength, p - kept, positive, k) && TopOf(NegativeStrength, n - RowSet(positive), negative, k);
    var kept' :| Withheld(rows, margin, k, kept')
      && TopOf(PositiveStrength, p - kept', positive', k) && TopOf(NegativeStrength, n - RowSet(positive'), negative', k);
    WithheldIsUnique(rows, margin, k, kept, kept');
    TopIsUnique(PositiveStrength, p - kept, positive, positive', k, k);
    assert positive[..k] == positive && positive'[..k] == positive';
    TopIsUnique(NegativeStrength, n - RowSet(positive), negative, negative', k, k);
    assert negative[..k] == negative && negative'[..k] == negative';
  }

  lemma {:induction false} RowSetSize(rows: seq<Row>)
    requires Unique(rows)
    ensures |RowSet(rows)| == |rows|
  {
    if rows != [] {
      var n := |rows| - 1;
      RowSetSize(rows[..n]);
      assert rows == rows[..n] + [rows[n]];
      assert RowSet(rows) == RowSet(rows[..n]) + {rows[n]};
      forall row | row in rows[..n] ensures row != rows[n] {
        NewKey(rows, n, Index, row);
      }
    }
  }

  lemma ListSets(rows: seq<Row>, margin: real, only: seq<Row>, other: seq<Row>, both: seq<Row>)
    requires Lists(rows, margin, only, other, both)
    ensures RowSet(only) == PositiveRows(rows, margin) - NegativeRows(rows, margin)
    ensures RowSet(other) == NegativeRows(rows, margin) - PositiveRows(rows, margin)
    ensures RowSet(both) == PositiveRows(rows, margin) * NegativeRows(rows, margin)
  {
  }

  /** Sorted by score, an earlier row of a list with unique indices is ahead of a later one. */
  lemma EarlierIsAhead(list: seq<Row>, score: Row -> real, value: Row -> real, i: nat, j: nat)
    requires Unique(list) && SortedBy(list, ByScore(score)) && i < j < |list|
    requires score(list[i]) == value(list[i]) && score(list[j]) == value(list[j])
    ensures Ahead(value, list[i], list[j])
  {
    assert ByScore(score)(list[i], list[j]) && Index(list[i]) != Index(list[j]);
  }

  lemma WithheldTail(
    rows: seq<Row>, margin: real, k: nat, only: seq<Row>, other: seq<Row>, both: seq<Row>, front: seq<Row>, tail: seq<Row>)
    requires Lists(rows, margin, only, other, both) && both == front + tail && SortedBy(both, ByDifference())
    requires |tail| == if k > |other| then k - |other| else 0
    ensures Withheld(rows, margin, k, RowSet(tail))
  {
    hide Lists, SortedBy, ByScore, Ahead;
    ListSets(rows, margin, only, other, both);
    TailSizes(rows, margin, only, other, both, front, tail);
    var all := PositiveRows(rows, margin) * NegativeRows(rows, margin);
    forall a, b | a in all - RowSet(tail) && b in RowSet(tail) ensures Ahead(Lean, a, b) {
      assert a in RowSet(both);
      var i :| 0 <= i < |front| && front[i] == a;
      var j :| 0 <= j < |tail| && tail[j] == b;
      assert both[i] == a && both[|front| + j] == b;
      EarlierIsAhead(both, row => ScoreOf(row, Positive) - ScoreOf(row, Negative), Lean, i, |front| + j);
    }
  }

  lemma TailSizes(
    rows: seq<Row>, margin: real, only: seq<Row>, other: seq<Row>, both: seq<Row>, front: seq<Row>, tail: seq<Row>)
    requires Lists(rows, margin, only, other, both) && both == front + tail
    ensures |RowSet(tail)| == |tail| && |RowSet(other)| == |other| && Unique(both)
    ensures RowSet(tail) <= RowSet(both)
  {
    UniqueConcat(other, both, Index);
    UniqueConcat(front, tail, Index);
    RowSetSize(tail);
    RowSetSize(other);
  }

  lemma TopIs(cands: seq<Row>, rows: seq<Row>, sign: Sign, margin: real, value: Row -> real, k: nat, group: seq<Row>)
    requires Unique(cands) && k <= |cands| && group == Take(Sort(cands, ByStrength(sign)), k)
    requires forall row :: row in cands ==> row in rows && Qualifies(row, sign, margin) && ScoreOf(row, sign) == value(row)
    ensures TopOf(value, RowSet(cands), group, k)
  {
    hide ByScore, Qualifies, Sort, Ahead;
    TopOfSorted(cands, rows, sign, margin, k);
    assert group == Sort(cands, ByStrength(sign))[..k];
    forall i | 0 <= i < k ensures group[i] in RowSet(cands) {
      assert group[i] in group;
    }
    forall i, j | 0 <= i < j < k ensures Ahead(value, group[i], group[j]) {
      assert group[i] in group && group[j] in group;
      EarlierIsAhead(group, row => ScoreOf(row, sign), value, i, j);
    }
    forall i, row | 0 <= i < k && row in RowSet(cands) && row !in group ensures Ahead(value, group[i], row) {
      assert group[i] in group;
      assert ByStrength(sign)(group[i], row);
      OtherIndex(cands, group[i], row);
      StrictlyAhead(sign, value, group[i], row);
    }
  }

  lemma OtherIndex(cands: seq<Row>, a: Row, b: Row)
    requires Unique(cands) && a in cands && b in cands && a != b
    ensures a.recordIndex != b.recordIndex
  {
    if a.recordIndex == b.recordIndex {
      SameKeySameElement(cands, Index, a, b);
    }
  }

  lemma StrictlyAhead(sign: Sign, value: Row -> real, a: Row, b: Row)
    requires ByStrength(sign)(a, b) && a.recordIndex != b.recordIndex
    requires ScoreOf(a, sign) == value(a) && ScoreOf(b, sign) == value(b)
    ensures Ahead(value, a, b)
  {
  }

  lemma PositiveIsTop(
    rows: seq<Row>, margin: real, k: nat, only: seq<Row>, other: seq<Row>, both: seq<Row>, front: seq<Row>, tail: seq<Row>,
    positive: seq<Row>)
    requires Lists(rows, margin, only, other, both) && both == front + tail && k <= |only + front|
    requires positive == Take(Sort(only + front, ByStrength(Positive)), k)
    ensures TopOf(PositiveStrength, PositiveRows(rows, margin) - RowSet(tail), positive, k)
  {
    hide TopOf, Sort, ByStrength;
    assert only + both == (only + front) + tail;
    UniqueConcat(only + front, tail, Index);
    FrontIs(rows, margin, only, other, both, front, tail);
    TopIs(only + front, rows, Positive, margin, PositiveStrength, k, positive);
  }

  lemma FrontIs(
    rows: seq<Row>, margin: real, only: seq<Row>, other: seq<Row>, both: seq<Row>, front: seq<Row>, tail: seq<Row>)
    requires Lists(rows, margin, only, other, both) && both == front + tail
    ensures RowSet(only + front) == PositiveRows(rows, margin) - RowSet(tail)
    ensures forall row :: row in only + front ==>
              row in rows && Qualifies(row, Positive, margin) && ScoreOf(row, Positive) == PositiveStrength(row)
  {
    hide Lists, UniqueKeys;
    ListSets(rows, margin, only, other, both);
    TailApart(rows, margin, only, other, both, front, tail);
    assert RowSet(both) == RowSet(front) + RowSet(tail);
    assert RowSet(only + front) == RowSet(only) + RowSet(front);
    assert forall row :: row in only + front ==> row in RowSet(only + front);
  }

  lemma TailApart(
    rows: seq<Row>, margin: real, only: seq<Row>, other: seq<Row>, both: seq<Row>, front: seq<Row>, tail: seq<Row>)
    requires Lists(rows, margin, only, other, both) && both == front + tail
    ensures RowSet(front) !! RowSet(tail) && RowSet(only) !! RowSet(tail)
  {
    UniqueConcat(only, both, Index);
    UniqueConcat(front, tail, Index);
    ApartIndices(front, tail);
    assert forall row :: row in RowSet(only) ==> row !in both;
  }

  lemma NegativeIsTop(rows: seq<Row>, margin: real, k: nat, positive: seq<Row>, cands: seq<Row>, negative: seq<Row>)
    requires Unique(rows) && Unique(cands) && k <= |cands| && (forall row :: row in positive ==> row in rows)
    requires forall row :: row in cands <==>
               row in rows && Qualifies(row, Negative, margin) && row.recordIndex !in IndexSet(positive)
    requires negative == Take(Sort(cands, ByStrength(Negative)), k)
    ensures TopOf(NegativeStrength, NegativeRows(rows, margin) - RowSet(positive), negative, k)
  {
    hide TopOf, Sort, ByStrength;
    forall row | row in rows ensures row.recordIndex !in IndexSet(positive) <==> row !in positive {
      if row.recordIndex in IndexSet(positive) {
        var other :| other in positive && other.recordIndex == row.recordIndex;
        SameKeySameElement(rows, Index, row, other);
      }
    }
    assert RowSet(cands) == NegativeRows(rows, margin) - RowSet(positive);
    TopIs(cands, rows, Negative, margin, NegativeStrength, k, negative);
  }

  /** Reserve from the overlap what each sign lacks, take the strongest for the positive group, and fill the
      negative group from all that is left. It fails exactly when no disjoint groups exist. */
  method SelectOneOutcome(rows: seq<Row>, margin: real, perGroup: nat)
    returns (r: Result<(seq<Row>, seq<Row>), SelectError>)
    requires Unique(rows)
    ensures r.Ok? <==> Assignable(QualifiedIds(rows, Positive, margin), QualifiedIds(rows, Negative, margin), perGroup)
    ensures r.Err? ==> r.error == CannotSatisfyQuotas
    ensures r.Ok? ==>
              var (positive, negative) := r.value;
              && IsGroup(positive, rows, Positive, margin, perGroup)
              && IsGroup(negative, rows, Negative, margin, perGroup)
              && Apart(positive, negative, Index) && StrongestOf(rows, margin, positive, negative)
              && Selected(rows, margin, perGroup, positive, negative)
  {
    hide TotalOrder, IsGroup, Strongest, Qualifies, ByScore, Sort, Filter, Lists, Assignable, Selected, SortedBy;
    var only := Sort(Filter(rows, OnlyPositive(margin)), ByStrength(Positive));
    var other := Sort(Filter(rows, OnlyNegative(margin)), ByStrength(Negative));
    var both := Sort(Filter(rows, Overlap(margin)), ByDifference());
    var positiveNeed: nat := if perGroup > |only| then perGroup - |only| else 0;
    var negativeNeed: nat := if perGroup > |other| then perGroup - |other| else 0;
    SortedLists(rows, margin, only, other, both, ByStrength(Positive), ByStrength(Negative), ByDifference());
    ByScoreIsOrder(row => ScoreOf(row, Positive) - ScoreOf(row, Negative));
    SortIsSorted(Filter(rows, Overlap(margin)), ByDifference());
    ListCounts(rows, margin);
    TwoSetHall(QualifiedIds(rows, Positive, margin), QualifiedIds(rows, Negative, margin), perGroup);
    if positiveNeed + negativeNeed > |both| {
      return Err(CannotSatisfyQuotas);
    }
    var positive, negative := Choose(rows, margin, perGroup, only, other, both, positiveNeed, negativeNeed);
    if |positive| != perGroup || |negative| != perGroup {
      return Err(FailedToFill);
    }
    if IndexSet(positive) * IndexSet(negative) != {} {
      return Err(Overlapping);
    }
    return Ok((positive, negative));
  }

  method Choose(
    rows: seq<Row>, margin: real, perGroup: nat, only: seq<Row>, other: seq<Row>, both: seq<Row>,
    positiveNeed: nat, negativeNeed: nat)
    returns (positive: seq<Row>, negative: seq<Row>)
    requires Unique(rows) && Lists(rows, margin, only, other, both) && positiveNeed + negativeNeed <= |both|
    requires |only| + positiveNeed >= perGroup && |other| + negativeNeed >= perGroup
    requires negativeNeed == if perGroup > |other| then perGroup - |other| else 0
    requires SortedBy(both, ByDifference())
    ensures IsGroup(positive, rows, Positive, margin, perGroup)
    ensures IsGroup(negative, rows, Negative, margin, perGroup)
    ensures Apart(positive, negative, Index) && |positive| == |negative| == perGroup
    ensures IndexSet(positive) * IndexSet(negative) == {}
    ensures Strongest(positive, Filter(rows, OnlyPositive(margin)), Positive)
    ensures Strongest(negative, Filter(rows, (row: Row) =>
              Qualifies(row, Negative, margin) && row.recordIndex !in IndexSet(positive)), Negative)
    ensures Selected(rows, margin, perGroup, positive, negative)
  {
    hide TotalOrder, Strongest, Qualifies, ByScore, Sort, Filter, SortedBy, Withheld, TopOf, PositiveRows, NegativeRows,
         ByDifference, RowSet, IsGroup;
    var remaining := both[positiveNeed..];
    var reservedNegative := if negativeNeed > 0 then remaining[|remaining| - negativeNeed..] else [];
    var reservedIds := IndexSet(reservedNegative);
    var open := Filter(remaining, (row: Row) => row.recordIndex !in reservedIds);
    var candidates := only + both[..positiveNeed] + open;
    positive := Take(Sort(candidates, ByStrength(Positive)), perGroup);
    ghost var front, tail := both[..|both| - negativeNeed], both[|both| - negativeNeed..];
    UniqueConcat(only, both, Index);
    PositiveCandidates(both, positiveNeed, negativeNeed, reservedNegative);
    assert candidates == only + front && both == front + tail;
    SortMembers(candidates, ByStrength(Positive));
    PositiveGroup(rows, margin, only, other, both, front, tail, perGroup, positive);

    var positiveIds := IndexSet(positive);
    var left := other + Filter(both, (row: Row) => row.recordIndex !in positiveIds);
    negative := Take(Sort(left, ByStrength(Negative)), perGroup);
    NegativeCandidates(rows, margin, only, other, both, front, tail, positive);
    SortMembers(left, ByStrength(Negative));
    NegativeGroup(rows, margin, positive, left, perGroup, negative);
    ApartIndices(positive, negative);
    WithheldTail(rows, margin, perGroup, only, other, both, front, tail);
    PositiveIsTop(rows, margin, perGroup, only, other, both, front, tail, positive);
    NegativeIsTop(rows, margin, perGroup, positive, left, negative);
  }

  datatype Label = CPlus | CMinus | IPlus | IMinus

  /** A selected row with its group, its rank in the group counted from one, and the strength it was selected for. */
  datatype Chosen = Chosen(row: Row, kind: Label, sign: Sign, strength: real, margin: real, rank: nat)

  function RowsOf(group: seq<Chosen>): (r: seq<Row>)
    ensures |r| == |group| && forall i :: 0 <= i < |r| ==> r[i] == group[i].row
  {
    seq(|group|, i requires 0 <= i < |group| => group[i].row)
  }

  ghost predicate Labelled(group: seq<Chosen>, kind: Label, sign: Sign, margin: real) {
    forall i :: 0 <= i < |group| ==>
      && group[i].kind == kind && group[i].sign == sign && group[i].margin == margin && group[i].rank == i + 1
      && Strength(group[i].row, sign) == Some(group[i].strength)
  }

  method Annotate(group: seq<Row>, kind: Label, sign: Sign, margin: real) returns (r: seq<Chosen>)
    requires forall row :: row in group ==> Qualifies(row, sign, margin)
    ensures RowsOf(r) == group && Labelled(r, kind, sign, margin)
  {
    assert forall i :: 0 <= i < |group| ==> group[i] in group;
    r := seq(|group|, i requires 0 <= i < |group| =>
      Chosen(group[i], kind, sign, ScoreOf(group[i], sign), margin, i + 1));
  }

  datatype Selection = Selection(cPlus: seq<Chosen>, cMinus: seq<Chosen>, iPlus: seq<Chosen>, iMinus: seq<Chosen>) {
    function All(): (r: seq<Row>) {
      RowsOf(cPlus) + RowsOf(cMinus) + RowsOf(iPlus) + RowsOf(iMinus)
    }
  }

  function OfOutcome(outcome: Outcome): (r: Row -> bool) {
    (row: Row) => row.outcome == outcome
  }

  lemma SubsetIds(rows: seq<Row>, outcome: Outcome, sign: Sign, margin: real)
    ensures QualifiedIds(Filter(rows, OfOutcome(outcome)), sign, margin) == Ids(rows, outcome, sign, margin)
  {
    FilterMembers(rows, OfOutcome(outcome));
  }

  /** Groups of one outcome and groups of the other share no index. */
  lemma OutcomesApart(rows: seq<Row>, a: seq<Row>, b: seq<Row>)
    requires Unique(rows)
    requires forall row :: row in a ==> row in Filter(rows, OfOutcome(Correct))
    requires forall row :: row in b ==> row in Filter(rows, OfOutcome(Incorrect))
    ensures Apart(a, b, Index)
  {
    FiltersApart(rows, Index, OfOutcome(Correct), OfOutcome(Incorrect));
    ApartMembers(Filter(rows, OfOutcome(Correct)), Filter(rows, OfOutcome(Incorrect)), a, b, Index);
  }

  lemma GroupQualifies(group: seq<Row>, rows: seq<Row>, sign: Sign, margin: real, k: nat)
    requires IsGroup(group, rows, sign, margin, k)
    ensures forall row :: row in group ==> Qualifies(row, sign, margin)
  {
  }

  lemma TwoGroups(a: seq<Row>, b: seq<Row>, rows: seq<Row>, margin: real, k: nat)
    requires IsGroup(a, rows, Positive, margin, k) && IsGroup(b, rows, Negative, margin, k) && Apart(a, b, Index)
    ensures Unique(a + b) && |a + b| == 2 * k
    ensures forall row :: row in a + b ==> row in rows
  {
    UniqueConcat(a, b, Index);
  }

  lemma IndexSetIsKeys(rows: seq<Row>)
    ensures IndexSet(rows) == Keys(rows, Index)
  {
    forall k | k in Keys(rows, Index) ensures k in IndexSet(rows) {
      var i :| 0 <= i < |rows| && Index(rows[i]) == k;
      assert rows[i] in rows;
    }
    forall row | row in rows ensures row.recordIndex in Keys(rows, Index) {
      var i :| 0 <= i < |rows| && rows[i] == row;
      assert Index(rows[i]) == row.recordIndex;
    }
  }

  /** Four groups of `perGroup` rows each, the strongest of their outcome, no row in two of them; an error exactly when
      some outcome cannot serve both its groups. */
  method SelectDisjointBalancedResponses(rows: seq<Row>, margin: real, perGroup: nat)
    returns (r: Result<Selection, SelectError>)
    requires Unique(rows)
    ensures r.Ok? <==> AllAssignable(rows, margin, perGroup)
    ensures r.Ok? ==>
              var correct, incorrect := Filter(rows, OfOutcome(Correct)), Filter(rows, OfOutcome(Incorrect));
              && IsGroup(RowsOf(r.value.cPlus), correct, Positive, margin, perGroup)
              && IsGroup(RowsOf(r.value.cMinus), correct, Negative, margin, perGroup)
              && IsGroup(RowsOf(r.value.iPlus), incorrect, Positive, margin, perGroup)
              && IsGroup(RowsOf(r.value.iMinus), incorrect, Negative, margin, perGroup)
              && StrongestOf(correct, margin, RowsOf(r.value.cPlus), RowsOf(r.value.cMinus))
              && StrongestOf(incorrect, margin, RowsOf(r.value.iPlus), RowsOf(r.value.iMinus))
              && Selected(correct, margin, perGroup, RowsOf(r.value.cPlus), RowsOf(r.value.cMinus))
              && Selected(incorrect, margin, perGroup, RowsOf(r.value.iPlus), RowsOf(r.value.iMinus))
              && Labelled(r.value.cPlus, CPlus, Positive, margin) && Labelled(r.value.cMinus, CMinus, Negative, margin)
              && Labelled(r.value.iPlus, IPlus, Positive, margin) && Labelled(r.value.iMinus, IMinus, Negative, margin)
              && Unique(r.value.All()) && |r.value.All()| == 4 * perGroup
  {
    hide IsGroup, Assignable, Qualifies, StrongestOf, Filter, Labelled, Selected;
    var correct, incorrect := Filter(rows, OfOutcome(Correct)), Filter(rows, OfOutcome(Incorrect));
    FilterUnique(rows, Index, OfOutcome(Correct));
    FilterUnique(rows, Index, OfOutcome(Incorrect));
    SubsetIds(rows, Correct, Positive, margin);
    SubsetIds(rows, Correct, Negative, margin);
    SubsetIds(rows, Incorrect, Positive, margin);
    SubsetIds(rows, Incorrect, Negative, margin);
    var c := SelectOneOutcome(correct, margin, perGroup);
    if c.Err? {
      return Err(c.error);
    }
    var i := SelectOneOutcome(incorrect, margin, perGroup);
    if i.Err? {
      return Err(i.error);
    }
    GroupQualifies(c.value.0, correct, Positive, margin, perGroup);
    GroupQualifies(c.value.1, correct, Negative, margin, perGroup);
    GroupQualifies(i.value.0, incorrect, Positive, margin, perGroup);
    GroupQualifies(i.value.1, incorrect, Negative, margin, perGroup);
    var cPlus := Annotate(c.value.0, CPlus, Positive, margin);
    var cMinus := Annotate(c.value.1, CMinus, Negative, margin);
    var iPlus := Annotate(i.value.0, IPlus, Positive, margin);
    var iMinus := Annotate(i.value.1, IMinus, Negative, margin);
    var selection := Selection(cPlus, cMinus, iPlus, iMinus);
    TwoGroups(c.value.0, c.value.1, correct, margin, perGroup);
    TwoGroups(i.value.0, i.value.1, incorrect, margin, perGroup);
    OutcomesApart(rows, c.value.0 + c.value.1, i.value.0 + i.value.1);
    UniqueConcat(c.value.0 + c.value.1, i.value.0 + i.value.1, Index);
    assert selection.All() == (c.value.0 + c.value.1) + (i.value.0 + i.value.1);
    UniqueKeysCount(selection.All(), Index);
    IndexSetIsKeys(selection.All());
    if |selection.All()| != 4 * perGroup || |IndexSet(selection.All())| != |selection.All()| {
      return Err(Overlapping);
    }
    return Ok(selection);
  }
}
