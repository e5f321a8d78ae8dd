// Filtering of trajectories by Teacher score, and per-trajectory normalized token weights.

module FireOpd {
  import opened Common
  import opened Masks
  import opened Sets
  import opened Sorting

  /** One trajectory: response mask, log-probabilities, and entropies, token by token. */
  datatype Row = Row(
    genuine: bool, mask: seq<bool>, teacher: seq<real>, student: seq<real>,
    teacherEntropy: seq<real>, studentEntropy: seq<real>)

  datatype FireError =
    BadShape | BadRatio | BadAlpha | BadBeta | NoGenuine | EmptyGenuine | NegativeTeacherEntropy | NegativeStudentEntropy

  const TOLERANCE := 0.0001
  const EPS := 1.0 / 8388608.0

  predicate RowFits(row: Row, width: nat) {
    |row.mask| == |row.teacher| == |row.student| == |row.teacherEntropy| == |row.studentEntropy| == width
  }

  predicate Rectangular(rows: seq<Row>) {
    forall row :: row in rows ==> RowFits(row, |row.mask|) && |row.mask| == |rows[0].mask|
  }

  /** The tokens of genuine trajectories. */
  predicate AllAtLeast(values: seq<real>, mask: seq<bool>, low: real)
    requires |values| == |mask|
  {
    forall t :: 0 <= t < |mask| && mask[t] ==> values[t] >= low
  }

  /** What each refusal says about the input. */
  predicate Fault(e: FireError, rows: seq<Row>, ratio: real, alpha: real, beta: real) {
    match e
    case BadShape => !Rectangular(rows)
    case BadRatio => !(0.0 <= ratio < 1.0)
    case BadAlpha => alpha < 0.0
    case BadBeta => beta < 0.0
    case NoGenuine => forall row :: row in rows ==> !row.genuine
    case EmptyGenuine => exists row :: row in rows && row.genuine && CountTrue(row.mask) == 0
    case NegativeTeacherEntropy =>
      Rectangular(rows) && exists row :: row in rows && row.genuine && !AllAtLeast(row.teacherEntropy, row.mask, -TOLERANCE)
    case NegativeStudentEntropy =>
      Rectangular(rows) && exists row :: row in rows && row.genuine && !AllAtLeast(row.studentEntropy, row.mask, -TOLERANCE)
  }

  // ---- the filter ----------------------------------------------------------------------------------------------

  /** A trajectory's mean Teacher log-probability. */
  function Score(row: Row): (r: real)
    requires |row.teacher| == |row.mask|
  {
    MaskedSum(row.teacher, row.mask) / (if CountTrue(row.mask) == 0 then 1 else CountTrue(row.mask)) as real
  }

  /** Ranked before: a lower score, or the same score and an earlier position. */
  predicate Before(scores: seq<real>, a: nat, b: nat)
    requires a < |scores| && b < |scores|
  {
    scores[a] < scores[b] || (scores[a] == scores[b] && a < b)
  }

  function Dropped(genuine: seq<bool>, keep: seq<bool>): (r: set<nat>)
    requires |genuine| == |keep|
  {
    set i | 0 <= i < |genuine| && genuine[i] && !keep[i]
  }

  /** Exactly `drop` genuine trajectories go, and they rank before all that stay. */
  ghost predicate Filtered(scores: seq<real>, genuine: seq<bool>, keep: seq<bool>, drop: nat) {
    && |scores| == |genuine| == |keep|
    && (forall i :: 0 <= i < |keep| && keep[i] ==> genuine[i])
    && |Dropped(genuine, keep)| == drop
    && forall a, b :: a in Dropped(genuine, keep) && 0 <= b < |keep| && keep[b] ==> Before(scores, a, b)
  }

  /** That leaves no choice. */
  lemma FilteredIsUnique(scores: seq<real>, genuine: seq<bool>, keep: seq<bool>, other: seq<bool>, drop: nat)
    requires Filtered(scores, genuine, keep, drop) && Filtered(scores, genuine, other, drop)
    ensures keep == other
  {
    var d, e := Dropped(genuine, keep), Dropped(genuine, other);
    assert forall a, b :: a in d && a !in e && b in e && b !in d ==> Before(scores, a, b) && Before(scores, b, a);
    assert d <= e || e <= d;
    if d <= e {
      SameSize(d, e);
    } else {
      SameSize(e, d);
    }
    forall i | 0 <= i < |keep| ensures keep[i] == other[i] {
      assert i in d <==> i in e;
    }
  }

  predicate Genuine(genuine: seq<bool>, i: nat) {
    i < |genuine| && genuine[i]
  }

  /** Ranked no later, on all numbers: positions without a score come last. */
  predicate RankedBy(scores: seq<real>, a: nat, b: nat) {
    if a < |scores| && b < |scores| then a == b || Before(scores, a, b) else a <= b
  }

  lemma RankingIsTotal(scores: seq<real>)
    ensures TotalOrder((a: nat, b: nat) => RankedBy(scores, a, b))
  {
  }

  /** The positions of the genuine trajectories. */
  ghost predicate AreGenuine(indices: seq<nat>, genuine: seq<bool>) {
    && (forall i: nat :: i in indices <==> Genuine(genuine, i))
    && UniqueKeys(indices, (i: nat) => i)
  }

  method GenuineIndices(genuine: seq<bool>) returns (indices: seq<nat>)
    ensures AreGenuine(indices, genuine) && |indices| == CountTrue(genuine)
  {
    indices := [];
    for i := 0 to |genuine|
      invariant forall j: nat :: j in indices <==> j < i && Genuine(genuine, j)
      invariant forall k :: 0 <= k < |indices| ==> indices[k] < i
      invariant UniqueKeys(indices, (i: nat) => i)
      invariant |indices| == CountTrue(genuine[..i])
    {
      assert genuine[..i + 1][..i] == genuine[..i];
      if genuine[i] {
        indices := indices + [i];
      }
    }
    assert genuine[..|genuine|] == genuine;
  }

  /** Cutting a ranking of all genuine trajectories drops the lowest. */
  lemma CutRanking(scores: seq<real>, genuine: seq<bool>, ranking: seq<nat>, keep: seq<bool>, drop: nat)
    requires |scores| == |genuine| == |keep| && drop <= |ranking|
    requires AreGenuine(ranking, genuine) && SortedBy(ranking, (a: nat, b: nat) => RankedBy(scores, a, b))
    requires forall i :: 0 <= i < |keep| ==> keep[i] == (genuine[i] && i !in ranking[..drop])
    ensures Filtered(scores, genuine, keep, drop)
  {
    var key := (i: nat) => i;
    var cut, d := ranking[..drop], Dropped(genuine, keep);
    assert UniqueKeys(cut, key);
    UniqueKeysCount(cut, key);
    forall i | i in cut ensures i in ranking {
      var k :| 0 <= k < |cut| && cut[k] == i;
      assert ranking[k] == i;
    }
    assert forall k :: 0 <= k < |cut| ==> cut[k] in cut && cut[k] == ranking[k];
    assert d == Keys(cut, key);
    forall a, b | a in d && 0 <= b < |keep| && keep[b] ensures Before(scores, a, b) {
      var k :| 0 <= k < |cut| && cut[k] == a;
      assert b in ranking by { assert Genuine(genuine, b); }
      var l :| 0 <= l < |ranking| && ranking[l] == b;
      assert k < drop <= l;
      assert RankedBy(scores, ranking[k], ranking[l]);
    }
  }

  /** A stable ascending ranking of the genuine trajectories, cut after `drop` of them. */
  method DropLowest(scores: seq<real>, genuine: seq<bool>, drop: nat) returns (keep: seq<bool>)
    requires |scores| == |genuine| && drop <= CountTrue(genuine)
    ensures Filtered(scores, genuine, keep, drop)
  {
    hide Filtered;
    var indices := GenuineIndices(genuine);
    var le := (a: nat, b: nat) => RankedBy(scores, a, b);
    var ranking := Sort(indices, le);
    RankingOfGenuine(scores, genuine, indices, ranking);
    var keepMask := new bool[|genuine|](i requires 0 <= i < |genuine| => genuine[i]);
    for k := 0 to drop
      invariant forall i :: 0 <= i < |genuine| ==> keepMask[i] == (genuine[i] && i !in ranking[..k])
    {
      assert ranking[k] in ranking && Genuine(genuine, ranking[k]);
      assert ranking[..k + 1] == ranking[..k] + [ranking[k]];
      keepMask[ranking[k]] := false;
    }
    keep := keepMask[..];
    CutRanking(scores, genuine, ranking, keep, drop);
  }

  lemma RankingOfGenuine(scores: seq<real>, genuine: seq<bool>, indices: seq<nat>, ranking: seq<nat>)
    requires AreGenuine(indices, genuine)
    requires ranking == Sort(indices, (a: nat, b: nat) => RankedBy(scores, a, b))
    ensures |ranking| == |indices| && AreGenuine(ranking, genuine)
    ensures SortedBy(ranking, (a: nat, b: nat) => RankedBy(scores, a, b))
  {
    var le := (a: nat, b: nat) => RankedBy(scores, a, b);
    RankingIsTotal(scores);
    SortIsSorted(indices, le);
    SortMembers(indices, le);
    SortUnique(indices, (i: nat) => i, le);
  }

  // ---- token weights -------------------------------------------------------------------------------------------

  function AtLeast(x: real, low: real): (r: real)
    ensures r >= low && r >= x && (r == low || r == x)
  {
    if x < low then low else x
  }

  function Unit(x: real): (r: real)
    ensures 0.0 <= r <= 1.0
  {
    if x < 0.0 then 0.0 else if x > 1.0 then 1.0 else x
  }

  /** An entropy as a share of the batch's peak. */
  function Share(entropy: real, peak: real): (r: real) {
    AtLeast(entropy, 0.0) / AtLeast(peak, EPS)
  }

  function Boost(strength: real, share: real): (r: real) {
    1.0 + strength * Unit(share)
  }

  function RawWeight(alpha: real, beta: real, teacherShare: real, studentShare: real): (r: real) {
    Boost(alpha, 1.0 - teacherShare) * Boost(beta, studentShare)
  }

  lemma Products(a: real, b: real, c: real, d: real)
    requires 0.0 <= a <= c && 0.0 <= b <= d
    ensures a * b <= c * d
  {
    assert a * b <= a * d;
    assert a * d <= c * d;
  }

  lemma BoostGrows(strength: real, x: real, y: real)
    requires strength >= 0.0 && x <= y
    ensures 1.0 <= Boost(strength, x) <= Boost(strength, y) <= 1.0 + strength
  {
    var u, v := Unit(x), Unit(y);
    assert 0.0 <= u <= v <= 1.0;
    assert 0.0 <= strength * u;
    assert strength * v - strength * u == strength * (v - u);
    assert 0.0 <= strength * (v - u);
    assert strength - strength * v == strength * (1.0 - v);
    assert 0.0 <= strength * (1.0 - v);
  }

  lemma RawInRange(alpha: real, beta: real, teacherShare: real, studentShare: real)
    requires alpha >= 0.0 && beta >= 0.0
    ensures 1.0 <= RawWeight(alpha, beta, teacherShare, studentShare) <= (1.0 + alpha) * (1.0 + beta)
  {
    hide Boost;
    var p, q := Boost(alpha, 1.0 - teacherShare), Boost(beta, studentShare);
    BoostGrows(alpha, 1.0 - teacherShare, 1.0 - teacherShare);
    BoostGrows(beta, studentShare, studentShare);
    Products(p, q, 1.0 + alpha, 1.0 + beta);
    Products(1.0, 1.0, p, q);
  }

  /** A surer Teacher and a more confused Student never weigh less. */
  lemma RawIsMonotonic(alpha: real, beta: real, t: real, s: real, t': real, s': real)
    requires alpha >= 0.0 && beta >= 0.0 && t >= t' && s <= s'
    ensures RawWeight(alpha, beta, t, s) <= RawWeight(alpha, beta, t', s')
  {
    hide Boost;
    BoostGrows(alpha, 1.0 - t, 1.0 - t');
    BoostGrows(beta, s, s');
    Products(Boost(alpha, 1.0 - t), Boost(beta, s), Boost(alpha, 1.0 - t'), Boost(beta, s'));
  }

  lemma SharesGrow(x: real, y: real, peak: real)
    requires x <= y
    ensures Share(x, peak) <= Share(y, peak)
  {
    var a, b, p := AtLeast(x, 0.0), AtLeast(y, 0.0), AtLeast(peak, EPS);
    QuotientsCompare(a, b, p);
  }

  lemma OneMore(low: real, count: real, sum: real, value: real)
    requires low * count <= sum && low <= value
    ensures low * (count + 1.0) <= sum + value
  {
    assert low * (count + 1.0) == low * count + low;
  }

  /** Values of at least `low` add up to at least as many times `low`. */
  lemma {:induction false} SumFrom(values: seq<real>, mask: seq<bool>, low: real)
    requires |values| == |mask| && forall t :: 0 <= t < |mask| && mask[t] ==> low <= values[t]
    ensures low * CountTrue(mask) as real <= MaskedSum(values, mask)
  {
    if mask != [] {
      var n := |mask| - 1;
      SumFrom(values[..n], mask[..n], low);
      if mask[n] {
        OneMore(low, CountTrue(mask[..n]) as real, MaskedSum(values[..n], mask[..n]), values[n]);
      }
    }
  }

  lemma OneMoreBelow(high: real, count: real, sum: real, value: real)
    requires sum <= high * count && value <= high
    ensures sum + value <= high * (count + 1.0)
  {
    assert high * (count + 1.0) == high * count + high;
  }

  lemma {:induction false} SumUpTo(values: seq<real>, mask: seq<bool>, high: real)
    requires |values| == |mask| && forall t :: 0 <= t < |mask| && mask[t] ==> values[t] <= high
    ensures MaskedSum(values, mask) <= high * CountTrue(mask) as real
  {
    if mask != [] {
      var n := |mask| - 1;
      SumUpTo(values[..n], mask[..n], high);
      if mask[n] {
        OneMoreBelow(high, CountTrue(mask[..n]) as real, MaskedSum(values[..n], mask[..n]), values[n]);
      }
    }
  }

  ghost predicate Scales(quotient: real, value: real, mean: real) {
    quotient * mean == value
  }

  lemma ScaledSum(q: real, v: real, q': real, v': real, mean: real)
    requires Scales(q, v, mean) && Scales(q', v', mean)
    ensures Scales(q + q', v + v', mean) && Scales(q + 0.0, v + 0.0, mean)
  {
    assert (q + q') * mean == q * mean + q' * mean;
  }

  lemma {:induction false} SumOfQuotients(values: seq<real>, quotients: seq<real>, mask: seq<bool>, mean: real)
    requires |values| == |quotients| == |mask|
    requires forall t :: 0 <= t < |mask| ==> Scales(quotients[t], values[t], mean)
    ensures Scales(MaskedSum(quotients, mask), MaskedSum(values, mask), mean)
  {
    if mask != [] {
      hide Scales;
      var n := |mask| - 1;
      SumOfQuotients(values[..n], quotients[..n], mask[..n], mean);
      ScaledSum(MaskedSum(quotients[..n], mask[..n]), MaskedSum(values[..n], mask[..n]), quotients[n], values[n], mean);
    }
  }

  /** Zero off the response, averaging exactly one on it, and within `limit` of one either way. */
  ghost predicate Normalized(w: seq<real>, mask: seq<bool>, limit: real) {
    && |w| == |mask|
    && MaskedSum(w, mask) == CountTrue(mask) as real
    && forall t :: 0 <= t < |mask| ==> if mask[t] then 1.0 <= w[t] * limit && w[t] <= limit else w[t] == 0.0
  }

  function TokenWeight(row: Row, t: nat, alpha: real, beta: real, teacherPeak: real, studentPeak: real): (r: real)
    requires RowFits(row, |row.mask|) && t < |row.mask|
  {
    RawWeight(alpha, beta, Share(row.teacherEntropy[t], teacherPeak), Share(row.studentEntropy[t], studentPeak))
  }

  /** The weights stand in the same proportions as the raw ones. */
  ghost predicate Proportional(
    row: Row, w: seq<real>, mean: real, alpha: real, beta: real, teacherPeak: real, studentPeak: real)
    requires RowFits(row, |row.mask|)
  {
    && |w| == |row.mask| && mean > 0.0
    && forall t :: 0 <= t < |w| && row.mask[t] ==>
         w[t] * mean == TokenWeight(row, t, alpha, beta, teacherPeak, studentPeak)
  }

  /** Dividing by the mean makes one the average. */
  lemma QuotientsAverageOne(raw: seq<real>, w: seq<real>, mask: seq<bool>, mean: real, limit: real)
    requires |raw| == |w| == |mask| && CountTrue(mask) > 0
    requires forall t :: 0 <= t < |mask| ==> if mask[t] then 1.0 <= raw[t] <= limit else raw[t] == 0.0
    requires mean == MaskedSum(raw, mask) / CountTrue(mask) as real
    requires mean > 0.0 ==> forall t :: 0 <= t < |mask| ==> w[t] * mean == raw[t]
    ensures 1.0 <= mean <= limit && Normalized(w, mask, limit)
  {
    hide CountTrue, MaskedSum;
    var n, sum := CountTrue(mask) as real, MaskedSum(raw, mask);
    SumFrom(raw, mask, 1.0);
    SumUpTo(raw, mask, limit);
    MeanBetween(sum, n, limit, mean);
    SumOfQuotients(raw, w, mask, mean);
    SameQuotient(MaskedSum(w, mask), n, mean, sum);
    forall t | 0 <= t < |mask| && mask[t] ensures 1.0 <= w[t] * limit && w[t] <= limit {
      WithinLimit(w[t], raw[t], mean, limit);
    }
    forall t | 0 <= t < |mask| && !mask[t] ensures w[t] == 0.0 {
      assert w[t] * mean == 0.0;
    }
  }

  lemma MeanBetween(sum: real, n: real, limit: real, mean: real)
    requires n > 0.0 && 1.0 * n <= sum <= limit * n && mean == sum / n
    ensures 1.0 <= mean <= limit && mean * n == sum
  {
    assert mean * n == sum;
    assert mean < 1.0 ==> mean * n < 1.0 * n;
    assert mean > limit ==> mean * n > limit * n;
  }

  lemma SameQuotient(sum: real, n: real, mean: real, total: real)
    requires mean >= 1.0 && sum * mean == total && mean * n == total
    ensures sum == n
  {
    assert (sum - n) * mean == sum * mean - n * mean;
  }

  lemma WithinLimit(w: real, raw: real, mean: real, limit: real)
    requires 1.0 <= mean <= limit && w * mean == raw && 1.0 <= raw <= limit
    ensures 1.0 <= w * limit && w <= limit
  {
    assert w <= 0.0 ==> w * mean <= 0.0;
    assert w * limit - w * mean == w * (limit - mean);
    assert 0.0 <= w * (limit - mean);
    assert w * mean - w == w * (mean - 1.0);
    assert 0.0 <= w * (mean - 1.0);
  }

  method WeighRow(row: Row, alpha: real, beta: real, teacherPeak: real, studentPeak: real)
    returns (w: seq<real>, mean: real)
    requires RowFits(row, |row.mask|) && CountTrue(row.mask) > 0 && alpha >= 0.0 && beta >= 0.0
    ensures Normalized(w, row.mask, (1.0 + alpha) * (1.0 + beta))
    ensures Proportional(row, w, mean, alpha, beta, teacherPeak, studentPeak)
  {
    hide RawWeight, Share, Normalized, CountTrue, MaskedSum;
    ghost var limit := (1.0 + alpha) * (1.0 + beta);
    var raw := [];
    for t := 0 to |row.mask|
      invariant |raw| == t
      invariant forall u :: 0 <= u < t ==>
                  if row.mask[u] then
                    raw[u] == TokenWeight(row, u, alpha, beta, teacherPeak, studentPeak) && 1.0 <= raw[u] <= limit
                  else raw[u] == 0.0
    {
      if row.mask[t] {
        RawInRange(alpha, beta, Share(row.teacherEntropy[t], teacherPeak), Share(row.studentEntropy[t], studentPeak));
        raw := raw + [TokenWeight(row, t, alpha, beta, teacherPeak, studentPeak)];
      } else {
        raw := raw + [0.0];
      }
    }
    mean := MaskedSum(raw, row.mask) / CountTrue(row.mask) as real;
    w := Quotients(raw, AtLeast(mean, EPS));
    SumFrom(raw, row.mask, 1.0);
    SumUpTo(raw, row.mask, limit);
    MeanBetween(MaskedSum(raw, row.mask), CountTrue(row.mask) as real, limit, mean);
    QuotientsAverageOne(raw, w, row.mask, mean, limit);
  }

  method Quotients(raw: seq<real>, divisor: real) returns (w: seq<real>)
    requires divisor > 0.0
    ensures |w| == |raw| && forall t :: 0 <= t < |w| ==> w[t] * divisor == raw[t]
  {
    w := [];
    for t := 0 to |raw|
      invariant |w| == t && forall u :: 0 <= u < t ==> w[u] * divisor == raw[u]
    {
      var q := raw[t] / divisor;
      assert q * divisor == raw[t];
      w := w + [q];
    }
  }

  /** Within a trajectory, a token where the Teacher is surer and the Student more confused weighs at least as much. */
  lemma WeightsFollowEntropies(
    row: Row, w: seq<real>, mean: real, alpha: real, beta: real, teacherPeak: real, studentPeak: real, t: nat, u: nat)
    requires RowFits(row, |row.mask|) && alpha >= 0.0 && beta >= 0.0
    requires Proportional(row, w, mean, alpha, beta, teacherPeak, studentPeak)
    requires t < |w| && u < |w| && row.mask[t] && row.mask[u]
    requires row.teacherEntropy[t] >= row.teacherEntropy[u] && row.studentEntropy[t] <= row.studentEntropy[u]
    ensures w[t] <= w[u]
  {
    var te, te' := Share(row.teacherEntropy[t], teacherPeak), Share(row.teacherEntropy[u], teacherPeak);
    var se, se' := Share(row.studentEntropy[t], studentPeak), Share(row.studentEntropy[u], studentPeak);
    SharesGrow(row.teacherEntropy[u], row.teacherEntropy[t], teacherPeak);
    SharesGrow(row.studentEntropy[t], row.studentEntropy[u], studentPeak);
    RawIsMonotonic(alpha, beta, te, se, te', se');
    hide RawWeight, Share;
    assert w[t] * mean <= w[u] * mean;
    SmallerFactor(w[t], w[u], mean);
  }

  lemma SmallerFactor(x: real, y: real, mean: real)
    requires mean > 0.0 && x * mean <= y * mean
    ensures x <= y
  {
    assert x > y ==> (x - y) * mean > 0.0;
  }

  /** Where entropies lie between zero and the peaks, a weight is, up to the trajectory's mean, the product of one plus
      alpha times the Teacher's certainty and one plus beta times the Student's confusion. */
  lemma WeightsAre(
    row: Row, w: seq<real>, mean: real, alpha: real, beta: real, teacherPeak: real, studentPeak: real, t: nat)
    requires RowFits(row, |row.mask|) && Proportional(row, w, mean, alpha, beta, teacherPeak, studentPeak)
    requires t < |w| && row.mask[t] && teacherPeak >= EPS && studentPeak >= EPS
    requires 0.0 <= row.teacherEntropy[t] <= teacherPeak && 0.0 <= row.studentEntropy[t] <= studentPeak
    ensures w[t] * mean
         == (1.0 + alpha * (1.0 - row.teacherEntropy[t] / teacherPeak)) * (1.0 + beta * (row.studentEntropy[t] / studentPeak))
  {
    ShareIs(row.teacherEntropy[t], teacherPeak);
    ShareIs(row.studentEntropy[t], studentPeak);
  }

  lemma ShareIs(entropy: real, peak: real)
    requires 0.0 <= entropy <= peak && EPS <= peak
    ensures Share(entropy, peak) == entropy / peak && 0.0 <= entropy / peak <= 1.0
  {
    QuotientsCompare(0.0, entropy, peak);
    QuotientsCompare(entropy, peak, peak);
  }

  // ---- the batch -----------------------------------------------------------------------------------------------

  datatype Outcome = Outcome(
    keep: seq<bool>, weights: seq<seq<real>>, advantages: seq<seq<real>>, teacherPeak: real, studentPeak: real)

  function Flags(rows: seq<Row>): (r: seq<bool>)
    ensures |r| == |rows| && forall i :: 0 <= i < |rows| ==> r[i] == rows[i].genuine
  {
    seq(|rows|, i requires 0 <= i < |rows| => rows[i].genuine)
  }

  function Scores(rows: seq<Row>): (r: seq<real>)
    requires Rectangular(rows)
    ensures |r| == |rows| && forall i :: 0 <= i < |rows| ==> r[i] == Score(rows[i])
  {
    seq(|rows|, i requires 0 <= i < |rows| => assert rows[i] in rows; Score(rows[i]))
  }

  function Entropies(row: Row, ofTeacher: bool): (r: seq<real>) {
    if ofTeacher then row.teacherEntropy else row.studentEntropy
  }

  predicate Retained(rows: seq<Row>, keep: seq<bool>, i: nat, t: nat) {
    i < |keep| <= |rows| && keep[i] && t < |rows[i].mask| && rows[i].mask[t]
  }

  /** The largest entropy among retained tokens, none of them counted below zero. */
  ghost predicate IsPeak(rows: seq<Row>, keep: seq<bool>, ofTeacher: bool, peak: real)
    requires Rectangular(rows) && |keep| <= |rows|
  {
    && (exists i: nat, t: nat :: Retained(rows, keep, i, t) && AtLeast(EntropyAt(rows, ofTeacher, i, t), 0.0) == peak)
    && forall i: nat, t: nat :: Retained(rows, keep, i, t) ==> EntropyAt(rows, ofTeacher, i, t) <= peak
  }

  function EntropyAt(rows: seq<Row>, ofTeacher: bool, i: nat, t: nat): (r: real)
    requires Rectangular(rows) && i < |rows| && t < |rows[i].mask|
  {
    assert rows[i] in rows;
    Entropies(rows[i], ofTeacher)[t]
  }

  method Peak(rows: seq<Row>, keep: seq<bool>, ofTeacher: bool) returns (peak: real)
    requires Rectangular(rows) && |keep| == |rows| && exists i: nat, t: nat :: Retained(rows, keep, i, t)
    ensures IsPeak(rows, keep, ofTeacher, peak)
  {
    peak := 0.0;
    for i := 0 to |rows|
      invariant peak >= 0.0
      invariant peak == 0.0 || exists j: nat, t: nat :: Retained(rows, keep, j, t) && EntropyAt(rows, ofTeacher, j, t) == peak
      invariant forall j: nat, t: nat :: j < i && Retained(rows, keep, j, t) ==> EntropyAt(rows, ofTeacher, j, t) <= peak
    {
      if keep[i] {
        for t := 0 to |rows[i].mask|
          invariant peak >= 0.0
          invariant peak == 0.0 || exists j: nat, t: nat :: Retained(rows, keep, j, t) && EntropyAt(rows, ofTeacher, j, t) == peak
          invariant forall j: nat, t: nat :: j < i && Retained(rows, keep, j, t) ==> EntropyAt(rows, ofTeacher, j, t) <= peak
          invariant forall u: nat :: u < t && Retained(rows, keep, i, u) ==> EntropyAt(rows, ofTeacher, i, u) <= peak
        {
          if rows[i].mask[t] && EntropyAt(rows, ofTeacher, i, t) > peak {
            assert Retained(rows, keep, i, t);
            peak := EntropyAt(rows, ofTeacher, i, t);
          }
        }
      }
    }
  }

  /** An advantage is the weighted difference of log-probabilities and keeps its sign. */
  predicate AdvantageFits(row: Row, kept: bool, w: seq<real>, advantage: real, t: nat)
    requires RowFits(row, |row.mask|) && |w| == |row.mask| && t < |w|
  {
    var base := row.teacher[t] - row.student[t];
    && advantage == w[t] * base
    && (if kept && row.mask[t] then (advantage > 0.0 <==> base > 0.0) && (advantage < 0.0 <==> base < 0.0)
        else advantage == 0.0)
  }

  /** What one trajectory gets. */
  ghost predicate RowOutcome(
    row: Row, kept: bool, w: seq<real>, advantages: seq<real>, alpha: real, beta: real, teacherPeak: real, studentPeak: real)
    requires RowFits(row, |row.mask|)
  {
    && |w| == |advantages| == |row.mask|
    && (if kept then
          && Normalized(w, row.mask, (1.0 + alpha) * (1.0 + beta))
          && exists mean :: Proportional(row, w, mean, alpha, beta, teacherPeak, studentPeak)
        else forall t :: 0 <= t < |w| ==> w[t] == 0.0)
    && forall t :: 0 <= t < |w| ==> AdvantageFits(row, kept, w, advantages[t], t)
  }

  lemma SignKept(w: real, base: real, limit: real)
    requires 1.0 <= w * limit && limit >= 1.0
    ensures w * base > 0.0 <==> base > 0.0
    ensures w * base < 0.0 <==> base < 0.0
  {
    assert w > 0.0;
  }

  lemma LimitIsOneOrMore(alpha: real, beta: real)
    requires alpha >= 0.0 && beta >= 0.0
    ensures (1.0 + alpha) * (1.0 + beta) >= 1.0
  {
    Products(1.0, 1.0, 1.0 + alpha, 1.0 + beta);
  }

  method WeighTrajectory(row: Row, kept: bool, alpha: real, beta: real, teacherPeak: real, studentPeak: real)
    returns (w: seq<real>, advantages: seq<real>)
    requires RowFits(row, |row.mask|) && (kept ==> CountTrue(row.mask) > 0) && alpha >= 0.0 && beta >= 0.0
    ensures RowOutcome(row, kept, w, advantages, alpha, beta, teacherPeak, studentPeak)
  {
    hide Proportional, CountTrue, MaskedSum;
    ghost var limit := (1.0 + alpha) * (1.0 + beta);
    LimitIsOneOrMore(alpha, beta);
    if kept {
      var mean;
      w, mean := WeighRow(row, alpha, beta, teacherPeak, studentPeak);
    } else {
      w := seq(|row.mask|, _ => 0.0);
    }
    advantages := [];
    for t := 0 to |w|
      invariant |advantages| == t
      invariant forall u :: 0 <= u < t ==> AdvantageFits(row, kept, w, advantages[u], u)
    {
      var base := row.teacher[t] - row.student[t];
      if kept && row.mask[t] {
        SignKept(w[t], base, limit);
      } else {
        assert w[t] * base == 0.0;
      }
      advantages := advantages + [w[t] * base];
    }
  }

  lemma FloorBelow(n: nat, ratio: real)
    requires n > 0 && 0.0 <= ratio < 1.0
    ensures 0 <= (n as real * ratio).Floor <= n - 1
  {
    var x := n as real;
    assert 0.0 <= x * ratio;
    assert x * (1.0 - ratio) > 0.0;
  }

  /** A filter that drops fewer than all leaves a trajectory, and counts add up. */
  lemma SomeStay(scores: seq<real>, genuine: seq<bool>, keep: seq<bool>, drop: nat)
    requires Filtered(scores, genuine, keep, drop)
    ensures |keep| == |genuine| && CountTrue(keep) + drop == CountTrue(genuine)
    ensures drop < CountTrue(genuine) ==> exists i :: 0 <= i < |keep| && keep[i]
  {
    var kept, dropped := TrueSet(keep), Dropped(genuine, keep);
    CountIsSize(keep);
    CountIsSize(genuine);
    assert TrueSet(genuine) == kept + dropped && kept !! dropped;
    assert (exists i :: i in kept) || kept == {};
  }

  method FindFault(rows: seq<Row>, ratio: real, alpha: real, beta: real) returns (fault: Option<FireError>)
    ensures fault.Some? ==> Fault(fault.value, rows, ratio, alpha, beta)
    ensures fault.None? ==> forall e :: !Fault(e, rows, ratio, alpha, beta)
  {
    fault := if !Rectangular(rows) then Some(BadShape)
             else if !(0.0 <= ratio < 1.0) then Some(BadRatio)
             else if alpha < 0.0 then Some(BadAlpha)
             else if beta < 0.0 then Some(BadBeta)
             else if forall row :: row in rows ==> !row.genuine then Some(NoGenuine)
             else if exists row :: row in rows && row.genuine && CountTrue(row.mask) == 0 then Some(EmptyGenuine)
             else if exists row :: row in rows && row.genuine && !AllAtLeast(row.teacherEntropy, row.mask, -TOLERANCE) then
               Some(NegativeTeacherEntropy)
             else if exists row :: row in rows && row.genuine && !AllAtLeast(row.studentEntropy, row.mask, -TOLERANCE) then
               Some(NegativeStudentEntropy)
             else None;
  }

  lemma GenuineCounted(genuine: seq<bool>, i: nat)
    requires i < |genuine| && genuine[i]
    ensures CountTrue(genuine) > 0
  {
    CountIsSize(genuine);
    assert i in TrueSet(genuine);
  }

  lemma {:induction false} AdmittedToken(mask: seq<bool>)
    requires CountTrue(mask) > 0
    ensures exists t :: 0 <= t < |mask| && mask[t]
  {
    CountIsSize(mask);
    assert (exists t :: t in TrueSet(mask)) || TrueSet(mask) == {};
  }

  /** The floor of the ratio's share of the genuine trajectories is dropped, the lowest scores first; at least one
      stays. */
  ghost predicate BatchFiltered(rows: seq<Row>, ratio: real, o: Outcome) {
    && Rectangular(rows) && |o.keep| == |rows|
    && var n, drop := CountTrue(Flags(rows)), (CountTrue(Flags(rows)) as real * ratio).Floor;
    && 0 <= drop < n && Filtered(Scores(rows), Flags(rows), o.keep, drop) && CountTrue(o.keep) == n - drop
    && IsPeak(rows, o.keep, true, o.teacherPeak) && IsPeak(rows, o.keep, false, o.studentPeak)
  }

  ghost predicate BatchWeighted(rows: seq<Row>, alpha: real, beta: real, o: Outcome) {
    && |o.keep| == |o.weights| == |o.advantages| == |rows|
    && forall i :: 0 <= i < |rows| ==>
         && RowFits(rows[i], |rows[i].mask|)
         && RowOutcome(rows[i], o.keep[i], o.weights[i], o.advantages[i], alpha, beta, o.teacherPeak, o.studentPeak)
  }

  /** Higher Teacher log-probabilities over the same response never make the score smaller. */
  lemma ScoresGrow(a: Row, b: Row)
    requires |a.teacher| == |a.mask| && |b.teacher| == |b.mask| && a.mask == b.mask
    requires forall t :: 0 <= t < |a.mask| && a.mask[t] ==> a.teacher[t] <= b.teacher[t]
    ensures Score(a) <= Score(b)
    ensures (exists t :: 0 <= t < |a.mask| && a.mask[t] && a.teacher[t] < b.teacher[t]) ==> Score(a) < Score(b)
  {
    hide CountTrue, MaskedSum;
    SumGrows(a.teacher, b.teacher, a.mask);
    var n := if CountTrue(a.mask) == 0 then 1 else CountTrue(a.mask);
    QuotientsCompare(MaskedSum(a.teacher, a.mask), MaskedSum(b.teacher, b.mask), n as real);
  }

  /** A trajectory the Teacher finds at least as likely on every response token as a kept one is kept too, unless the
      two tie and it comes first. */
  lemma LikelierIsKept(rows: seq<Row>, ratio: real, o: Outcome, a: nat, b: nat)
    requires BatchFiltered(rows, ratio, o) && a < |rows| && b < |rows| && rows[a].genuine && rows[b].genuine
    requires rows[a].mask == rows[b].mask && |rows[a].teacher| == |rows[b].teacher| == |rows[a].mask|
    requires forall t :: 0 <= t < |rows[a].mask| && rows[a].mask[t] ==> rows[a].teacher[t] <= rows[b].teacher[t]
    requires a < b || exists t :: 0 <= t < |rows[a].mask| && rows[a].mask[t] && rows[a].teacher[t] < rows[b].teacher[t]
    ensures o.keep[a] ==> o.keep[b]
  {
    hide Score, IsPeak, CountTrue, Rectangular;
    ScoresGrow(rows[a], rows[b]);
    assert !o.keep[b] ==> b in Dropped(Flags(rows), o.keep);
  }

  /** The peaks are the largest Teacher and Student entropies of the retained tokens, and at least zero. */
  lemma PeaksAre(rows: seq<Row>, ratio: real, o: Outcome, i: nat, t: nat)
    requires BatchFiltered(rows, ratio, o) && i < |rows| && o.keep[i] && RowFits(rows[i], |rows[i].mask|)
    requires t < |rows[i].mask| && rows[i].mask[t]
    ensures rows[i].teacherEntropy[t] <= o.teacherPeak && rows[i].studentEntropy[t] <= o.studentPeak
    ensures 0.0 <= o.teacherPeak && 0.0 <= o.studentPeak
    ensures o.teacherPeak == 0.0 || exists j: nat, u: nat ::
              PeakAt(rows, o.keep, j, u) && rows[j].teacherEntropy[u] == o.teacherPeak
    ensures o.studentPeak == 0.0 || exists j: nat, u: nat ::
              PeakAt(rows, o.keep, j, u) && rows[j].studentEntropy[u] == o.studentPeak
  {
    hide Filtered, CountTrue;
    assert Retained(rows, o.keep, i, t);
    var j: nat, u: nat :| Retained(rows, o.keep, j, u) && AtLeast(EntropyAt(rows, true, j, u), 0.0) == o.teacherPeak;
    var k: nat, v: nat :| Retained(rows, o.keep, k, v) && AtLeast(EntropyAt(rows, false, k, v), 0.0) == o.studentPeak;
    assert rows[j] in rows && rows[k] in rows;
    assert PeakAt(rows, o.keep, j, u) && PeakAt(rows, o.keep, k, v);
  }

  ghost predicate PeakAt(rows: seq<Row>, keep: seq<bool>, j: nat, u: nat) {
    j < |rows| && j < |keep| && keep[j] && u < |rows[j].mask| && rows[j].mask[u] && RowFits(rows[j], |rows[j].mask|)
  }

  method KeepTrajectories(rows: seq<Row>, ratio: real) returns (keep: seq<bool>)
    requires Rectangular(rows) && 0.0 <= ratio < 1.0 && CountTrue(Flags(rows)) > 0
    requires forall i :: 0 <= i < |rows| && rows[i].genuine ==> CountTrue(rows[i].mask) > 0
    ensures |keep| == |rows|
    ensures var n, drop := CountTrue(Flags(rows)), (CountTrue(Flags(rows)) as real * ratio).Floor;
            0 <= drop < n && Filtered(Scores(rows), Flags(rows), keep, drop) && CountTrue(keep) == n - drop
    ensures forall i :: 0 <= i < |rows| && keep[i] ==> CountTrue(rows[i].mask) > 0
    ensures exists i: nat, t: nat :: Retained(rows, keep, i, t)
  {
    hide Filtered, Score, CountTrue;
    var genuine := Flags(rows);
    var count := CountTrue(genuine);
    FloorBelow(count, ratio);
    var scores := Scores(rows);
    var drop := (count as real * ratio).Floor;
    drop := if count - 1 < drop then count - 1 else drop;
    keep := DropLowest(scores, genuine, drop);
    SomeStay(scores, genuine, keep, drop);
    KeptHaveTokens(rows, keep, scores, drop);
  }

  method WeighBatch(rows: seq<Row>, keep: seq<bool>, alpha: real, beta: real, teacherPeak: real, studentPeak: real)
    returns (o: Outcome)
    requires Rectangular(rows) && |keep| == |rows| && alpha >= 0.0 && beta >= 0.0
    requires forall i :: 0 <= i < |rows| && keep[i] ==> CountTrue(rows[i].mask) > 0
    ensures o.keep == keep && o.teacherPeak == teacherPeak && o.studentPeak == studentPeak
    ensures BatchWeighted(rows, alpha, beta, o)
  {
    hide RowOutcome, CountTrue, RowFits;
    var weights, advantages := [], [];
    for i := 0 to |rows|
      invariant |weights| == |advantages| == i
      invariant forall j :: 0 <= j < i ==>
                  && RowFits(rows[j], |rows[j].mask|)
                  && RowOutcome(rows[j], keep[j], weights[j], advantages[j], alpha, beta, teacherPeak, studentPeak)
    {
      assert rows[i] in rows;
      var w, a := WeighTrajectory(rows[i], keep[i], alpha, beta, teacherPeak, studentPeak);
      weights, advantages := weights + [w], advantages + [a];
    }
    o := Outcome(keep, weights, advantages, teacherPeak, studentPeak);
  }

  method ComputeFireOpdBatch(rows: seq<Row>, ratio: real, alpha: real, beta: real) returns (r: Result<Outcome, FireError>)
    ensures r.Err? ==> Fault(r.error, rows, ratio, alpha, beta)
    ensures r.Ok? ==> forall e :: !Fault(e, rows, ratio, alpha, beta)
    ensures r.Ok? ==> BatchFiltered(rows, ratio, r.value) && BatchWeighted(rows, alpha, beta, r.value)
  {
    hide Filtered, RowOutcome, IsPeak, Score, CountTrue, RowFits, Fault, BatchWeighted, Retained;
    var fault := FindFault(rows, ratio, alpha, beta);
    if fault.Some? {
      return Err(fault.value);
    }
    NoFault(rows, ratio, alpha, beta);
    var keep := KeepTrajectories(rows, ratio);
    var teacherPeak := Peak(rows, keep, true);
    var studentPeak := Peak(rows, keep, false);
    var o := WeighBatch(rows, keep, alpha, beta, teacherPeak, studentPeak);
    r := Ok(o);
  }

  /** What the checks establish. */
  lemma NoFault(rows: seq<Row>, ratio: real, alpha: real, beta: real)
    requires forall e :: !Fault(e, rows, ratio, alpha, beta)
    ensures Rectangular(rows) && 0.0 <= ratio < 1.0 && alpha >= 0.0 && beta >= 0.0
    ensures CountTrue(Flags(rows)) > 0
    ensures forall i :: 0 <= i < |rows| && rows[i].genuine ==> CountTrue(rows[i].mask) > 0
  {
    assert !Fault(BadShape, rows, ratio, alpha, beta) && !Fault(BadRatio, rows, ratio, alpha, beta);
    assert !Fault(BadAlpha, rows, ratio, alpha, beta) && !Fault(BadBeta, rows, ratio, alpha, beta);
    assert !Fault(NoGenuine, rows, ratio, alpha, beta) && !Fault(EmptyGenuine, rows, ratio, alpha, beta);
    var i :| 0 <= i < |rows| && rows[i].genuine;
    GenuineCounted(Flags(rows), i);
  }

  lemma KeptHaveTokens(rows: seq<Row>, keep: seq<bool>, scores: seq<real>, drop: nat)
    requires Filtered(scores, Flags(rows), keep, drop) && drop < CountTrue(Flags(rows))
    requires forall i :: 0 <= i < |rows| && rows[i].genuine ==> CountTrue(rows[i].mask) > 0
    ensures forall i :: 0 <= i < |rows| && keep[i] ==> CountTrue(rows[i].mask) > 0
    ensures exists i: nat, t: nat :: Retained(rows, keep, i, t)
  {
    SomeStay(scores, Flags(rows), keep, drop);
    var i :| 0 <= i < |keep| && keep[i];
    AdmittedToken(rows[i].mask);
    var t :| 0 <= t < |rows[i].mask| && rows[i].mask[t];
    assert Retained(rows, keep, i, t);
  }
}
