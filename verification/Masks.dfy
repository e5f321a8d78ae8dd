// Boolean masks over rows or tokens: how many they admit, and sums over what they admit.

module Masks {

  /** The admitted positions. */
  function TrueSet(mask: seq<bool>): (r: set<nat>) {
    set i | 0 <= i < |mask| && mask[i]
  }

  function CountTrue(mask: seq<bool>): (r: nat) {
    if mask == [] then 0 else CountTrue(mask[..|mask| - 1]) + if mask[|mask| - 1] then 1 else 0
  }

  lemma {:induction false} CountIsSize(mask: seq<bool>)
    ensures CountTrue(mask) == |TrueSet(mask)|
  {
    if mask != [] {
      var n := |mask| - 1;
      CountIsSize(mask[..n]);
      assert TrueSet(mask) == TrueSet(mask[..n]) + if mask[n] then {n} else {};
    }
  }

  /** The sum of a row's values over its response tokens. */
  function MaskedSum(values: seq<real>, mask: seq<bool>): (r: real)
    requires |values| == |mask|
  {
    if values == [] then 0.0
    else MaskedSum(values[..|values| - 1], mask[..|mask| - 1]) + if mask[|mask| - 1] then values[|values| - 1] else 0.0
  }

  /** Larger values at the admitted positions never make the sum smaller, and one larger value makes it larger. */
  lemma {:induction false} SumGrows(values: seq<real>, larger: seq<real>, mask: seq<bool>)
    requires |values| == |larger| == |mask|
    requires forall t :: 0 <= t < |mask| && mask[t] ==> values[t] <= larger[t]
    ensures MaskedSum(values, mask) <= MaskedSum(larger, mask)
    ensures (exists t :: 0 <= t < |mask| && mask[t] && values[t] < larger[t]) ==>
              MaskedSum(values, mask) < MaskedSum(larger, mask)
  {
    if mask != [] {
      var n := |mask| - 1;
      SumGrows(values[..n], larger[..n], mask[..n]);
      forall t | 0 <= t < n && mask[t] && values[t] < larger[t]
        ensures MaskedSum(values[..n], mask[..n]) < MaskedSum(larger[..n], mask[..n])
      {
        assert mask[..n][t] && values[..n][t] < larger[..n][t];
      }
    }
  }

  /** A constant added at every admitted position counts once for each of them. */
  lemma {:induction false} SumShifts(values: seq<real>, shifted: seq<real>, mask: seq<bool>, c: real)
    requires |values| == |shifted| == |mask|
    requires forall t :: 0 <= t < |mask| && mask[t] ==> shifted[t] == values[t] + c
    ensures MaskedSum(shifted, mask) == MaskedSum(values, mask) + c * CountTrue(mask) as real
  {
    if mask != [] {
      var n := |mask| - 1;
      SumShifts(values[..n], shifted[..n], mask[..n], c);
      LastOf(values, mask);
      LastOf(shifted, mask);
      hide MaskedSum, CountTrue;
      OnceMore(c, CountTrue(mask[..n]));
    }
  }

  lemma LastOf(values: seq<real>, mask: seq<bool>)
    requires |values| == |mask| && mask != []
    ensures var n := |mask| - 1;
            && MaskedSum(values, mask) == MaskedSum(values[..n], mask[..n]) + (if mask[n] then values[n] else 0.0)
            && CountTrue(mask) == CountTrue(mask[..n]) + if mask[n] then 1 else 0
  {
  }

  lemma OnceMore(c: real, n: nat)
    ensures c * (n + 1) as real == c * n as real + c
  {
    assert (n + 1) as real == n as real + 1.0;
  }

  /** Quotients by the same positive number compare as their dividends do. */
  lemma QuotientsCompare(a: real, b: real, p: real)
    requires p > 0.0
    ensures a <= b ==> a / p <= b / p
    ensures a < b ==> a / p < b / p
  {
    var x, y := a / p, b / p;
    assert x * p == a && y * p == b;
    assert x > y ==> x * p > y * p;
  }

  /** A mean shifts by what is added to every value. */
  lemma MeanShifts(sum: real, c: real, n: real)
    requires n > 0.0
    ensures (sum + c * n) / n == sum / n + c
  {
    var x := sum / n;
    assert x * n == sum;
    assert (x + c) * n == sum + c * n;
  }
}
