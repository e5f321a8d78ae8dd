// A layered attention network reduced to what masking can influence: the next state of a row is an
// unknown function of the layer, the row itself, its position ID, and the ordered list of visible
// rows with their position IDs.

module Attention {

  datatype Net<!S> = Net(embed: (int, int) -> S, update: (nat, S, int, seq<(S, int)>) -> S)

  /** The rows among the first `upto` that row `q` sees, in column order, each with its position ID. */
  function Visible<S>(rows: seq<S>, positions: seq<int>, sees: (int, int) -> bool, q: int, upto: nat): (r: seq<(S, int)>)
    requires upto <= |rows| == |positions|
  {
    if upto == 0 then []
    else
      Visible(rows, positions, sees, q, upto - 1)
      + if sees(q, upto - 1) then [(rows[upto - 1], positions[upto - 1])] else []
  }

  /** All row states after `depth` layers. */
  function States<S>(net: Net<S>, ids: seq<int>, positions: seq<int>, sees: (int, int) -> bool, depth: nat)
    : (rows: seq<S>)
    requires |ids| == |positions|
    ensures |rows| == |ids|
    decreases depth
  {
    if depth == 0 then seq(|ids|, i requires 0 <= i < |ids| => net.embed(ids[i], positions[i]))
    else
      var previous := States(net, ids, positions, sees, depth - 1);
      seq(|ids|, q requires 0 <= q < |ids| =>
        net.update(depth - 1, previous[q], positions[q], Visible(previous, positions, sees, q, |ids|)))
  }

  /** Ordinary left-to-right visibility. */
  predicate Causal(q: int, c: int) {
    c <= q
  }

  function Iota(n: nat): (s: seq<int>)
    ensures |s| == n && forall i :: 0 <= i < n ==> s[i] == i
  {
    seq(n, i => i)
  }

  /** The states of an ordinary causal run over `ids` at positions 0, 1, 2, ... */
  function CausalStates<S>(net: Net<S>, ids: seq<int>, depth: nat): (rows: seq<S>)
    ensures |rows| == |ids|
  {
    States(net, ids, Iota(|ids|), (q, c) => Causal(q, c), depth)
  }

  ghost predicate Increasing(at: seq<nat>) {
    forall c, d :: 0 <= c < d < |at| ==> at[c] < at[d]
  }

  /** `at` places a causal sequence inside a masked one: same token and position IDs, and placed
      row `i` sees exactly the placed rows up to itself. */
  ghost predicate Placed(
    ids: seq<int>, positions: seq<int>, sees: (int, int) -> bool, at: seq<nat>, plainIds: seq<int>)
    requires |ids| == |positions|
  {
    && |at| == |plainIds|
    && Increasing(at)
    && (forall i :: 0 <= i < |at| ==> at[i] < |ids| && ids[at[i]] == plainIds[i] && positions[at[i]] == i)
    && (forall i, c :: 0 <= i < |at| && 0 <= c < |ids| ==>
          (sees(at[i], c) <==> exists j :: 0 <= j <= i && at[j] == c))
  }

  /** A placed row gathers, column by column, what its causal twin gathers. `t` counts the placed
      columns before column `u`. */
  lemma {:induction false} PlacedRowsGatherTheSame<S>(
    rows: seq<S>, positions: seq<int>, sees: (int, int) -> bool, at: seq<nat>, plainIds: seq<int>, ids: seq<int>,
    plainRows: seq<S>, i: nat, u: nat, t: nat)
    requires |ids| == |positions| == |rows| && Placed(ids, positions, sees, at, plainIds)
    requires |plainRows| == |plainIds| && forall k :: 0 <= k < |at| ==> plainRows[k] == rows[at[k]]
    requires i < |at| && u <= |rows| && t <= |at|
    requires t > 0 ==> at[t - 1] < u
    requires t < |at| ==> u <= at[t]
    ensures Visible(rows, positions, sees, at[i], u)
         == Visible(plainRows, Iota(|plainIds|), (q, c) => Causal(q, c), i, t)
    decreases u
  {
    hide Placed, Iota;
    if u > 0 {
      SeenColumn(ids, positions, sees, at, plainIds, i, u, t);
      ColumnsPlaced(ids, positions, sees, at, plainIds, u, t);
      if t > 0 && at[t - 1] == u - 1 {
        PlacedRowsGatherTheSame(rows, positions, sees, at, plainIds, ids, plainRows, i, u - 1, t - 1);
        IotaAt(|plainIds|, t - 1);
      } else {
        PlacedRowsGatherTheSame(rows, positions, sees, at, plainIds, ids, plainRows, i, u - 1, t);
      }
    }
  }

  lemma IotaAt(n: nat, k: nat)
    requires k < n
    ensures Iota(n)[k] == k
  {
  }

  lemma ColumnsPlaced(
    ids: seq<int>, positions: seq<int>, sees: (int, int) -> bool, at: seq<nat>, plainIds: seq<int>, u: nat, t: nat)
    requires |ids| == |positions| && Placed(ids, positions, sees, at, plainIds)
    requires 0 < u <= |ids| && t <= |at|
    ensures |at| == |plainIds|
    ensures t > 0 && at[t - 1] == u - 1 ==> positions[u - 1] == t - 1 && (t > 1 ==> at[t - 2] < u - 1)
  {
  }

  /** A placed row sees a column exactly when one of the placed rows up to itself stands there. */
  lemma SeenColumn(
    ids: seq<int>, positions: seq<int>, sees: (int, int) -> bool, at: seq<nat>, plainIds: seq<int>,
    i: nat, u: nat, t: nat)
    requires |ids| == |positions| && Placed(ids, positions, sees, at, plainIds)
    requires i < |at| && 0 < u <= |ids| && t <= |at|
    requires t > 0 ==> at[t - 1] < u
    requires t < |at| ==> u <= at[t]
    ensures sees(at[i], u - 1) <==> t > 0 && at[t - 1] == u - 1 && t - 1 <= i
  {
    if sees(at[i], u - 1) {
      var j :| 0 <= j <= i && at[j] == u - 1;
      assert forall k :: t <= k < |at| ==> at[t] <= at[k];
      assert forall k :: 0 <= k < t ==> at[k] <= at[t - 1];
    }
  }

  /** Masked packing is exact: at every depth a placed row has the state of its causal twin. */
  lemma {:induction false} PlacedRowsAreCausal<S>(
    net: Net<S>, ids: seq<int>, positions: seq<int>, sees: (int, int) -> bool, at: seq<nat>, plainIds: seq<int>,
    depth: nat)
    requires |ids| == |positions| && Placed(ids, positions, sees, at, plainIds)
    ensures forall i :: 0 <= i < |at| ==>
              States(net, ids, positions, sees, depth)[at[i]] == CausalStates(net, plainIds, depth)[i]
    decreases depth
  {
    if depth > 0 {
      PlacedRowsAreCausal(net, ids, positions, sees, at, plainIds, depth - 1);
      var rows := States(net, ids, positions, sees, depth - 1);
      var plainRows := CausalStates(net, plainIds, depth - 1);
      forall i | 0 <= i < |at|
        ensures States(net, ids, positions, sees, depth)[at[i]] == CausalStates(net, plainIds, depth)[i]
      {
        PlacedRowsGatherTheSame(rows, positions, sees, at, plainIds, ids, plainRows, i, |ids|, |at|);
      }
    }
  }
}
