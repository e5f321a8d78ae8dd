// Balanced subsampling of rollouts, per-group margin calibration, and loss normalization.

module UniOpd {
  import opened Common
  import opened Masks
  import opened Sets

  /** The rows of one prompt group that the mask admits. */
  function InGroup(mask: seq<bool>, ids: seq<string>, g: string): (r: set<nat>) {
    set i | 0 <= i < |mask| && i < |ids| && mask[i] && ids[i] == g
  }

  /** Group identifiers in order of first occurrence. */
  function OrderedGroups(ids: seq<string>): (r: seq<string>)
    ensures forall g :: g in r <==> g in ids
    ensures forall i, j :: 0 <= i < j < |r| ==> r[i] != r[j]
  {
    if ids == [] then []
    else
      var n := |ids| - 1;
      var before := OrderedGroups(ids[..n]);
      assert ids == ids[..n] + [ids[n]];
      if ids[n] in before then before else before + [ids[n]]
  }

  // ---- round-robin subsampling ---------------------------------------------------------------------------------

  datatype SampleError = BadKeepCount | Exhausted

  /** Shuffled pools: each lists exactly the candidates of its group, none twice. */
  ghost predicate IsPool(pool: seq<nat>, mask: seq<bool>, ids: seq<string>, g: string) {
    && (forall a, b :: 0 <= a < b < |pool| ==> pool[a] != pool[b])
    && (forall i :: i in pool <==> i in InGroup(mask, ids, g))
  }

  ghost predicate ArePools(pools: map<string, seq<nat>>, mask: seq<bool>, ids: seq<string>) {
    forall g :: g in ids ==> g in pools && IsPool(pools[g], mask, ids, g)
  }

  /** Any order of all groups. */
  ghost predicate IsOrder(order: seq<string>, ids: seq<string>) {
    && (forall g :: g in order <==> g in ids)
    && (forall a, b :: 0 <= a < b < |order| ==> order[a] != order[b])
  }

  /** A group may trail another by more than one pick only when its own candidates are used up. */
  ghost predicate Fair(selected: seq<bool>, mask: seq<bool>, ids: seq<string>) {
    forall g, h :: |InGroup(selected, ids, g)| + 1 < |InGroup(selected, ids, h)| ==>
      InGroup(selected, ids, g) == InGroup(mask, ids, g)
  }

  /** Exactly `keep` candidates, spread evenly. */
  ghost predicate GoodSample(selected: seq<bool>, mask: seq<bool>, ids: seq<string>, keep: int) {
    && |selected| == |mask| && TrueSet(selected) <= TrueSet(mask) && |TrueSet(selected)| == keep
    && Fair(selected, mask, ids)
  }

  /** After `round` full rounds, with the groups of `done` already served in the next one. */
  function Quota(g: string, done: set<string>, round: nat, size: nat): (r: nat) {
    var turns := if g in done then round + 1 else round;
    if turns < size then turns else size
  }

  ghost predicate PickedFrom(i: nat, g: string, offsets: map<string, nat>, pools: map<string, seq<nat>>) {
    g in pools && g in offsets && offsets[g] <= |pools[g]| && i in pools[g][..offsets[g]]
  }

  ghost predicate Picked(i: nat, offsets: map<string, nat>, pools: map<string, seq<nat>>, ids: seq<string>) {
    exists g :: g in ids && PickedFrom(i, g, offsets, pools)
  }

  ghost predicate OnQuota(
    g: string, offsets: map<string, nat>, pools: map<string, seq<nat>>, done: set<string>, round: nat)
  {
    g in pools && g in offsets && offsets[g] == Quota(g, done, round, |pools[g]|)
  }

  ghost predicate Distinct(picks: seq<nat>) {
    forall a, b :: 0 <= a < b < |picks| ==> picks[a] != picks[b]
  }

  /** The picks so far: the first `offsets[g]` of every pool, nothing twice. */
  ghost predicate Drawn(
    picks: seq<nat>, offsets: map<string, nat>, pools: map<string, seq<nat>>, ids: seq<string>, done: set<string>,
    round: nat)
  {
    && (forall g :: g in ids ==> OnQuota(g, offsets, pools, done, round))
    && Distinct(picks)
    && (forall i :: i in picks <==> Picked(i, offsets, pools, ids))
  }

  lemma DrawnStart(pools: map<string, seq<nat>>, ids: seq<string>, offsets: map<string, nat>)
    requires forall g :: g in ids ==> g in pools && g in offsets && offsets[g] == 0
    ensures Drawn([], offsets, pools, ids, {}, 0)
  {
  }

  /** A group with nothing left is passed over. */
  lemma DrawSkips(
    picks: seq<nat>, offsets: map<string, nat>, pools: map<string, seq<nat>>, ids: seq<string>, done: set<string>,
    round: nat, g: string)
    requires Drawn(picks, offsets, pools, ids, done, round) && g in ids && g !in done
    requires g in pools && g in offsets && offsets[g] >= |pools[g]|
    ensures Drawn(picks, offsets, pools, ids, done + {g}, round)
  {
    assert OnQuota(g, offsets, pools, done, round);
    forall h | h in ids ensures OnQuota(h, offsets, pools, done + {g}, round) {
      assert OnQuota(h, offsets, pools, done, round);
    }
  }

  /** Otherwise its next candidate is drawn; it was not drawn before. */
  lemma DrawTakes(
    picks: seq<nat>, offsets: map<string, nat>, pools: map<string, seq<nat>>, mask: seq<bool>, ids: seq<string>,
    done: set<string>, round: nat, g: string, next: nat, offsets': map<string, nat>)
    requires |ids| == |mask| && ArePools(pools, mask, ids)
    requires Drawn(picks, offsets, pools, ids, done, round) && g in ids && g !in done
    requires g in pools && g in offsets && offsets[g] < |pools[g]| && next == pools[g][offsets[g]]
    requires offsets' == offsets[g := offsets[g] + 1]
    ensures Drawn(picks + [next], offsets', pools, ids, done + {g}, round)
  {
    assert OnQuota(g, offsets, pools, done, round);
    forall h | h in ids ensures OnQuota(h, offsets', pools, done + {g}, round) {
      assert OnQuota(h, offsets, pools, done, round);
    }
    NextIsNew(picks, offsets, pools, mask, ids, g, next);
    assert pools[g][..offsets[g] + 1] == pools[g][..offsets[g]] + [next];
    forall i | i in picks + [next] ensures Picked(i, offsets', pools, ids) {
      if i in picks {
        var h :| h in ids && PickedFrom(i, h, offsets, pools);
        assert PickedFrom(i, h, offsets', pools);
      } else {
        assert PickedFrom(next, g, offsets', pools);
      }
    }
    forall i | Picked(i, offsets', pools, ids) ensures i in picks + [next] {
      var h :| h in ids && PickedFrom(i, h, offsets', pools);
      if !(h == g && i == next) {
        assert PickedFrom(i, h, offsets, pools);
      }
    }
  }

  lemma NextIsNew(
    picks: seq<nat>, offsets: map<string, nat>, pools: map<string, seq<nat>>, mask: seq<bool>, ids: seq<string>,
    g: string, next: nat)
    requires |ids| == |mask| && ArePools(pools, mask, ids) && g in ids
    requires forall i :: i in picks <==> Picked(i, offsets, pools, ids)
    requires g in pools && g in offsets && offsets[g] < |pools[g]| && next == pools[g][offsets[g]]
    ensures next !in picks
  {
    assert IsPool(pools[g], mask, ids, g) && next in pools[g];
    forall h | h in ids ensures !PickedFrom(next, h, offsets, pools) {
      assert IsPool(pools[h], mask, ids, h);
      if h == g {
        assert forall a :: 0 <= a < offsets[g] ==> pools[g][..offsets[g]][a] == pools[g][a];
      } else {
        assert next !in pools[h];
        if PickedFrom(next, h, offsets, pools) {
          PrefixMember(pools[h], offsets[h], next);
        }
      }
    }
  }

  lemma PrefixMember(xs: seq<nat>, n: nat, x: nat)
    requires n <= |xs| && x in xs[..n]
    ensures x in xs
  {
  }

  // ---- which rows that are -------------------------------------------------------------------------------------

  /** Row `i` comes at place `j` in the pool of the `k`-th group, and that many turns came to it: `round` for each
      group, one more for the first `extra` of the order. */
  ghost predicate TurnAt(
    i: nat, k: nat, j: nat, order: seq<string>, pools: map<string, seq<nat>>, round: nat, extra: nat)
  {
    && k < |order| && order[k] in pools && j < |pools[order[k]]| && pools[order[k]][j] == i
    && j < if k < extra then round + 1 else round
  }

  ghost predicate HasTurn(i: nat, order: seq<string>, pools: map<string, seq<nat>>, round: nat, extra: nat) {
    exists k: nat, j: nat :: TurnAt(i, k, j, order, pools, round, extra)
  }

  /** Drawn in turn from the shuffled pools, groups in their shuffled order. */
  ghost predicate RoundRobin(
    selected: seq<bool>, order: seq<string>, pools: map<string, seq<nat>>, round: nat, extra: nat)
  {
    extra <= |order| && forall i: nat :: i < |selected| ==> (selected[i] <==> HasTurn(i, order, pools, round, extra))
  }

  lemma LaterHasMore(
    a: seq<bool>, b: seq<bool>, order: seq<string>, pools: map<string, seq<nat>>, round: nat, extra: nat, round': nat,
    extra': nat)
    requires |a| == |b| && RoundRobin(a, order, pools, round, extra) && RoundRobin(b, order, pools, round', extra')
    requires round < round' || (round == round' && extra <= extra')
    ensures TrueSet(a) <= TrueSet(b)
  {
    forall i | i in TrueSet(a) ensures i in TrueSet(b) {
      var k: nat, j: nat :| TurnAt(i, k, j, order, pools, round, extra);
      assert TurnAt(i, k, j, order, pools, round', extra');
    }
  }

  /** Shuffles and number leave one possible sample. */
  lemma RoundRobinIsUnique(
    a: seq<bool>, b: seq<bool>, order: seq<string>, pools: map<string, seq<nat>>, round: nat, extra: nat, round': nat,
    extra': nat)
    requires |a| == |b| && RoundRobin(a, order, pools, round, extra) && RoundRobin(b, order, pools, round', extra')
    requires |TrueSet(a)| == |TrueSet(b)|
    ensures a == b
  {
    hide RoundRobin;
    if round < round' || (round == round' && extra <= extra') {
      LaterHasMore(a, b, order, pools, round, extra, round', extra');
      SameSize(TrueSet(a), TrueSet(b));
    } else {
      LaterHasMore(b, a, order, pools, round', extra', round, extra);
      SameSize(TrueSet(b), TrueSet(a));
    }
    forall i | 0 <= i < |a| ensures a[i] == b[i] {
      assert i in TrueSet(a) <==> i in TrueSet(b);
    }
  }

  lemma DrawnInTurn(
    picks: seq<nat>, offsets: map<string, nat>, pools: map<string, seq<nat>>, mask: seq<bool>, ids: seq<string>,
    done: set<string>, round: nat, order: seq<string>, extra: nat, selected: seq<bool>)
    requires |ids| == |mask| == |selected| && IsOrder(order, ids) && Drawn(picks, offsets, pools, ids, done, round)
    requires extra <= |order| && forall k :: 0 <= k < |order| ==> (order[k] in done <==> k < extra)
    requires forall i :: 0 <= i < |mask| ==> (selected[i] <==> i in picks)
    ensures RoundRobin(selected, order, pools, round, extra)
  {
    hide Distinct;
    forall i: nat | i < |selected| ensures selected[i] <==> HasTurn(i, order, pools, round, extra) {
      if selected[i] {
        var g :| g in ids && PickedFrom(i, g, offsets, pools);
        var k: nat :| k < |order| && order[k] == g;
        assert OnQuota(g, offsets, pools, done, round);
        var j: nat :| j < offsets[g] && pools[g][j] == i;
        assert TurnAt(i, k, j, order, pools, round, extra);
      }
      if HasTurn(i, order, pools, round, extra) {
        var k: nat, j: nat :| TurnAt(i, k, j, order, pools, round, extra);
        var g := order[k];
        assert g in order && OnQuota(g, offsets, pools, done, round);
        assert pools[g][..offsets[g]][j] == i;
        assert PickedFrom(i, g, offsets, pools);
      }
    }
  }

  lemma NoneInTurn(none: seq<bool>, order: seq<string>, pools: map<string, seq<nat>>)
    requires forall i :: 0 <= i < |none| ==> !none[i]
    ensures RoundRobin(none, order, pools, 0, 0)
  {
  }

  lemma AllInTurn(mask: seq<bool>, ids: seq<string>, order: seq<string>, pools: map<string, seq<nat>>)
    requires |ids| == |mask| && IsOrder(order, ids) && ArePools(pools, mask, ids)
    ensures RoundRobin(mask, order, pools, |TrueSet(mask)|, 0)
  {
    forall i: nat | i < |mask| ensures mask[i] <==> HasTurn(i, order, pools, |TrueSet(mask)|, 0) {
      if mask[i] {
        var g := ids[i];
        assert IsPool(pools[g], mask, ids, g) && i in pools[g] && g in order;
        var k: nat :| k < |order| && order[k] == g;
        var j: nat :| j < |pools[g]| && pools[g][j] == i;
        PoolFits(pools[g], mask, ids, g);
        assert TurnAt(i, k, j, order, pools, |TrueSet(mask)|, 0);
      }
      if HasTurn(i, order, pools, |TrueSet(mask)|, 0) {
        var k: nat, j: nat :| TurnAt(i, k, j, order, pools, |TrueSet(mask)|, 0);
        assert order[k] in order && IsPool(pools[order[k]], mask, ids, order[k]) && i in pools[order[k]];
      }
    }
  }

  lemma PoolFits(pool: seq<nat>, mask: seq<bool>, ids: seq<string>, g: string)
    requires IsPool(pool, mask, ids, g)
    ensures |pool| <= |TrueSet(mask)|
  {
    DistinctSize(pool);
    assert SetOf(pool) <= TrueSet(mask);
    SubsetIsSmaller(SetOf(pool), TrueSet(mask));
  }

  /** One pass over all groups, cut short when the quota is filled. */
  method DrawRound(
    mask: seq<bool>, ids: seq<string>, keep: nat, order: seq<string>, pools: map<string, seq<nat>>,
    picks: seq<nat>, offsets: map<string, nat>, ghost round: nat)
    returns (picks': seq<nat>, offsets': map<string, nat>, ghost done: set<string>, ghost served: nat)
    requires |ids| == |mask| && ArePools(pools, mask, ids) && IsOrder(order, ids)
    requires Drawn(picks, offsets, pools, ids, {}, round) && |picks| < keep
    ensures Drawn(picks', offsets', pools, ids, done, round)
    ensures |picks| <= |picks'| <= keep
    ensures served <= |order| && forall k :: 0 <= k < |order| ==> (order[k] in done <==> k < served)
    ensures |picks'| < keep ==> forall g :: g in ids ==> g in done
    ensures |picks'| == |picks| ==> offsets' == offsets && forall g :: g in ids ==> g in offsets && g in pools && offsets[g] == |pools[g]|
  {
    picks', offsets', done, served := picks, offsets, {}, |order|;
    for i := 0 to |order|
      invariant Drawn(picks', offsets', pools, ids, done, round)
      invariant |picks| <= |picks'| < keep
      invariant forall g :: g in done <==> g in order[..i]
      invariant |picks'| == |picks| ==> offsets' == offsets
      invariant |picks'| == |picks| ==>
                  forall g :: g in done ==> g in offsets && g in pools && offsets[g] == |pools[g]|
    {
      var g := order[i];
      assert g in order && g in ids;
      assert g !in done;
      assert OnQuota(g, offsets', pools, done, round);
      assert order[..i + 1] == order[..i] + [g];
      var offset := offsets'[g];
      if offset >= |pools[g]| {
        DrawSkips(picks', offsets', pools, ids, done, round, g);
        done := done + {g};
        continue;
      }
      DrawTakes(picks', offsets', pools, mask, ids, done, round, g, pools[g][offset], offsets'[g := offset + 1]);
      picks' := picks' + [pools[g][offset]];
      offsets' := offsets'[g := offset + 1];
      done := done + {g};
      if |picks'| == keep {
        served := i + 1;
        ServedFirst(order, done, served);
        return;
      }
    }
    assert order[..|order|] == order;
    ServedFirst(order, done, |order|);
  }

  lemma ServedFirst(order: seq<string>, done: set<string>, served: nat)
    requires served <= |order| && (forall a, b :: 0 <= a < b < |order| ==> order[a] != order[b])
    requires forall g :: g in done <==> g in order[..served]
    ensures forall k :: 0 <= k < |order| ==> (order[k] in done <==> k < served)
  {
    forall k | 0 <= k < |order| ensures order[k] in done <==> k < served {
      assert k < served ==> order[..served][k] == order[k];
      if order[k] in order[..served] {
        var a :| 0 <= a < served && order[..served][a] == order[k];
        assert order[a] == order[k];
      }
    }
  }

  lemma NextRound(
    picks: seq<nat>, offsets: map<string, nat>, pools: map<string, seq<nat>>, ids: seq<string>, done: set<string>,
    round: nat)
    requires Drawn(picks, offsets, pools, ids, done, round) && forall g :: g in ids ==> g in done
    ensures Drawn(picks, offsets, pools, ids, {}, round + 1)
  {
    forall g | g in ids ensures OnQuota(g, offsets, pools, {}, round + 1) {
      assert OnQuota(g, offsets, pools, done, round);
    }
  }

  ghost function SetOf(picks: seq<nat>): (r: set<nat>) {
    set i | i in picks
  }

  lemma {:induction false} DistinctSize(picks: seq<nat>)
    requires Distinct(picks)
    ensures |SetOf(picks)| == |picks|
  {
    if picks != [] {
      var n := |picks| - 1;
      assert picks == picks[..n] + [picks[n]];
      DistinctSize(picks[..n]);
      assert SetOf(picks) == SetOf(picks[..n]) + {picks[n]};
      assert picks[n] !in picks[..n];
    }
  }

  /** Drawn picks are candidates; if every pool is used up they are all the candidates. */
  lemma DrawnAreCandidates(
    picks: seq<nat>, offsets: map<string, nat>, pools: map<string, seq<nat>>, mask: seq<bool>, ids: seq<string>,
    done: set<string>, round: nat)
    requires |ids| == |mask| && ArePools(pools, mask, ids) && Drawn(picks, offsets, pools, ids, done, round)
    ensures SetOf(picks) <= TrueSet(mask)
    ensures (forall g :: g in ids ==> g in offsets && g in pools && offsets[g] == |pools[g]|) ==> SetOf(picks) == TrueSet(mask)
  {
    forall i | i in picks ensures i in TrueSet(mask) {
      var g :| g in ids && PickedFrom(i, g, offsets, pools);
      assert IsPool(pools[g], mask, ids, g);
      PrefixMember(pools[g], offsets[g], i);
    }
    if forall g :: g in ids ==> g in offsets && g in pools && offsets[g] == |pools[g]| {
      forall i | i in TrueSet(mask) ensures i in picks {
        var g := ids[i];
        assert g in ids && IsPool(pools[g], mask, ids, g);
        assert i in pools[g];
        assert pools[g][..offsets[g]] == pools[g];
        assert PickedFrom(i, g, offsets, pools);
      }
    }
  }

  /** Fewer picks than candidates: some pool is not used up, so a pass makes progress. */
  lemma PassMakesProgress(
    picks: seq<nat>, offsets: map<string, nat>, pools: map<string, seq<nat>>, mask: seq<bool>, ids: seq<string>,
    done: set<string>, round: nat)
    requires |ids| == |mask| && ArePools(pools, mask, ids) && Drawn(picks, offsets, pools, ids, done, round)
    requires |picks| < |TrueSet(mask)|
    ensures !(forall g :: g in ids ==> g in offsets && g in pools && offsets[g] == |pools[g]|)
  {
    DrawnAreCandidates(picks, offsets, pools, mask, ids, done, round);
    DistinctSize(picks);
  }

  /** How many picks a group got. */
  lemma GroupShare(
    picks: seq<nat>, offsets: map<string, nat>, pools: map<string, seq<nat>>, mask: seq<bool>, ids: seq<string>,
    done: set<string>, round: nat, selected: seq<bool>, g: string)
    requires |ids| == |mask| == |selected| && ArePools(pools, mask, ids) && Drawn(picks, offsets, pools, ids, done, round)
    requires forall i :: 0 <= i < |mask| ==> (selected[i] <==> i in picks)
    ensures g in ids ==>
              OnQuota(g, offsets, pools, done, round) && |InGroup(selected, ids, g)| == offsets[g]
              && (offsets[g] == |pools[g]| ==> InGroup(selected, ids, g) == InGroup(mask, ids, g))
    ensures g !in ids ==> InGroup(selected, ids, g) == {}
  {
    if g in ids {
      assert OnQuota(g, offsets, pools, done, round) && IsPool(pools[g], mask, ids, g);
      var prefix := pools[g][..offsets[g]];
      assert Distinct(prefix);
      DistinctSize(prefix);
      forall i | i in prefix ensures i in InGroup(selected, ids, g) {
        PrefixMember(pools[g], offsets[g], i);
        assert PickedFrom(i, g, offsets, pools);
      }
      forall i | i in InGroup(selected, ids, g) ensures i in prefix {
        var h :| h in ids && PickedFrom(i, h, offsets, pools);
        PrefixMember(pools[h], offsets[h], i);
        assert IsPool(pools[h], mask, ids, h);
      }
      assert InGroup(selected, ids, g) == SetOf(prefix);
      if offsets[g] == |pools[g]| {
        assert prefix == pools[g];
      }
    }
  }

  lemma DrawnIsGood(
    picks: seq<nat>, offsets: map<string, nat>, pools: map<string, seq<nat>>, mask: seq<bool>, ids: seq<string>,
    done: set<string>, round: nat, selected: seq<bool>)
    requires |ids| == |mask| == |selected| && ArePools(pools, mask, ids) && Drawn(picks, offsets, pools, ids, done, round)
    requires forall i :: 0 <= i < |mask| ==> (selected[i] <==> i in picks)
    ensures GoodSample(selected, mask, ids, |picks|)
  {
    DrawnAreCandidates(picks, offsets, pools, mask, ids, done, round);
    DistinctSize(picks);
    assert TrueSet(selected) == SetOf(picks);
    forall g, h | |InGroup(selected, ids, g)| + 1 < |InGroup(selected, ids, h)|
      ensures InGroup(selected, ids, g) == InGroup(mask, ids, g)
    {
      GroupShare(picks, offsets, pools, mask, ids, done, round, selected, g);
      GroupShare(picks, offsets, pools, mask, ids, done, round, selected, h);
      if g !in ids {
        assert InGroup(mask, ids, g) == {};
      }
    }
  }

  lemma AllIsGood(mask: seq<bool>, ids: seq<string>)
    ensures GoodSample(mask, mask, ids, |TrueSet(mask)|)
  {
  }

  lemma NoneIsGood(mask: seq<bool>, ids: seq<string>, none: seq<bool>)
    requires |none| == |mask| && forall i :: 0 <= i < |none| ==> !none[i]
    ensures GoodSample(none, mask, ids, 0)
  {
    assert TrueSet(none) == {};
    forall g ensures InGroup(none, ids, g) == {} {
    }
  }

  /** Every group gets a pick before any gets a second one, whatever the shuffles; running out of candidates
      before the quota is filled cannot happen. */
  method UniformGroupSubsample(
    mask: seq<bool>, ids: seq<string>, keep: int, order: seq<string>, pools: map<string, seq<nat>>)
    returns (r: Result<seq<bool>, SampleError>)
    requires |ids| == |mask| && ArePools(pools, mask, ids) && IsOrder(order, ids)
    ensures r.Ok? <==> 0 <= keep <= |TrueSet(mask)|
    ensures r.Err? ==> r.error == BadKeepCount
    ensures r.Ok? ==> GoodSample(r.value, mask, ids, keep)
    ensures r.Ok? ==> exists round: nat, extra: nat :: RoundRobin(r.value, order, pools, round, extra)
  {
    hide RoundRobin, Drawn, GoodSample, IsPool, IsOrder;
    var count := CountTrue(mask);
    CountIsSize(mask);
    if !(0 <= keep <= count) {
      return Err(BadKeepCount);
    }
    if keep == 0 {
      NoneIsGood(mask, ids, seq(|mask|, i => false));
      NoneInTurn(seq(|mask|, i => false), order, pools);
      return Ok(seq(|mask|, i => false));
    }
    if keep == count {
      AllIsGood(mask, ids);
      AllInTurn(mask, ids, order, pools);
      return Ok(mask);
    }
    var picks: seq<nat> := [];
    var offsets: map<string, nat> := map g | g in ids :: 0;
    ghost var round: nat, done: set<string>, served: nat := 0, {}, 0;
    DrawnStart(pools, ids, offsets);
    while |picks| < keep
      invariant Drawn(picks, offsets, pools, ids, done, round)
      invariant |picks| < keep ==> done == {} && served == 0
      invariant served <= |order| && forall k :: 0 <= k < |order| ==> (order[k] in done <==> k < served)
      invariant |picks| <= keep
      decreases keep - |picks|
    {
      ghost var before := offsets;
      var drawn := |picks|;
      PassMakesProgress(picks, offsets, pools, mask, ids, {}, round);
      picks, offsets, done, served := DrawRound(mask, ids, keep, order, pools, picks, offsets, round);
      if |picks| == drawn {
        return Err(Exhausted);
      }
      if |picks| < keep {
        NextRound(picks, offsets, pools, ids, done, round);
        done, round, served := {}, round + 1, 0;
      }
    }
    var selected := seq(|mask|, i => i in picks);
    DrawnIsGood(picks, offsets, pools, mask, ids, done, round, selected);
    DrawnInTurn(picks, offsets, pools, mask, ids, done, round, order, served, selected);
    return Ok(selected);
  }

  // ---- one-to-one balancing -----------------------------------------------------------------------------------

  datatype BalanceError = EmptyBatch | IdsMismatch | BadRatio | BadSample(cause: SampleError)

  function Negated(mask: seq<bool>): (r: seq<bool>)
    ensures |r| == |mask| && forall i :: 0 <= i < |r| ==> r[i] == !mask[i]
  {
    seq(|mask|, i requires 0 <= i < |mask| => !mask[i])
  }

  function Either(a: seq<bool>, b: seq<bool>): (r: seq<bool>)
    requires |a| == |b|
    ensures |r| == |a| && forall i :: 0 <= i < |r| ==> r[i] == (a[i] || b[i])
  {
    seq(|a|, i requires 0 <= i < |a| => a[i] || b[i])
  }

  /** Kept rows that are (in)correct. */
  function KeptWith(keep: seq<bool>, correct: seq<bool>, value: bool): (r: set<nat>) {
    set i | 0 <= i < |keep| && i < |correct| && keep[i] && correct[i] == value
  }

  lemma {:induction false} ClassCounts(correct: seq<bool>)
    ensures CountTrue(correct) + CountTrue(Negated(correct)) == |correct|
  {
    if correct != [] {
      var n := |correct| - 1;
      ClassCounts(correct[..n]);
      assert Negated(correct)[..n] == Negated(correct[..n]);
    }
  }

  lemma ClassSizes(correct: seq<bool>)
    ensures |TrueSet(correct)| + |TrueSet(Negated(correct))| == |correct|
  {
    ClassCounts(correct);
    CountIsSize(correct);
    CountIsSize(Negated(correct));
  }

  /** The minority and an equally large sample of the majority. */
  lemma MixedBatch(correct: seq<bool>, majorityIsCorrect: bool, majority: seq<bool>, retained: seq<bool>, ids: seq<string>, size: nat)
    requires |ids| == |correct| && majority == (if majorityIsCorrect then correct else Negated(correct))
    requires size == |TrueSet(Negated(majority))| && GoodSample(retained, majority, ids, size)
    ensures var keep := Either(Negated(majority), retained);
            && |KeptWith(keep, correct, true)| == |KeptWith(keep, correct, false)| == size
            && KeptWith(keep, correct, !majorityIsCorrect) == TrueSet(Negated(majority))
            && KeptWith(keep, correct, majorityIsCorrect) == TrueSet(retained)
  {
    var keep := Either(Negated(majority), retained);
    forall i | i in TrueSet(retained) ensures i in KeptWith(keep, correct, majorityIsCorrect) {
      assert i in TrueSet(majority);
    }
    assert KeptWith(keep, correct, majorityIsCorrect) == TrueSet(retained);
    forall i | i in KeptWith(keep, correct, !majorityIsCorrect) ensures i in TrueSet(Negated(majority)) {
      assert retained[i] ==> i in TrueSet(retained);
    }
    assert KeptWith(keep, correct, !majorityIsCorrect) == TrueSet(Negated(majority));
  }

  predicate CloseToHalf(ratio: real) {
    -0.000000000001 <= ratio - 0.5 <= 0.000000000001
  }

  /** A one-class or already balanced batch is kept whole; otherwise the minority is kept whole, with as many of the
      majority, spread evenly over the groups. */
  ghost predicate Balanced(correct: seq<bool>, ids: seq<string>, keep: seq<bool>)
    requires |ids| == |correct|
  {
    var c, w := |TrueSet(correct)|, |TrueSet(Negated(correct))|;
    && |keep| == |correct|
    && (c == 0 || w == 0 || c == w ==> forall i :: 0 <= i < |correct| ==> keep[i])
    && (c > 0 && w > 0 ==> |KeptWith(keep, correct, true)| == |KeptWith(keep, correct, false)|)
    && (0 < c < w ==> forall i :: 0 <= i < |correct| && correct[i] ==> keep[i])
    && (0 < w < c ==> forall i :: 0 <= i < |correct| && !correct[i] ==> keep[i])
    && (c > 0 && w > 0 && c != w ==>
          exists sample :: |sample| == |correct|
            && GoodSample(sample, if c > w then correct else Negated(correct), ids, if c > w then w else c)
            && keep == Either(if c > w then Negated(correct) else correct, sample))
  }

  /** Of the majority in a mixed batch, exactly the rows drawn in turn are kept. */
  ghost predicate DrawnFairly(
    correct: seq<bool>, order: seq<string>, pools: map<string, seq<nat>>, keep: seq<bool>)
  {
    var c, w := |TrueSet(correct)|, |TrueSet(Negated(correct))|;
    c > 0 && w > 0 && c != w ==>
      exists sample, round: nat, extra: nat :: RoundRobin(sample, order, pools, round, extra) && |sample| == |correct| == |keep|
        && forall i :: 0 <= i < |correct| && correct[i] == (c > w) ==> keep[i] == sample[i]
  }

  /** A one-class or already balanced batch is kept whole; otherwise the minority is kept whole and the
      majority is cut down to the same size, evenly over the prompt groups. */
  method SelectCorrectnessBalancedRollouts(
    correct: seq<bool>, ids: seq<string>, ratio: real, order: seq<string>, pools: map<string, seq<nat>>)
    returns (r: Result<seq<bool>, BalanceError>)
    requires |ids| == |correct| ==>
               IsOrder(order, ids) &&
               ArePools(pools, if |TrueSet(correct)| > |TrueSet(Negated(correct))| then correct else Negated(correct), ids)
    ensures r.Ok? <==> correct != [] && |ids| == |correct| && 0.499999999999 <= ratio <= 0.500000000001
    ensures r.Ok? ==> Balanced(correct, ids, r.value)
    ensures r.Ok? ==> DrawnFairly(correct, order, pools, r.value)
  {
    hide RoundRobin;
    if correct == [] {
      return Err(EmptyBatch);
    }
    if |ids| != |correct| {
      return Err(IdsMismatch);
    }
    if !CloseToHalf(ratio) {
      return Err(BadRatio);
    }
    var correctCount := CountTrue(correct);
    var incorrectCount := |correct| - correctCount;
    CountIsSize(correct);
    ClassSizes(correct);
    if correctCount == 0 || incorrectCount == 0 || correctCount == incorrectCount {
      r := Ok(seq(|correct|, i => true));
      WholeBatch(correct, r.value);
      return;
    }
    var majorityIsCorrect := correctCount > incorrectCount;
    var majority := if majorityIsCorrect then correct else Negated(correct);
    var minority := Negated(majority);
    CountIsSize(minority);
    assert !majorityIsCorrect ==> minority == correct;
    var retained := UniformGroupSubsample(majority, ids, CountTrue(minority), order, pools);
    if retained.Err? {
      return Err(BadSample(BadKeepCount));
    }
    MixedBatch(correct, majorityIsCorrect, majority, retained.value, ids, CountTrue(minority));
    return Ok(Either(minority, retained.value));
  }

  lemma WholeBatch(correct: seq<bool>, all: seq<bool>)
    requires |all| == |correct| && forall i :: 0 <= i < |all| ==> all[i]
    ensures KeptWith(all, correct, true) == TrueSet(correct)
    ensures KeptWith(all, correct, false) == TrueSet(Negated(correct))
  {
  }

  // ---- group margins -------------------------------------------------------------------------------------------

  function SumAt(values: seq<real>, at: seq<nat>): (r: real)
    requires forall k :: 0 <= k < |at| ==> at[k] < |values|
  {
    if at == [] then 0.0 else SumAt(values, at[..|at| - 1]) + values[at[|at| - 1]]
  }

  function MeanAt(values: seq<real>, at: seq<nat>): (r: real)
    requires at != [] && forall k :: 0 <= k < |at| ==> at[k] < |values|
  {
    SumAt(values, at) / (|at| as real)
  }

  /** The kept rows of group `g` with the given correctness, in order. */
  function ClassOf(keep: seq<bool>, correct: seq<bool>, ids: seq<string>, g: string, value: bool, n: nat): (r: seq<nat>)
    requires n <= |keep| == |correct| == |ids|
    ensures forall i: nat :: i in r <==> i < n && keep[i] && ids[i] == g && correct[i] == value
    ensures forall k :: 0 <= k < |r| ==> r[k] < n && keep[r[k]] && ids[r[k]] == g && correct[r[k]] == value
  {
    if n == 0 then []
    else
      ClassOf(keep, correct, ids, g, value, n - 1)
      + if keep[n - 1] && ids[n - 1] == g && correct[n - 1] == value then [n - 1] else []
  }

  lemma {:induction false} ShiftedSum(values: seq<real>, shifted: seq<real>, at: seq<nat>, shift: real)
    requires |values| == |shifted| && forall k :: 0 <= k < |at| ==> at[k] < |values|
    requires forall k :: 0 <= k < |at| ==> shifted[at[k]] == values[at[k]] + shift
    ensures SumAt(shifted, at) == SumAt(values, at) + (|at| as real) * shift
  {
    if at != [] {
      var n := |at| - 1;
      ShiftedSum(values, shifted, at[..n], shift);
      assert (|at| as real) * shift == (n as real) * shift + shift;
    }
  }

  /** Shifting all members shifts the mean. */
  lemma ShiftedMean(values: seq<real>, shifted: seq<real>, at: seq<nat>, shift: real)
    requires at != [] && |values| == |shifted| && forall k :: 0 <= k < |at| ==> at[k] < |values|
    requires forall k :: 0 <= k < |at| ==> shifted[at[k]] == values[at[k]] + shift
    ensures MeanAt(shifted, at) == MeanAt(values, at) + shift
  {
    hide SumAt;
    ShiftedSum(values, shifted, at, shift);
    ShiftedQuotient(SumAt(values, at), |at| as real, shift, SumAt(shifted, at));
  }

  lemma ShiftedQuotient(total: real, n: real, shift: real, moved: real)
    requires n > 0.0 && moved == total + n * shift
    ensures moved / n == total / n + shift
  {
    var q := total / n;
    assert q * n == total;
    assert (q + shift) * n == q * n + shift * n;
    QuotientIs(moved, n, q + shift);
  }

  lemma QuotientIs(total: real, n: real, q: real)
    requires n > 0.0 && q * n == total
    ensures total / n == q
  {
  }

  /** One batch: raw returns, kept rows, correctness, prompt groups. */
  datatype Batch = Batch(raw: seq<real>, keep: seq<bool>, correct: seq<bool>, ids: seq<string>) {
    ghost predicate Valid() {
      |raw| == |keep| == |correct| == |ids|
    }
    function Class(g: string, value: bool): (r: seq<nat>)
      requires |keep| == |correct| == |ids|
    {
      ClassOf(keep, correct, ids, g, value, |keep|)
    }
    predicate Mixed(g: string)
      requires |keep| == |correct| == |ids|
    {
      Class(g, true) != [] && Class(g, false) != []
    }
    function Margin(values: seq<real>, g: string): (r: real)
      requires |values| == |keep| == |correct| == |ids| && Mixed(g)
    {
      MeanAt(values, Class(g, true)) - MeanAt(values, Class(g, false))
    }
    /** Half of what a mixed group's margin lacks. */
    function Shift(g: string, delta: real): (r: real)
      requires |raw| == |keep| == |correct| == |ids|
    {
      if Mixed(g) && Margin(raw, g) < delta then (delta - Margin(raw, g)) / 2.0 else 0.0
    }
    /** Kept correct rows move up by their group's shift, kept incorrect rows down, all others stay. */
    function Calibrated(i: nat, delta: real): (r: real)
      requires |raw| == |keep| == |correct| == |ids| && i < |raw|
    {
      if !keep[i] then raw[i] else if correct[i] then raw[i] + Shift(ids[i], delta) else raw[i] - Shift(ids[i], delta)
    }
  }

  /** The calibrated margin of a mixed group is the larger of its raw margin and delta. */
  lemma CalibratedMargin(b: Batch, delta: real, values: seq<real>, g: string)
    requires b.Valid() && b.Mixed(g) && |values| == |b.raw|
    requires forall i :: 0 <= i < |values| && b.ids[i] == g ==> values[i] == b.Calibrated(i, delta)
    ensures b.Margin(values, g) == if b.Margin(b.raw, g) < delta then delta else b.Margin(b.raw, g)
  {
    hide ClassOf, MeanAt;
    var up, down, shift := b.Class(g, true), b.Class(g, false), b.Shift(g, delta);
    ShiftedMean(b.raw, values, up, shift);
    ShiftedMean(b.raw, values, down, -shift);
  }

  /** Rows of the groups served so far are calibrated, the others still raw. */
  ghost predicate Served(b: Batch, delta: real, values: seq<real>, groups: seq<string>)
    requires b.Valid()
  {
    && |values| == |b.raw|
    && forall i :: 0 <= i < |values| ==>
         values[i] == if b.ids[i] in groups then b.Calibrated(i, delta) else b.raw[i]
  }

  method ShiftGroup(calibrated: array<real>, up: seq<nat>, down: seq<nat>, half: real)
    requires forall i :: i in up ==> i !in down
    modifies calibrated
    ensures forall i: nat :: i < calibrated.Length ==>
              calibrated[i] == old(calibrated[i]) + (if i in up then half else 0.0) - (if i in down then half else 0.0)
  {
    forall i: nat | i < calibrated.Length && i in up {
      calibrated[i] := calibrated[i] + half;
    }
    forall i: nat | i < calibrated.Length && i in down {
      calibrated[i] := calibrated[i] - half;
    }
  }

  /** Serving one more group, shifted by half of what its margin lacks, or left alone. */
  lemma ServeGroup(b: Batch, delta: real, before: seq<real>, after: seq<real>, groups: seq<string>, g: string)
    requires b.Valid() && Served(b, delta, before, groups) && g !in groups && |after| == |before|
    requires var shift := b.Shift(g, delta);
             forall i: nat :: i < |after| ==>
               after[i] == before[i] + (if i in b.Class(g, true) then shift else 0.0)
                                     - (if i in b.Class(g, false) then shift else 0.0)
    ensures Served(b, delta, after, groups + [g])
  {
    hide ClassOf;
    var shift := b.Shift(g, delta);
    forall i: nat | i < |after|
      ensures after[i] == if b.ids[i] in groups + [g] then b.Calibrated(i, delta) else b.raw[i]
    {
      assert b.ids[i] in groups + [g] <==> b.ids[i] in groups || b.ids[i] == g;
      assert i in b.Class(g, true) <==> b.keep[i] && b.ids[i] == g && b.correct[i];
      assert i in b.Class(g, false) <==> b.keep[i] && b.ids[i] == g && !b.correct[i];
    }
  }

  /** The in-place loop over prompt groups. */
  method CalibrateReturns(b: Batch, delta: real) returns (calibrated: array<real>)
    requires b.Valid() && delta >= 0.0
    ensures fresh(calibrated) && calibrated.Length == |b.raw|
    ensures forall i :: 0 <= i < |b.raw| ==> calibrated[i] == b.Calibrated(i, delta)
  {
    hide ClassOf, MeanAt;
    var n := |b.raw|;
    calibrated := new real[n](i requires 0 <= i < n => b.raw[i]);
    var groups := OrderedGroups(b.ids);
    for k := 0 to |groups|
      invariant Served(b, delta, calibrated[..], groups[..k])
    {
      var g := groups[k];
      assert groups[..k + 1] == groups[..k] + [g];
      assert g !in groups[..k];
      ghost var before := calibrated[..];
      var up, down := b.Class(g, true), b.Class(g, false);
      if up != [] && down != [] {
        var margin := MeanAt(b.raw, up) - MeanAt(b.raw, down);
        if margin < delta {
          ShiftGroup(calibrated, up, down, (delta - margin) / 2.0);
        }
      }
      ServeGroup(b, delta, before, calibrated[..], groups[..k], g);
    }
    assert groups[..|groups|] == groups;
    assert forall i :: 0 <= i < n ==> calibrated[..][i] == b.Calibrated(i, delta);
  }

  /** After calibration every mixed group's margin is the larger of its raw margin and delta. */
  lemma CalibratedMargins(b: Batch, delta: real, values: seq<real>)
    requires b.Valid() && |values| == |b.raw|
    requires forall i :: 0 <= i < |values| ==> values[i] == b.Calibrated(i, delta)
    ensures forall g :: b.Mixed(g) ==>
              b.Margin(values, g) == if b.Margin(b.raw, g) < delta then delta else b.Margin(b.raw, g)
  {
    hide ClassOf, MeanAt;
    forall g | b.Mixed(g)
      ensures b.Margin(values, g) == if b.Margin(b.raw, g) < delta then delta else b.Margin(b.raw, g)
    {
      CalibratedMargin(b, delta, values, g);
    }
  }

  // ---- the whole batch -----------------------------------------------------------------------------------------

  /** One trajectory: its response mask, token log-probabilities, and the verifier's reward. */
  datatype Trajectory = Trajectory(mask: seq<bool>, student: seq<real>, teacher: seq<real>, reward: real)

  datatype UniError =
    BadShape | IdsPerTrajectory | NegativeMargin | NotBinary | NoTokens | Unbalanced(cause: BalanceError)

  predicate ShapesAgree(rows: seq<Trajectory>) {
    forall row :: row in rows ==> |row.mask| == |row.student| == |row.teacher| == |rows[0].mask|
  }

  function Correctness(rows: seq<Trajectory>): (r: seq<bool>)
    ensures |r| == |rows| && forall i :: 0 <= i < |rows| ==> r[i] == (rows[i].reward == 1.0)
  {
    seq(|rows|, i requires 0 <= i < |rows| => rows[i].reward == 1.0)
  }

  function LogRatios(row: Trajectory): (r: seq<real>)
    requires |row.student| == |row.teacher|
  {
    seq(|row.teacher|, t requires 0 <= t < |row.teacher| => row.teacher[t] - row.student[t])
  }

  /** The mean difference of Teacher and Student log-probabilities over the response. */
  function RawReturn(row: Trajectory): (r: real)
    requires |row.mask| == |row.student| == |row.teacher| && CountTrue(row.mask) > 0
  {
    MaskedSum(LogRatios(row), row.mask) / CountTrue(row.mask) as real
  }

  datatype UniResult = UniResult(batch: Batch, calibrated: seq<real>, advantages: seq<seq<real>>)

  /** What the checks before balancing accept. */
  predicate Acceptable(rows: seq<Trajectory>, ids: seq<string>, delta: real) {
    && ShapesAgree(rows) && |ids| == |rows| && delta >= 0.0
    && forall row :: row in rows ==> (row.reward == 0.0 || row.reward == 1.0) && CountTrue(row.mask) > 0
  }

  /** Raw returns are mean log-ratios; margins of mixed retained groups are raised to delta; every retained response
      token carries its trajectory's calibrated return, everything else zero. */
  ghost predicate Computed(rows: seq<Trajectory>, ids: seq<string>, delta: real, r: UniResult) {
    && r.batch.Valid() && r.batch.ids == ids && |ids| == |rows| == |r.calibrated| == |r.advantages|
    && r.batch.correct == Correctness(rows) && Balanced(r.batch.correct, ids, r.batch.keep)
    && (forall i :: 0 <= i < |rows| ==> RawFits(rows[i], r.batch.raw[i]))
    && (forall i :: 0 <= i < |rows| ==> r.calibrated[i] == r.batch.Calibrated(i, delta))
    && (forall g :: r.batch.Mixed(g) ==>
          r.batch.Margin(r.calibrated, g)
          == if r.batch.Margin(r.batch.raw, g) < delta then delta else r.batch.Margin(r.batch.raw, g))
    && forall i :: 0 <= i < |rows| ==> Broadcast(rows[i].mask, r.batch.keep[i], r.calibrated[i], r.advantages[i])
  }

  ghost predicate RawFits(row: Trajectory, raw: real) {
    |row.mask| == |row.student| == |row.teacher| && CountTrue(row.mask) > 0 && raw == RawReturn(row)
  }

  /** Higher Teacher log-probabilities and lower Student ones on the response never make the return smaller. */
  lemma ReturnsGrow(a: Trajectory, b: Trajectory, rawA: real, rawB: real)
    requires RawFits(a, rawA) && RawFits(b, rawB) && a.mask == b.mask
    requires forall t :: 0 <= t < |a.mask| && a.mask[t] ==> a.teacher[t] <= b.teacher[t] && b.student[t] <= a.student[t]
    ensures rawA <= rawB
    ensures (exists t :: 0 <= t < |a.mask| && a.mask[t] && (a.teacher[t] < b.teacher[t] || b.student[t] < a.student[t]))
              ==> rawA < rawB
  {
    hide CountTrue, MaskedSum;
    SumGrows(LogRatios(a), LogRatios(b), a.mask);
    QuotientsCompare(MaskedSum(LogRatios(a), a.mask), MaskedSum(LogRatios(b), b.mask), CountTrue(a.mask) as real);
  }

  /** A constant added to every Teacher log-probability of the response is added to the return. */
  lemma ReturnsShift(a: Trajectory, b: Trajectory, rawA: real, rawB: real, c: real)
    requires RawFits(a, rawA) && RawFits(b, rawB) && a.mask == b.mask
    requires forall t :: 0 <= t < |a.mask| && a.mask[t] ==> b.teacher[t] == a.teacher[t] + c && b.student[t] == a.student[t]
    ensures rawB == rawA + c
  {
    hide CountTrue, MaskedSum;
    SumShifts(LogRatios(a), LogRatios(b), a.mask, c);
    MeanShifts(MaskedSum(LogRatios(a), a.mask), c, CountTrue(a.mask) as real);
  }

  /** Two models that agree on the response have return zero. */
  lemma EqualModels(row: Trajectory, raw: real)
    requires RawFits(row, raw) && forall t :: 0 <= t < |row.mask| && row.mask[t] ==> row.teacher[t] == row.student[t]
    ensures raw == 0.0
  {
    hide CountTrue, MaskedSum;
    var zeros := seq(|row.mask|, t => 0.0);
    ZeroRow(zeros, row.mask);
    SumGrows(zeros, LogRatios(row), row.mask);
    SumGrows(LogRatios(row), zeros, row.mask);
  }

  ghost predicate Broadcast(mask: seq<bool>, kept: bool, value: real, advantages: seq<real>) {
    |advantages| == |mask| && forall t :: 0 <= t < |mask| ==> advantages[t] == if kept && mask[t] then value else 0.0
  }

  method ComputeUniOpdBatch(
    rows: seq<Trajectory>, ids: seq<string>, delta: real, ratio: real, order: seq<string>, pools: map<string, seq<nat>>)
    returns (r: Result<UniResult, UniError>)
    requires |ids| == |rows| ==>
               var correct := Correctness(rows);
               IsOrder(order, ids) &&
               ArePools(pools, if |TrueSet(correct)| > |TrueSet(Negated(correct))| then correct else Negated(correct), ids)
    ensures r.Ok? <==> Acceptable(rows, ids, delta) && rows != [] && 0.499999999999 <= ratio <= 0.500000000001
    ensures r.Ok? ==> Computed(rows, ids, delta, r.value)
    ensures r.Ok? ==> DrawnFairly(r.value.batch.correct, order, pools, r.value.batch.keep)
  {
    hide DrawnFairly, Balanced, ArePools, IsOrder, ShapesAgree, RawReturn, CountTrue, Computed, Correctness;
    if !ShapesAgree(rows) {
      return Err(BadShape);
    }
    if |ids| != |rows| {
      return Err(IdsPerTrajectory);
    }
    if delta < 0.0 {
      return Err(NegativeMargin);
    }
    if !forall row :: row in rows ==> row.reward == 0.0 || row.reward == 1.0 {
      return Err(NotBinary);
    }
    if !forall row :: row in rows ==> CountTrue(row.mask) > 0 {
      return Err(NoTokens);
    }
    var correct := Correctness(rows);
    var keep := SelectCorrectnessBalancedRollouts(correct, ids, ratio, order, pools);
    if keep.Err? {
      return Err(Unbalanced(keep.error));
    }
    var result := FinishBatch(rows, ids, delta, correct, keep.value);
    r := Ok(result);
  }

  /** Returns, calibration and broadcast, once the rows to keep are chosen. */
  method FinishBatch(rows: seq<Trajectory>, ids: seq<string>, delta: real, correct: seq<bool>, keep: seq<bool>)
    returns (r: UniResult)
    requires Acceptable(rows, ids, delta) && correct == Correctness(rows) && Balanced(correct, ids, keep)
    ensures Computed(rows, ids, delta, r) && r.batch.keep == keep && r.batch.correct == correct
  {
    hide Balanced, ShapesAgree, RawFits, CountTrue, Broadcast, ClassOf, MeanAt;
    var raw := RawReturns(rows);
    var batch := Batch(raw, keep, correct, ids);
    KeepFits(correct, ids, keep);
    var shifted := CalibrateReturns(batch, delta);
    var calibrated := shifted[..];
    CalibratedMargins(batch, delta, calibrated);
    var advantages := BroadcastAll(rows, keep, calibrated);
    r := UniResult(batch, calibrated, advantages);
  }

  lemma KeepFits(correct: seq<bool>, ids: seq<string>, keep: seq<bool>)
    requires |ids| == |correct| && Balanced(correct, ids, keep)
    ensures |keep| == |correct|
  {
  }

  method RawReturns(rows: seq<Trajectory>) returns (raw: seq<real>)
    requires ShapesAgree(rows) && forall row :: row in rows ==> CountTrue(row.mask) > 0
    ensures |raw| == |rows| && forall i :: 0 <= i < |rows| ==> RawFits(rows[i], raw[i])
  {
    hide RawReturn, CountTrue;
    raw := [];
    for i := 0 to |rows|
      invariant |raw| == i && forall j :: 0 <= j < i ==> RawFits(rows[j], raw[j])
    {
      assert rows[i] in rows;
      raw := raw + [RawReturn(rows[i])];
    }
  }

  method BroadcastAll(rows: seq<Trajectory>, keep: seq<bool>, calibrated: seq<real>) returns (advantages: seq<seq<real>>)
    requires |keep| == |calibrated| == |rows|
    ensures |advantages| == |rows|
    ensures forall i :: 0 <= i < |rows| ==> Broadcast(rows[i].mask, keep[i], calibrated[i], advantages[i])
  {
    advantages := [];
    for i := 0 to |rows|
      invariant |advantages| == i
      invariant forall j :: 0 <= j < i ==> Broadcast(rows[j].mask, keep[j], calibrated[j], advantages[j])
    {
      var row := rows[i];
      advantages := advantages
        + [seq(|row.mask|, t requires 0 <= t < |row.mask| => if keep[i] && row.mask[t] then calibrated[i] else 0.0)];
    }
  }

  // ---- loss normalization -----------------------------------------------------------------------------------------

  ghost predicate Matrix(losses: seq<seq<real>>, masks: seq<seq<bool>>, keep: seq<bool>) {
    |losses| == |masks| == |keep| && forall i :: 0 <= i < |losses| ==> |losses[i]| == |masks[i]|
  }

  /** The masked sum and token count over the rows that `rows` admits. */
  function TotalLoss(losses: seq<seq<real>>, masks: seq<seq<bool>>, rows: seq<bool>): (r: real)
    requires Matrix(losses, masks, rows)
  {
    if losses == [] then 0.0
    else
      var n := |losses| - 1;
      TotalLoss(losses[..n], masks[..n], rows[..n]) + if rows[n] then MaskedSum(losses[n], masks[n]) else 0.0
  }

  function TokenCount(masks: seq<seq<bool>>, rows: seq<bool>): (r: nat)
    requires |masks| == |rows|
  {
    if masks == [] then 0
    else
      var n := |masks| - 1;
      TokenCount(masks[..n], rows[..n]) + if rows[n] then CountTrue(masks[n]) else 0
  }

  function AllRows(n: nat): (r: seq<bool>) {
    seq(n, i => true)
  }

  /** Removed rows carry zero loss and retained rows keep theirs. */
  ghost predicate ZeroesRemoved(losses: seq<seq<real>>, zeroed: seq<seq<real>>, keep: seq<bool>) {
    && |losses| == |zeroed| == |keep|
    && forall i :: 0 <= i < |losses| ==>
         && |zeroed[i]| == |losses[i]|
         && forall t :: 0 <= t < |losses[i]| ==> zeroed[i][t] == if keep[i] then losses[i][t] else 0.0
  }

  lemma {:induction false} ZeroRow(values: seq<real>, mask: seq<bool>)
    requires |values| == |mask| && forall t :: 0 <= t < |values| ==> values[t] == 0.0
    ensures MaskedSum(values, mask) == 0.0
  {
    if values != [] {
      ZeroRow(values[..|values| - 1], mask[..|mask| - 1]);
    }
  }

  lemma {:induction false} ZeroedTotal(losses: seq<seq<real>>, zeroed: seq<seq<real>>, masks: seq<seq<bool>>, keep: seq<bool>)
    requires Matrix(losses, masks, keep) && ZeroesRemoved(losses, zeroed, keep)
    ensures TotalLoss(zeroed, masks, AllRows(|keep|)) == TotalLoss(losses, masks, keep)
  {
    if losses != [] {
      var n := |losses| - 1;
      ZeroedTotal(losses[..n], zeroed[..n], masks[..n], keep[..n]);
      assert AllRows(|keep|)[..n] == AllRows(n);
      if keep[n] {
        assert zeroed[n] == losses[n];
      } else {
        ZeroRow(zeroed[n], masks[n]);
      }
    }
  }

  ghost predicate Between(values: seq<real>, mask: seq<bool>, low: real, high: real) {
    |values| == |mask| && forall t :: 0 <= t < |mask| && mask[t] ==> low <= values[t] <= high
  }

  /** The total lies between the token count times the smallest and times the largest loss of the rows it is over. */
  lemma {:induction false} TotalIsBounded(
    losses: seq<seq<real>>, masks: seq<seq<bool>>, rows: seq<bool>, low: real, high: real)
    requires Matrix(losses, masks, rows)
    requires forall i :: 0 <= i < |losses| && rows[i] ==> Between(losses[i], masks[i], low, high)
    ensures low * TokenCount(masks, rows) as real <= TotalLoss(losses, masks, rows) <= high * TokenCount(masks, rows) as real
  {
    hide CountTrue, MaskedSum, Between;
    if losses != [] {
      var n := |losses| - 1;
      TotalIsBounded(losses[..n], masks[..n], rows[..n], low, high);
      if rows[n] {
        SumIsBounded(losses[n], masks[n], low, high);
        MoreTimes(low, TokenCount(masks[..n], rows[..n]), CountTrue(masks[n]));
        MoreTimes(high, TokenCount(masks[..n], rows[..n]), CountTrue(masks[n]));
      }
    }
  }

  lemma MoreTimes(c: real, a: nat, b: nat)
    ensures c * (a + b) as real == c * a as real + c * b as real
  {
    assert (a + b) as real == a as real + b as real;
  }

  lemma SumIsBounded(values: seq<real>, mask: seq<bool>, low: real, high: real)
    requires Between(values, mask, low, high)
    ensures |values| == |mask|
    ensures low * CountTrue(mask) as real <= MaskedSum(values, mask) <= high * CountTrue(mask) as real
  {
    var zeros := seq(|mask|, t => 0.0);
    ZeroRow(zeros, mask);
    SumShifts(zeros, seq(|mask|, t => low), mask, low);
    SumShifts(zeros, seq(|mask|, t => high), mask, high);
    SumGrows(seq(|mask|, t => low), values, mask);
    SumGrows(values, seq(|mask|, t => high), mask);
  }

  /** Averaging zero-masked losses over all tokens and scaling by all tokens over retained tokens is the mean
      over the retained rows alone, as if the removed rows had been deleted. */
  lemma NormalizationDeletesRows(losses: seq<seq<real>>, zeroed: seq<seq<real>>, masks: seq<seq<bool>>, keep: seq<bool>)
    requires Matrix(losses, masks, keep) && ZeroesRemoved(losses, zeroed, keep)
    requires TokenCount(masks, keep) > 0
    ensures var all, kept := TokenCount(masks, AllRows(|keep|)), TokenCount(masks, keep);
            && all >= kept
            && (TotalLoss(zeroed, masks, AllRows(|keep|)) / (all as real)) * ((all as real) / (kept as real))
               == TotalLoss(losses, masks, keep) / (kept as real)
  {
    ZeroedTotal(losses, zeroed, masks, keep);
    MoreTokens(masks, keep);
    var total, all, kept := TotalLoss(losses, masks, keep), TokenCount(masks, AllRows(|keep|)) as real, TokenCount(masks, keep) as real;
    Cancel(total, all, kept);
  }

  lemma Cancel(total: real, all: real, kept: real)
    requires all > 0.0 && kept > 0.0
    ensures (total / all) * (all / kept) == total / kept
  {
    var q := total / all;
    assert q * all == total;
    assert q * (all / kept) == (q * all) / kept;
  }

  lemma {:induction false} MoreTokens(masks: seq<seq<bool>>, keep: seq<bool>)
    requires |masks| == |keep|
    ensures TokenCount(masks, AllRows(|keep|)) >= TokenCount(masks, keep)
  {
    if masks != [] {
      var n := |masks| - 1;
      assert AllRows(|keep|)[..n] == AllRows(n);
      MoreTokens(masks[..n], keep[..n]);
    }
  }
}
