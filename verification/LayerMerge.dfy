// Renumbering the layers of pipeline stages while their state dictionaries are merged into one.

module LayerMerge {
  import opened Common

  /** A parameter's name; `layer` is its layer number, if the name has one. */
  datatype Name = Name(layer: Option<nat>, rest: string)

  /** One item of a stage's dictionary; `skipped` items are extra state and tied output layers. */
  datatype Item<V> = Item(name: Name, value: V, skipped: bool)

  type Stage<V> = seq<Item<V>>

  /** The largest number seen, starting at zero. */
  function LayersHandled<V>(stage: Stage<V>): (r: nat)
    ensures forall i :: 0 <= i < |stage| && LayerItem(stage[i]) ==> stage[i].name.layer.value <= r
    ensures r == 0 || exists i :: 0 <= i < |stage| && LayerItem(stage[i]) && stage[i].name.layer.value == r
  {
    if stage == [] then 0
    else
      var last, before := stage[|stage| - 1], LayersHandled(stage[..|stage| - 1]);
      if LayerItem(last) && last.name.layer.value > before then last.name.layer.value else before
  }

  predicate LayerItem<V>(item: Item<V>) {
    !item.skipped && item.name.layer.Some?
  }

  /** The number given to a stage's layer 0: every stage before it counts one more than its largest number. */
  function Offset<V>(stages: seq<Stage<V>>): (r: nat) {
    if stages == [] then 0 else Offset(stages[..|stages| - 1]) + LayersHandled(stages[|stages| - 1]) + 1
  }

  function Renamed(name: Name, offset: nat): (r: Name) {
    if name.layer.Some? then name.(layer := Some(name.layer.value + offset)) else name
  }

  /** Names are the keys of a dictionary. */
  ghost predicate DistinctNames<V>(stage: Stage<V>) {
    forall i, j :: 0 <= i < j < |stage| ==> stage[i].name != stage[j].name
  }

  /** Item `i` of stage `s` numbers a layer. */
  ghost predicate Numbers<V>(stages: seq<Stage<V>>, s: nat, i: nat) {
    s < |stages| && i < |stages[s]| && LayerItem(stages[s][i])
  }

  /** Where that item goes. */
  function GlobalName<V>(stages: seq<Stage<V>>, s: nat, i: nat): (r: Name)
    requires s < |stages| && i < |stages[s]|
  {
    Renamed(stages[s][i].name, Offset(stages[..s]))
  }

  lemma {:induction false} OffsetsGrow<V>(stages: seq<Stage<V>>, s: nat, t: nat)
    requires s < t <= |stages|
    ensures Offset(stages[..s]) + LayersHandled(stages[s]) < Offset(stages[..t])
  {
    assert stages[..t][..t - 1] == stages[..t - 1];
    if s + 1 < t {
      OffsetsGrow(stages, s, t - 1);
    }
  }

  /** Layers of different stages never meet, whatever numbers the stages use. */
  lemma NoCollision<V>(stages: seq<Stage<V>>, s: nat, i: nat, t: nat, j: nat)
    requires Numbers(stages, s, i) && Numbers(stages, t, j) && DistinctNames(stages[s])
    requires GlobalName(stages, s, i) == GlobalName(stages, t, j)
    ensures s == t && i == j
  {
    if s < t {
      OffsetsGrow(stages, s, t);
    } else if t < s {
      OffsetsGrow(stages, t, s);
    }
  }

  /** All layers of all stages so far are in the result, under their new names, and no other layers are. */
  ghost predicate LayersMerged<V>(stages: seq<Stage<V>>, merged: map<Name, V>) {
    && (forall s: nat, i: nat :: Numbers(stages, s, i) ==>
          GlobalName(stages, s, i) in merged && merged[GlobalName(stages, s, i)] == stages[s][i].value)
    && (forall n :: n in merged && n.layer.Some? ==>
          exists s: nat, i: nat :: Numbers(stages, s, i) && GlobalName(stages, s, i) == n)
  }

  /** Stage `s` has an item under a name without layer number. */
  ghost predicate HasPlain<V>(stage: Stage<V>, n: Name, i: nat) {
    i < |stage| && !stage[i].skipped && stage[i].name == n && n.layer.None?
  }

  ghost predicate LacksPlain<V>(stage: Stage<V>, n: Name) {
    forall i: nat :: !HasPlain(stage, n, i)
  }

  /** A name without layer number has the value of the last stage that has it. */
  ghost predicate LastOne<V>(stages: seq<Stage<V>>, s: nat, i: nat, n: Name) {
    s < |stages| && HasPlain(stages[s], n, i) && forall t :: s < t < |stages| ==> LacksPlain(stages[t], n)
  }

  /** Names without layer number are those of the stages, and the last stage decides. */
  ghost predicate PlainMerged<V>(stages: seq<Stage<V>>, merged: map<Name, V>) {
    && (forall s: nat, i: nat, n :: LastOne(stages, s, i, n) ==> Stored(merged, n, stages[s][i].value))
    && (forall n :: n in merged && n.layer.None? ==> exists s: nat, i: nat :: LastOne(stages, s, i, n))
  }

  lemma PlainOneMore<V>(
    stages: seq<Stage<V>>, stage: Stage<V>, offset: nat, before: map<Name, V>, merged: map<Name, V>)
    requires PlainMerged(stages, before) && StageMerged(stage, offset, |stage|, before, merged)
    ensures PlainMerged(stages + [stage], merged)
  {
    hide LacksPlain;
    var all: seq<Stage<V>> := stages + [stage];
    forall s: nat, i: nat, n | LastOne(all, s, i, n) ensures Stored(merged, n, all[s][i].value) {
      if s < |stages| {
        assert LacksPlain(all[|stages|], n);
        EarlierLast(stages, stage, s, i, n);
        NotNamedPlain(stage, offset, n);
      }
    }
    forall n | n in merged && n.layer.None? ensures exists s: nat, i: nat :: LastOne(all, s, i, n) {
      if NamedHere(stage, offset, |stage|, n) {
        var i: nat :| i < |stage| && !stage[i].skipped && n == Renamed(stage[i].name, offset);
        assert LastOne(all, |stages|, i, n);
      } else {
        assert n in before;
        var s: nat, i: nat :| LastOne(stages, s, i, n);
        NotNamedLacks(stage, offset, n);
        LaterLast(stages, stage, s, i, n);
      }
    }
  }

  lemma EarlierLast<V>(stages: seq<Stage<V>>, stage: Stage<V>, s: nat, i: nat, n: Name)
    requires LastOne(stages + [stage], s, i, n) && s < |stages|
    ensures LastOne(stages, s, i, n) && (stages + [stage])[s] == stages[s]
  {
    hide LacksPlain;
    assert forall t :: 0 <= t < |stages| ==> (stages + [stage])[t] == stages[t];
  }

  lemma LaterLast<V>(stages: seq<Stage<V>>, stage: Stage<V>, s: nat, i: nat, n: Name)
    requires LastOne(stages, s, i, n) && LacksPlain(stage, n)
    ensures LastOne(stages + [stage], s, i, n)
  {
    hide LacksPlain;
    assert forall t :: 0 <= t < |stages| ==> (stages + [stage])[t] == stages[t];
  }

  lemma NotNamedPlain<V>(stage: Stage<V>, offset: nat, n: Name)
    requires LacksPlain(stage, n) && n.layer.None?
    ensures !NamedHere(stage, offset, |stage|, n)
  {
    if NamedHere(stage, offset, |stage|, n) {
      var i: nat :| i < |stage| && !stage[i].skipped && n == Renamed(stage[i].name, offset);
      assert HasPlain(stage, n, i);
    }
  }

  lemma NotNamedLacks<V>(stage: Stage<V>, offset: nat, n: Name)
    requires !NamedHere(stage, offset, |stage|, n) && n.layer.None?
    ensures LacksPlain(stage, n)
  {
    forall i: nat ensures !HasPlain(stage, n, i) {
      assert HasPlain(stage, n, i) ==> Renamed(stage[i].name, offset) == n;
    }
  }

  /** The stages of virtual rank `v` of pipeline ranks below `p`. */
  function RankStages<V>(dicts: seq<seq<Stage<V>>>, v: nat, p: nat): (r: seq<Stage<V>>)
    requires p <= |dicts| && forall q :: 0 <= q < |dicts| ==> v < |dicts[q]|
    ensures |r| == p && forall q :: 0 <= q < p ==> r[q] == dicts[q][v]
  {
    seq(p, q requires 0 <= q < p => dicts[q][v])
  }

  /** All stages of virtual ranks below `v`, virtual ranks outermost. */
  function OrderedStages<V>(dicts: seq<seq<Stage<V>>>, v: nat): (r: seq<Stage<V>>)
    requires forall q :: 0 <= q < |dicts| ==> v <= |dicts[q]|
  {
    if v == 0 then [] else OrderedStages(dicts, v - 1) + RankStages(dicts, v - 1, |dicts|)
  }

  ghost predicate Stored<V>(merged: map<Name, V>, name: Name, value: V) {
    name in merged && merged[name] == value
  }

  /** The name `k` is the new name of one of the first `n` items that are not skipped. */
  ghost predicate NamedHere<V>(stage: Stage<V>, offset: nat, n: nat, k: Name) {
    exists i :: 0 <= i < n <= |stage| && !stage[i].skipped && k == Renamed(stage[i].name, offset)
  }

  /** One stage's items have been renamed and stored up to position `n`, and nothing else has changed. */
  ghost predicate StageMerged<V>(stage: Stage<V>, offset: nat, n: nat, before: map<Name, V>, merged: map<Name, V>)
    requires n <= |stage|
  {
    && (forall i :: 0 <= i < n && !stage[i].skipped ==> Stored(merged, Renamed(stage[i].name, offset), stage[i].value))
    && (forall k: Name :: !NamedHere(stage, offset, n, k) ==>
          (k in merged <==> k in before) && (k in before ==> merged[k] == before[k]))
  }

  lemma RenamedApart<V>(stage: Stage<V>, offset: nat, i: nat, n: nat)
    requires i < n < |stage| && DistinctNames(stage)
    ensures Renamed(stage[i].name, offset) != Renamed(stage[n].name, offset)
  {
    assert stage[i].name != stage[n].name;
  }

  lemma OneMoreName<V>(stage: Stage<V>, offset: nat, n: nat, k: Name)
    requires n < |stage|
    ensures NamedHere(stage, offset, n + 1, k) <==>
              NamedHere(stage, offset, n, k) || (!stage[n].skipped && k == Renamed(stage[n].name, offset))
  {
  }

  lemma StoreItem<V>(
      stage: Stage<V>, offset: nat, n: nat, before: map<Name, V>, was: map<Name, V>, merged: map<Name, V>)
    requires n < |stage| && DistinctNames(stage) && StageMerged(stage, offset, n, before, was)
    requires merged == if stage[n].skipped then was else was[Renamed(stage[n].name, offset) := stage[n].value]
    ensures StageMerged(stage, offset, n + 1, before, merged)
  {
    hide Renamed, NamedHere, DistinctNames;
    forall i | 0 <= i < n + 1 && !stage[i].skipped
      ensures Stored(merged, Renamed(stage[i].name, offset), stage[i].value)
    {
      if i < n {
        assert Stored(was, Renamed(stage[i].name, offset), stage[i].value);
        RenamedApart(stage, offset, i, n);
      }
    }
    forall k: Name | !NamedHere(stage, offset, n + 1, k)
      ensures (k in merged <==> k in before) && (k in before ==> merged[k] == before[k])
    {
      OneMoreName(stage, offset, n, k);
    }
  }

  method MergeStage<V>(stage: Stage<V>, layersCum: nat, before: map<Name, V>)
    returns (merged: map<Name, V>, layersHandled: nat)
    requires DistinctNames(stage)
    ensures StageMerged(stage, layersCum, |stage|, before, merged)
    ensures layersHandled == LayersHandled(stage)
  {
    hide StageMerged, DistinctNames;
    merged, layersHandled := before, 0;
    assert StageMerged(stage, layersCum, 0, before, merged) by { NothingStored(stage, layersCum, before); }
    for i := 0 to |stage|
      invariant StageMerged(stage, layersCum, i, before, merged)
      invariant layersHandled == LayersHandled(stage[..i])
    {
      var item := stage[i];
      assert stage[..i + 1][..i] == stage[..i];
      ghost var was := merged;
      if !item.skipped {
        if item.name.layer.Some? {
          var local := item.name.layer.value;
          layersHandled := if local > layersHandled then local else layersHandled;
        }
        merged := merged[Renamed(item.name, layersCum) := item.value];
      }
      StoreItem(stage, layersCum, i, before, was, merged);
    }
    assert stage[..|stage|] == stage;
  }

  lemma NothingStored<V>(stage: Stage<V>, offset: nat, before: map<Name, V>)
    ensures StageMerged(stage, offset, 0, before, before)
  {
  }

  /** Merging one more stage. */
  lemma MergeOneMore<V>(
    stages: seq<Stage<V>>, stage: Stage<V>, offset: nat, before: map<Name, V>, merged: map<Name, V>)
    requires offset == Offset(stages)
    requires LayersMerged(stages, before) && StageMerged(stage, offset, |stage|, before, merged)
    ensures LayersMerged(stages + [stage], merged)
  {
    hide Offset, LayersHandled;
    var all: seq<Stage<V>> := stages + [stage];
    forall s: nat, i: nat | Numbers(all, s, i)
      ensures Stored(merged, GlobalName(all, s, i), all[s][i].value)
    {
      KeepsPlaces(stages, stage, s, i);
      if s < |stages| {
        assert Numbers(stages, s, i);
        EarlierNamesStay(stages, stage, s, i);
      }
    }
    forall n | n in merged && n.layer.Some?
      ensures exists s: nat, i: nat :: Numbers(all, s, i) && GlobalName(all, s, i) == n
    {
      if NamedHere(stage, offset, |stage|, n) {
        var i: nat :| i < |stage| && !stage[i].skipped && n == Renamed(stage[i].name, offset);
        KeepsPlaces(stages, stage, |stages|, i);
        assert Numbers(all, |stages|, i);
      } else {
        assert n in before;
        var s: nat, i: nat :| Numbers(stages, s, i) && GlobalName(stages, s, i) == n;
        KeepsPlaces(stages, stage, s, i);
        assert Numbers(all, s, i);
      }
    }
  }

  lemma KeepsPlaces<V>(stages: seq<Stage<V>>, stage: Stage<V>, s: nat, i: nat)
    requires Numbers(stages + [stage], s, i)
    ensures s < |stages| ==> GlobalName(stages + [stage], s, i) == GlobalName(stages, s, i)
    ensures s == |stages| ==> GlobalName(stages + [stage], s, i) == Renamed(stage[i].name, Offset(stages))
  {
    assert (stages + [stage])[..s] == stages[..s];
    assert stages[..|stages|] == stages;
  }

  /** The new stage's names are all beyond the earlier ones. */
  lemma EarlierNamesStay<V>(stages: seq<Stage<V>>, stage: Stage<V>, s: nat, i: nat)
    requires Numbers(stages, s, i)
    ensures !NamedHere(stage, Offset(stages), |stage|, GlobalName(stages, s, i))
  {
    OffsetsGrow(stages, s, |stages|);
    assert stages[..|stages|] == stages;
    assert GlobalName(stages, s, i).layer.value < Offset(stages);
  }

  /** Item `i` of pipeline rank `p` in virtual rank `v` numbers a layer. */
  ghost predicate IsLayer<V>(dicts: seq<seq<Stage<V>>>, p: nat, v: nat, i: nat) {
    p < |dicts| && v < |dicts[p]| && i < |dicts[p][v]| && !dicts[p][v][i].skipped && dicts[p][v][i].name.layer.Some?
  }

  /** Every layer is in the result under its number plus the base of its ranks, and layers of a lower virtual rank, or
      of the same and a lower pipeline rank, get the smaller numbers. */
  ghost predicate InOrder<V>(dicts: seq<seq<Stage<V>>>, merged: map<Name, V>, base: (nat, nat) -> nat) {
    && (forall p: nat, v: nat, i: nat :: IsLayer(dicts, p, v, i) ==>
          var item := dicts[p][v][i];
          Stored(merged, Name(Some(item.name.layer.value + base(p, v)), item.name.rest), item.value))
    && base(0, 0) == 0
    && forall p: nat, v: nat, i: nat, q: nat, w: nat ::
         IsLayer(dicts, p, v, i) && Ranks(dicts, q, w) && (v < w || (v == w && p < q)) ==>
           dicts[p][v][i].name.layer.value + base(p, v) < base(q, w)
  }

  ghost predicate Ranks<V>(dicts: seq<seq<Stage<V>>>, q: nat, w: nat) {
    q < |dicts| && w < |dicts[q]|
  }

  /** Where the stage of pipeline rank `p` and virtual rank `v` comes among all stages. */
  function Place(p: nat, v: nat, ranks: nat): (r: nat) {
    v * ranks + p
  }

  lemma PlacesFollow(p: nat, v: nat, q: nat, w: nat, ranks: nat, most: nat)
    requires p < ranks && q < ranks && w < most
    ensures Place(q, w, ranks) < most * ranks
    ensures v < w || (v == w && p < q) ==> Place(p, v, ranks) < Place(q, w, ranks)
  {
    RoundsFit(w + 1, most, ranks);
    if v < w {
      RoundsFit(v + 1, w, ranks);
    }
  }

  lemma RoundsFit(v: nat, w: nat, ranks: nat)
    requires v <= w
    ensures v * ranks <= w * ranks
    ensures v > 0 ==> v * ranks == (v - 1) * ranks + ranks
  {
  }

  lemma {:induction false} StageAtPlace<V>(dicts: seq<seq<Stage<V>>>, v: nat, p: nat, w: nat)
    requires p < |dicts| && w < v && forall q :: 0 <= q < |dicts| ==> v <= |dicts[q]|
    ensures |OrderedStages(dicts, v)| == v * |dicts| && Place(p, w, |dicts|) < v * |dicts|
    ensures OrderedStages(dicts, v)[Place(p, w, |dicts|)] == dicts[p][w]
  {
    StagesCount(dicts, v);
    StagesCount(dicts, v - 1);
    PlacesFollow(p, w, p, w, |dicts|, v);
    if w < v - 1 {
      StageAtPlace(dicts, v - 1, p, w);
    } else {
      assert OrderedStages(dicts, v)[(v - 1) * |dicts| + p] == RankStages(dicts, v - 1, |dicts|)[p];
    }
  }

  lemma {:induction false} StagesCount<V>(dicts: seq<seq<Stage<V>>>, v: nat)
    requires forall q :: 0 <= q < |dicts| ==> v <= |dicts[q]|
    ensures |OrderedStages(dicts, v)| == v * |dicts|
  {
    if v > 0 {
      StagesCount(dicts, v - 1);
      RoundsFit(v, v, |dicts|);
    }
  }

  function BaseOf<V>(dicts: seq<seq<Stage<V>>>, most: nat): (r: (nat, nat) -> nat)
    requires forall q :: 0 <= q < |dicts| ==> most <= |dicts[q]|
  {
    var stages := OrderedStages(dicts, most);
    (p: nat, v: nat) => if Place(p, v, |dicts|) <= |stages| then Offset(stages[..Place(p, v, |dicts|)]) else 0
  }

  lemma LayersInOrder<V>(dicts: seq<seq<Stage<V>>>, most: nat, merged: map<Name, V>)
    requires dicts != [] && forall q :: 0 <= q < |dicts| ==> most == |dicts[q]|
    requires LayersMerged(OrderedStages(dicts, most), merged)
    ensures InOrder(dicts, merged, BaseOf(dicts, most))
  {
    hide OrderedStages, Offset, Place, LayersMerged;
    var stages, base := OrderedStages(dicts, most), BaseOf(dicts, most);
    forall p: nat, v: nat, i: nat | IsLayer(dicts, p, v, i)
      ensures var item := dicts[p][v][i];
              Stored(merged, Name(Some(item.name.layer.value + base(p, v)), item.name.rest), item.value)
    {
      StageAtPlace(dicts, most, p, v);
      LayerIsStored(stages, merged, Place(p, v, |dicts|), i);
    }
    forall p: nat, v: nat, i: nat, q: nat, w: nat |
      IsLayer(dicts, p, v, i) && Ranks(dicts, q, w) && (v < w || (v == w && p < q))
      ensures dicts[p][v][i].name.layer.value + base(p, v) < base(q, w)
    {
      StageAtPlace(dicts, most, p, v);
      StageAtPlace(dicts, most, q, w);
      PlacesFollow(p, v, q, w, |dicts|, most);
      OffsetsGrow(stages, Place(p, v, |dicts|), Place(q, w, |dicts|));
    }
    FirstBase(dicts, most);
  }

  lemma FirstBase<V>(dicts: seq<seq<Stage<V>>>, most: nat)
    requires forall q :: 0 <= q < |dicts| ==> most <= |dicts[q]|
    ensures BaseOf(dicts, most)(0, 0) == 0
  {
    assert Place(0, 0, |dicts|) == 0;
  }

  lemma LayerIsStored<V>(stages: seq<Stage<V>>, merged: map<Name, V>, s: nat, i: nat)
    requires LayersMerged(stages, merged) && Numbers(stages, s, i)
    ensures Stored(merged, Name(Some(stages[s][i].name.layer.value + Offset(stages[..s])), stages[s][i].name.rest),
                   stages[s][i].value)
  {
    hide Offset, LayersHandled;
    MergedAt(stages, merged, s, i);
  }

  lemma MergedAt<V>(stages: seq<Stage<V>>, merged: map<Name, V>, s: nat, i: nat)
    requires LayersMerged(stages, merged) && Numbers(stages, s, i)
    ensures Stored(merged, GlobalName(stages, s, i), stages[s][i].value)
  {
    hide GlobalName;
  }

  /** Merges the dictionaries of all stages, virtual ranks outermost. */
  method MergeStateDicts<V>(dicts: seq<seq<Stage<V>>>) returns (merged: map<Name, V>)
    requires dicts != [] && forall q :: 0 <= q < |dicts| ==> |dicts[q]| == |dicts[0]|
    requires forall q, v :: 0 <= q < |dicts| && 0 <= v < |dicts[q]| ==> DistinctNames(dicts[q][v])
    ensures LayersMerged(OrderedStages(dicts, |dicts[0]|), merged)
    ensures PlainMerged(OrderedStages(dicts, |dicts[0]|), merged)
    ensures exists base :: InOrder(dicts, merged, base)
  {
    hide InOrder, PlainMerged, LayersMerged, StageMerged, LayersHandled, DistinctNames, Offset;
    merged := map[];
    var layersCum := 0;
    ghost var stages: seq<Stage<V>> := [];
    NothingMerged<V>();
    assert layersCum == Offset(stages) by { NoOffset<V>(); }
    for v := 0 to |dicts[0]|
      invariant stages == OrderedStages(dicts, v) && layersCum == Offset(stages)
      invariant LayersMerged(stages, merged) && PlainMerged(stages, merged)
    {
      ghost var before := stages;
      for p := 0 to |dicts|
        invariant stages == before + RankStages(dicts, v, p) && layersCum == Offset(stages)
        invariant LayersMerged(stages, merged) && PlainMerged(stages, merged)
      {
        var stage := dicts[p][v];
        ghost var was := merged;
        var layersHandled;
        merged, layersHandled := MergeStage(stage, layersCum, merged);
        MergeOneMore(stages, stage, layersCum, was, merged);
        PlainOneMore(stages, stage, layersCum, was, merged);
        OneMoreRank(dicts, v, p, before);
        NextOffset(stages, stage);
        stages := stages + [stage];
        layersCum := layersCum + layersHandled + 1;
      }
    }
    LayersInOrder(dicts, |dicts[0]|, merged);
  }

  lemma NextOffset<V>(stages: seq<Stage<V>>, stage: Stage<V>)
    ensures Offset(stages + [stage]) == Offset(stages) + LayersHandled(stage) + 1
  {
    assert (stages + [stage])[..|stages|] == stages;
  }

  lemma OneMoreRank<V>(dicts: seq<seq<Stage<V>>>, v: nat, p: nat, before: seq<Stage<V>>)
    requires p < |dicts| && forall q :: 0 <= q < |dicts| ==> v < |dicts[q]|
    ensures before + RankStages(dicts, v, p + 1) == before + RankStages(dicts, v, p) + [dicts[p][v]]
  {
  }

  lemma NoOffset<V>()
    ensures Offset<V>([]) == 0
  {
  }

  lemma NothingMerged<V>()
    ensures LayersMerged<V>([], map[]) && PlainMerged<V>([], map[])
  {
  }

  // ---- which numbers result ---------------------------------------------------------------------------------------

  /** The stage's layers are numbered 0, 1, ... up to below `n`. */
  ghost predicate NumberedFromZero<V>(stage: Stage<V>, n: nat) {
    && (forall i :: 0 <= i < |stage| && LayerItem(stage[i]) ==> stage[i].name.layer.value < n)
    && (forall l: nat :: l < n ==> HasLayer(stage, l))
  }

  ghost predicate HasLayer<V>(stage: Stage<V>, l: nat) {
    exists i :: 0 <= i < |stage| && LayerItem(stage[i]) && stage[i].name.layer.value == l
  }

  ghost predicate AllNumbered<V>(stages: seq<Stage<V>>, counts: seq<nat>) {
    |counts| == |stages| && forall s :: 0 <= s < |stages| ==> NumberedFromZero(stages[s], counts[s])
  }

  /** Layer number `g` occurs in the result. */
  ghost predicate Used<V>(stages: seq<Stage<V>>, g: nat) {
    exists s: nat :: s < |stages| && UsedBy(stages, s, g)
  }

  ghost predicate UsedBy<V>(stages: seq<Stage<V>>, s: nat, g: nat)
    requires s < |stages|
  {
    Offset(stages[..s]) <= g && HasLayer(stages[s], g - Offset(stages[..s]))
  }

  /** Some name of the result carries the number `g`. */
  ghost predicate Carries<V>(merged: map<Name, V>, g: nat) {
    exists n :: n in merged && n.layer == Some(g)
  }

  lemma UsedIsMerged<V>(stages: seq<Stage<V>>, merged: map<Name, V>, g: nat)
    requires LayersMerged(stages, merged)
    ensures Used(stages, g) <==> Carries(merged, g)
  {
    hide LayersMerged;
    if Used(stages, g) {
      UsedIsCarried(stages, merged, g);
    }
    if Carries(merged, g) {
      CarriedIsUsed(stages, merged, g);
    }
  }

  lemma UsedIsCarried<V>(stages: seq<Stage<V>>, merged: map<Name, V>, g: nat)
    requires LayersMerged(stages, merged) && Used(stages, g)
    ensures Carries(merged, g)
  {
    hide Offset;
    var s: nat :| s < |stages| && UsedBy(stages, s, g);
    var i: nat :| i < |stages[s]| && LayerItem(stages[s][i]) && stages[s][i].name.layer.value == g - Offset(stages[..s]);
    assert Numbers(stages, s, i);
    assert GlobalName(stages, s, i).layer == Some(g);
  }

  lemma CarriedIsUsed<V>(stages: seq<Stage<V>>, merged: map<Name, V>, g: nat)
    requires LayersMerged(stages, merged) && Carries(merged, g)
    ensures Used(stages, g)
  {
    hide Offset;
    var n :| n in merged && n.layer == Some(g);
    var s: nat, i: nat :| Numbers(stages, s, i) && GlobalName(stages, s, i) == n;
    assert UsedBy(stages, s, g);
  }

  lemma HandledIsLast<V>(stage: Stage<V>, n: nat)
    requires NumberedFromZero(stage, n)
    ensures LayersHandled(stage) == if n == 0 then 0 else n - 1
  {
    if n > 0 {
      assert HasLayer(stage, n - 1);
    }
  }

  /** A number belongs to stage `s` exactly when it lies in the stretch of the stage. */
  lemma Stretch<V>(stages: seq<Stage<V>>, counts: seq<nat>, s: nat, g: nat)
    requires AllNumbered(stages, counts) && s < |stages|
    ensures UsedBy(stages, s, g) <==> Offset(stages[..s]) <= g < Offset(stages[..s]) + counts[s]
  {
    assert NumberedFromZero(stages[s], counts[s]);
  }

  /** Every number below an offset lies in one earlier stage's stretch or just after an empty one. */
  lemma {:induction false} Locate<V>(stages: seq<Stage<V>>, t: nat, g: nat) returns (s: nat)
    requires t <= |stages| && g < Offset(stages[..t])
    ensures s < t && Offset(stages[..s]) <= g <= Offset(stages[..s]) + LayersHandled(stages[s])
  {
    s := t - 1;
    assert stages[..t][..t - 1] == stages[..t - 1];
    if g < Offset(stages[..t - 1]) {
      s := Locate(stages, t - 1, g);
    }
  }

  /** Stage `s` has no layers and a later stage has some. */
  ghost predicate EmptyBeforeFull(counts: seq<nat>) {
    exists s, t :: 0 <= s < t < |counts| && counts[s] == 0 && counts[t] > 0
  }

  /** The numbers of the result have no gap exactly when no stage without layers comes before one with layers. */
  lemma GapsComeFromEmptyStages<V>(stages: seq<Stage<V>>, counts: seq<nat>)
    requires AllNumbered(stages, counts)
    ensures (forall g: nat, h: nat :: g < h && Used(stages, h) ==> Used(stages, g)) <==> !EmptyBeforeFull(counts)
  {
    if EmptyBeforeFull(counts) {
      var s: nat, t: nat :| s < t < |counts| && counts[s] == 0 && counts[t] > 0;
      EmptyStageGap(stages, counts, s, t);
    } else {
      forall g: nat, h: nat | g < h && Used(stages, h) ensures Used(stages, g) {
        NoGap(stages, counts, g, h);
      }
    }
  }

  lemma EmptyStageGap<V>(stages: seq<Stage<V>>, counts: seq<nat>, s: nat, t: nat)
    requires AllNumbered(stages, counts) && s < t < |stages| && counts[s] == 0 && counts[t] > 0
    ensures Offset(stages[..s]) < Offset(stages[..t])
    ensures !Used(stages, Offset(stages[..s])) && Used(stages, Offset(stages[..t]))
  {
    var g, h := Offset(stages[..s]), Offset(stages[..t]);
    OffsetsGrow(stages, s, t);
    Stretch(stages, counts, t, h);
    assert UsedBy(stages, t, h);
    forall u: nat | u < |stages| ensures !UsedBy(stages, u, g) {
      Stretch(stages, counts, u, g);
      if u < s {
        OffsetsGrow(stages, u, s);
        HandledIsLast(stages[u], counts[u]);
      } else if s < u {
        OffsetsGrow(stages, s, u);
      }
    }
  }

  lemma NoGap<V>(stages: seq<Stage<V>>, counts: seq<nat>, g: nat, h: nat)
    requires AllNumbered(stages, counts) && !EmptyBeforeFull(counts) && g < h && Used(stages, h)
    ensures Used(stages, g)
  {
    var t: nat :| t < |stages| && UsedBy(stages, t, h);
    Stretch(stages, counts, t, h);
    if g >= Offset(stages[..t]) {
      Stretch(stages, counts, t, g);
      assert UsedBy(stages, t, g);
    } else {
      var s := Locate(stages, t, g);
      assert counts[s] > 0;
      HandledIsLast(stages[s], counts[s]);
      Stretch(stages, counts, s, g);
      assert UsedBy(stages, s, g);
    }
  }

  function Total(counts: seq<nat>): (r: nat) {
    if counts == [] then 0 else Total(counts[..|counts| - 1]) + counts[|counts| - 1]
  }

  /** With a layer in every stage, a stage's layers follow those of all stages before it. */
  lemma {:induction false} OffsetIsLayersBefore<V>(stages: seq<Stage<V>>, counts: seq<nat>)
    requires AllNumbered(stages, counts) && forall s :: 0 <= s < |counts| ==> counts[s] > 0
    ensures Offset(stages) == Total(counts)
  {
    if stages != [] {
      var n := |stages| - 1;
      HandledIsLast(stages[n], counts[n]);
      OffsetIsLayersBefore(stages[..n], counts[..n]);
    }
  }

  lemma FullStretches<V>(stages: seq<Stage<V>>, counts: seq<nat>, g: nat)
    requires AllNumbered(stages, counts) && forall s :: 0 <= s < |counts| ==> counts[s] > 0
    ensures Used(stages, g) <==> g < Offset(stages)
  {
    hide Offset;
    assert stages[..|stages|] == stages;
    if Used(stages, g) {
      var s: nat :| s < |stages| && UsedBy(stages, s, g);
      Stretch(stages, counts, s, g);
      OffsetsGrow(stages, s, |stages|);
      HandledIsLast(stages[s], counts[s]);
    }
    if g < Offset(stages) {
      var s := Locate(stages, |stages|, g);
      HandledIsLast(stages[s], counts[s]);
      Stretch(stages, counts, s, g);
      assert UsedBy(stages, s, g);
    }
  }

  /** Then the result has exactly the layers 0, 1, ... up to below the total, in stage order. */
  lemma FullStagesRenumberContiguously<V>(stages: seq<Stage<V>>, counts: seq<nat>, merged: map<Name, V>)
    requires AllNumbered(stages, counts) && forall s :: 0 <= s < |counts| ==> counts[s] > 0
    requires LayersMerged(stages, merged)
    ensures forall g: nat :: Carries(merged, g) <==> g < Total(counts)
    ensures forall s: nat, i: nat :: Numbers(stages, s, i) ==>
              GlobalName(stages, s, i).layer == Some(Total(counts[..s]) + stages[s][i].name.layer.value)
  {
    hide LayersMerged, Offset, Total, Used, Carries;
    OffsetIsLayersBefore(stages, counts);
    forall g: nat ensures Carries(merged, g) <==> g < Total(counts) {
      UsedIsMerged(stages, merged, g);
      FullStretches(stages, counts, g);
    }
    forall s: nat, i: nat | Numbers(stages, s, i)
      ensures GlobalName(stages, s, i).layer == Some(Total(counts[..s]) + stages[s][i].name.layer.value)
    {
      OffsetIsLayersBefore(stages[..s], counts[..s]);
    }
  }
}
