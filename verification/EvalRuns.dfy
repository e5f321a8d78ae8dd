// Runs of the evaluator over crashes and restarts: a driver that goes through models and seeds, workers that
// write one shard per job, and workers of crashed runs that may still finish the job they hold.

module EvalRuns {
  import opened Common
  import opened Pieces
  import opened EvalShards

  /** What stays the same over restarts. `canGenerate` says which outputs a model may give for a list of prompts. */
  datatype Setup = Setup(
    models: seq<string>, seeds: seq<int>, datasets: seq<Dataset>, padding: string,
    canGenerate: (string, int, seq<string>, seq<seq<Completion>>) -> bool, verify: (string, string) -> bool)
  {
    function Batches(): (r: seq<seq<Task>>) {
      BatchesOf(datasets)
    }
  }

  datatype SeedId = SeedId(model: string, seed: int)

  /** What was written atomically. An aggregate is known by the seed summaries it is computed from. */
  datatype Disk = Disk(
    shards: map<ShardId, Payload>, summaries: map<SeedId, seq<Row>>, aggregates: map<string, seq<seq<Row>>>,
    overall: seq<seq<seq<Row>>>)

  /** Where the driver is; `loaded` says that workers are running. */
  datatype Phase =
    | Down
    | AtModel(m: nat)
    | AtSeed(m: nat, s: nat, loaded: bool)
    | Waiting(m: nat, s: nat)
    | Report(m: nat)
    | Done
    | Fault

  datatype State = State(disk: Disk, phase: Phase, jobs: set<ShardId>, orphans: set<ShardId>)

  datatype Action =
    | Start
    | Skip
    | Resume
    | Dispatch
    | Write(id: ShardId, payload: Payload)
    | Summarize
    | Aggregate
    | Publish
    | Finish
    | OrphanWrite(id: ShardId, payload: Payload)
    | Crash(survivors: set<ShardId>)

  function Init(): (r: State) {
    State(Disk(map[], map[], map[], []), Down, {}, {})
  }

  ghost predicate IsShard(setup: Setup, id: ShardId) {
    id.model in setup.models && id.seed in setup.seeds && id.batchId < |setup.Batches()|
  }

  /** The payload of a successful job for this shard. */
  ghost predicate Possible(setup: Setup, id: ShardId, p: Payload) {
    id.batchId < |setup.Batches()| && exists outputs, stamp :: Generated(setup, id, outputs, stamp, p)
  }

  ghost predicate Generated(setup: Setup, id: ShardId, outputs: seq<seq<Completion>>, stamp: string, p: Payload)
    requires id.batchId < |setup.Batches()|
  {
    var batch := setup.Batches()[id.batchId];
    && WellShaped(batch, outputs)
    && setup.canGenerate(id.model, id.seed, Prompts(batch, setup.padding), outputs)
    && p == PayloadOf(id.model, id.seed, id.batchId, BatchRecords(batch, outputs, setup.verify), stamp)
  }

  // ---- steps ------------------------------------------------------------------------------------------------------

  /** The batches of a seed that have no shard on disk. */
  ghost function Pending(setup: Setup, disk: Disk, model: string, seed: int): (r: set<ShardId>) {
    set b: nat | b < |setup.Batches()| && ShardId(model, seed, b) !in disk.shards :: ShardId(model, seed, b)
  }

  /** Some shard of the model is damaged, which stops the driver. */
  ghost predicate Damaged(setup: Setup, disk: Disk, model: string) {
    exists seed, b: nat ::
      seed in setup.seeds && b < |setup.Batches()| && ShardId(model, seed, b) in disk.shards
      && !ValidPayload(disk.shards[ShardId(model, seed, b)], model, seed, b, |setup.Batches()[b]|)
  }

  ghost predicate PendingExists(setup: Setup, disk: Disk, model: string) {
    exists seed :: seed in setup.seeds && Pending(setup, disk, model, seed) != {}
  }

  /** The aggregates on disk, in the order of the models. */
  function Published(models: seq<string>, aggregates: map<string, seq<seq<Row>>>): (r: seq<seq<seq<Row>>>) {
    if models == [] then []
    else
      var n := |models| - 1;
      Published(models[..n], aggregates) + if models[n] in aggregates then [aggregates[models[n]]] else []
  }

  ghost function SummarizeStep(setup: Setup, s: State): (r: Option<State>) {
    var ready := (s.phase.Waiting? && s.jobs == {}) || (s.phase.AtSeed? && !s.phase.loaded);
    if ready && s.phase.m < |setup.models| && s.phase.s < |setup.seeds| then
      var model, seed := setup.models[s.phase.m], setup.seeds[s.phase.s];
      match SeedOutcome(setup.datasets, s.disk.shards, model, seed)
      case Err(_) => Some(s.(phase := Fault))
      case Ok(rows) =>
        Some(s.(disk := s.disk.(summaries := s.disk.summaries[SeedId(model, seed) := rows]),
                phase := AtSeed(s.phase.m, s.phase.s + 1, s.phase.Waiting?)))
    else None
  }

  ghost function AggregateStep(setup: Setup, s: State): (r: Option<State>) {
    if s.phase.AtSeed? && s.phase.m < |setup.models| && s.phase.s == |setup.seeds| then
      var model := setup.models[s.phase.m];
      if forall i :: 0 <= i < |setup.seeds| ==> SeedId(model, setup.seeds[i]) in s.disk.summaries then
        var summaries :=
          seq(|setup.seeds|, i requires 0 <= i < |setup.seeds| => s.disk.summaries[SeedId(model, setup.seeds[i])]);
        Some(s.(disk := s.disk.(aggregates := s.disk.aggregates[model := summaries]), phase := Report(s.phase.m)))
      else Some(s.(phase := Fault))
    else None
  }

  ghost function ModelStep(setup: Setup, s: State, skip: bool): (r: Option<State>) {
    if s.phase.AtModel? && s.phase.m < |setup.models| then
      var model := setup.models[s.phase.m];
      if skip then
        if model in s.disk.aggregates then Some(s.(phase := Report(s.phase.m))) else None
      else if model in s.disk.aggregates then None
      else if Damaged(setup, s.disk, model) then Some(s.(phase := Fault))
      else Some(s.(phase := AtSeed(s.phase.m, 0, PendingExists(setup, s.disk, model))))
    else None
  }

  ghost function DispatchStep(setup: Setup, s: State): (r: Option<State>) {
    if s.phase.AtSeed? && s.phase.loaded && s.phase.m < |setup.models| && s.phase.s < |setup.seeds| then
      var model, seed := setup.models[s.phase.m], setup.seeds[s.phase.s];
      if Damaged(setup, s.disk, model) then Some(s.(phase := Fault))
      else Some(s.(phase := Waiting(s.phase.m, s.phase.s), jobs := Pending(setup, s.disk, model, seed)))
    else None
  }

  ghost function Step(setup: Setup, s: State, a: Action): (r: Option<State>) {
    match a
    case Start => if s.phase.Down? then Some(s.(phase := AtModel(0))) else None
    case Skip => ModelStep(setup, s, true)
    case Resume => ModelStep(setup, s, false)
    case Dispatch => DispatchStep(setup, s)
    case Write(id, p) =>
      if s.phase.Waiting? && id in s.jobs && Possible(setup, id, p) then
        Some(s.(disk := s.disk.(shards := s.disk.shards[id := p]), jobs := s.jobs - {id}))
      else None
    case Summarize => SummarizeStep(setup, s)
    case Aggregate => AggregateStep(setup, s)
    case Publish =>
      if s.phase.Report? then
        Some(s.(disk := s.disk.(overall := Published(setup.models, s.disk.aggregates)), phase := AtModel(s.phase.m + 1)))
      else None
    case Finish => if s.phase.AtModel? && s.phase.m == |setup.models| then Some(s.(phase := Done)) else None
    case OrphanWrite(id, p) =>
      if id in s.orphans && Possible(setup, id, p) then
        Some(s.(disk := s.disk.(shards := s.disk.shards[id := p]), orphans := s.orphans - {id}))
      else None
    case Crash(survivors) =>
      if !s.phase.Done? && survivors <= s.jobs + s.orphans then Some(s.(phase := Down, jobs := {}, orphans := survivors))
      else None
  }

  ghost function Run(setup: Setup, s: State, schedule: seq<Action>): (r: Option<State>) {
    if schedule == [] then Some(s)
    else
      var before := Run(setup, s, schedule[..|schedule| - 1]);
      if before.None? then None else Step(setup, before.value, schedule[|schedule| - 1])
  }

  // ---- the invariant ----------------------------------------------------------------------------------------------

  ghost predicate ShardsFine(setup: Setup, shards: map<ShardId, Payload>) {
    forall id :: id in shards ==> IsShard(setup, id) && Possible(setup, id, shards[id])
  }

  /** All shards of a seed are there, and each is the payload of some successful job. */
  ghost predicate AllPossible(setup: Setup, shards: map<ShardId, Payload>, model: string, seed: int) {
    forall b: nat :: b < |setup.Batches()| ==>
      ShardId(model, seed, b) in shards && Possible(setup, ShardId(model, seed, b), shards[ShardId(model, seed, b)])
  }

  /** The summary of some complete set of shards. */
  ghost predicate SummaryPossible(setup: Setup, model: string, seed: int, rows: seq<Row>) {
    exists shards :: AllPossible(setup, shards, model, seed) && SeedOutcome(setup.datasets, shards, model, seed) == Ok(rows)
  }

  ghost predicate SummariesFine(setup: Setup, summaries: map<SeedId, seq<Row>>) {
    forall id :: id in summaries ==> SummaryPossible(setup, id.model, id.seed, summaries[id])
  }

  ghost predicate AggregateFine(setup: Setup, model: string, aggregate: seq<seq<Row>>) {
    && |aggregate| == |setup.seeds|
    && forall i :: 0 <= i < |aggregate| ==> SummaryPossible(setup, model, setup.seeds[i], aggregate[i])
  }

  ghost predicate AggregatesFine(setup: Setup, aggregates: map<string, seq<seq<Row>>>) {
    forall model :: model in aggregates ==> AggregateFine(setup, model, aggregates[model])
  }

  ghost predicate DiskFine(setup: Setup, disk: Disk) {
    && ShardsFine(setup, disk.shards) && SummariesFine(setup, disk.summaries) && AggregatesFine(setup, disk.aggregates)
  }

  /** The first `m` models have their aggregates. */
  ghost predicate ModelsDone(setup: Setup, aggregates: map<string, seq<seq<Row>>>, m: nat) {
    m <= |setup.models| && forall i :: 0 <= i < m ==> setup.models[i] in aggregates
  }

  /** The first `n` seeds of the model have their summaries. */
  ghost predicate SeedsDone(setup: Setup, summaries: map<SeedId, seq<Row>>, model: string, n: nat) {
    n <= |setup.seeds| && forall i :: 0 <= i < n ==> SeedId(model, setup.seeds[i]) in summaries
  }

  ghost predicate SeedStored(setup: Setup, shards: map<ShardId, Payload>, jobs: set<ShardId>, model: string, seed: int) {
    forall b: nat :: b < |setup.Batches()| ==> ShardId(model, seed, b) in shards || ShardId(model, seed, b) in jobs
  }

  ghost predicate AllSeedsStored(setup: Setup, shards: map<ShardId, Payload>, model: string) {
    forall seed :: seed in setup.seeds ==> SeedStored(setup, shards, {}, model, seed)
  }

  ghost predicate PhaseFine(setup: Setup, s: State) {
    && (!s.phase.Waiting? ==> s.jobs == {})
    && match s.phase
       case Down => true
       case AtModel(m) =>
         && ModelsDone(setup, s.disk.aggregates, m)
         && (m > 0 && m == |setup.models| ==> s.disk.overall == Published(setup.models, s.disk.aggregates))
       case AtSeed(m, n, loaded) =>
         && m < |setup.models| && ModelsDone(setup, s.disk.aggregates, m)
         && SeedsDone(setup, s.disk.summaries, setup.models[m], n)
         && (!loaded ==> AllSeedsStored(setup, s.disk.shards, setup.models[m]))
       case Waiting(m, n) =>
         && m < |setup.models| && n < |setup.seeds| && ModelsDone(setup, s.disk.aggregates, m)
         && SeedsDone(setup, s.disk.summaries, setup.models[m], n)
         && SeedStored(setup, s.disk.shards, s.jobs, setup.models[m], setup.seeds[n])
         && |s.jobs| <= |setup.Batches()|
       case Report(m) => m < |setup.models| && ModelsDone(setup, s.disk.aggregates, m + 1)
       case Done =>
         && ModelsDone(setup, s.disk.aggregates, |setup.models|)
         && (setup.models != [] ==> s.disk.overall == Published(setup.models, s.disk.aggregates))
       case Fault => false
  }

  ghost predicate Inv(setup: Setup, s: State) {
    && DiskFine(setup, s.disk) && PhaseFine(setup, s)
    && forall id :: id in s.jobs || id in s.orphans ==> IsShard(setup, id)
  }

  ghost predicate Proper(setup: Setup) {
    ProperDatasets(setup.datasets)
  }

  // ---- every step keeps it ----------------------------------------------------------------------------------------

  lemma PossibleIsComplete(setup: Setup, id: ShardId, p: Payload)
    requires Possible(setup, id, p)
    ensures CompleteShard(p, id.model, id.seed, id.batchId, setup.Batches()[id.batchId])
    ensures Genuine(p.records, setup.Batches()[id.batchId], setup.verify)
  {
    hide Genuine;
    var batch := setup.Batches()[id.batchId];
    var outputs, stamp :| Generated(setup, id, outputs, stamp, p);
    WrittenIsValid(id.model, id.seed, id.batchId, batch, outputs, setup.verify, stamp);
    BatchRecordKeys(batch, outputs, setup.verify);
    BatchRecordsAreGenuine(batch, outputs, setup.verify);
  }

  lemma NoDamage(setup: Setup, disk: Disk, model: string)
    requires ShardsFine(setup, disk.shards)
    ensures !Damaged(setup, disk, model)
  {
    forall seed, b: nat | seed in setup.seeds && b < |setup.Batches()| && ShardId(model, seed, b) in disk.shards
      ensures ValidPayload(disk.shards[ShardId(model, seed, b)], model, seed, b, |setup.Batches()[b]|)
    {
      PossibleIsComplete(setup, ShardId(model, seed, b), disk.shards[ShardId(model, seed, b)]);
    }
  }

  /** Each dataset's row says how many of its rollouts verify, how long they are, and how many were cut off. */
  ghost predicate AllTell(setup: Setup, rows: seq<Row>, records: seq<Record>) {
    && |rows| == |setup.datasets|
    && forall i :: 0 <= i < |rows| ==> RowTells(rows[i], setup.datasets[i], records, setup.verify)
  }

  /** A summary of complete shards covers every expected key exactly once. */
  lemma PossibleSeedSummarizes(setup: Setup, shards: map<ShardId, Payload>, model: string, seed: int)
    requires Proper(setup) && AllPossible(setup, shards, model, seed)
    ensures SeedOutcome(setup.datasets, shards, model, seed).Ok?
    ensures SummaryPossible(setup, model, seed, SeedOutcome(setup.datasets, shards, model, seed).value)
    ensures var loaded := LoadAll(shards, model, seed, setup.Batches());
            && loaded.Ok? && CoversOnce(setup.datasets, loaded.value)
            && RowsOf(setup.datasets, loaded.value) == SeedOutcome(setup.datasets, shards, model, seed)
            && AllTell(setup, SeedOutcome(setup.datasets, shards, model, seed).value, loaded.value)
    ensures FullRows(setup.datasets, SeedOutcome(setup.datasets, shards, model, seed).value)
  {
    hide SeedOutcome, CompleteShard, BatchesOf, RowsOf, FullRows, CoversOnce, LoadAll, Genuine, RowTells;
    var batches := setup.Batches();
    forall b: nat | b < |batches|
      ensures ShardId(model, seed, b) in shards
              && CompleteShard(shards[ShardId(model, seed, b)], model, seed, b, batches[b])
              && Genuine(shards[ShardId(model, seed, b)].records, batches[b], setup.verify)
    {
      PossibleIsComplete(setup, ShardId(model, seed, b), shards[ShardId(model, seed, b)]);
    }
    CompleteSeedSummarizes(setup.datasets, shards, model, seed);
    GenuineSeedTells(setup.datasets, shards, model, seed, setup.verify);
  }

  lemma StoredIsPossible(setup: Setup, shards: map<ShardId, Payload>, model: string, seed: int)
    requires ShardsFine(setup, shards) && SeedStored(setup, shards, {}, model, seed)
    ensures AllPossible(setup, shards, model, seed)
  {
  }

  lemma WriteKeepsInv(setup: Setup, s: State, id: ShardId, p: Payload, orphan: bool)
    requires Inv(setup, s)
    requires Step(setup, s, if orphan then OrphanWrite(id, p) else Write(id, p)).Some?
    ensures Inv(setup, Step(setup, s, if orphan then OrphanWrite(id, p) else Write(id, p)).value)
  {
    hide Possible, SummariesFine, AggregatesFine, SeedsDone, ModelsDone, Published, BatchesOf;
    var t := Step(setup, s, if orphan then OrphanWrite(id, p) else Write(id, p)).value;
    assert ShardsFine(setup, t.disk.shards);
    if s.phase.AtSeed? && !s.phase.loaded {
      StoredMore(setup, s, t, setup.models[s.phase.m]);
    }
    if s.phase.Waiting? {
      assert t.jobs <= s.jobs;
      assert |t.jobs| <= |s.jobs|;
    }
  }

  lemma StoredMore(setup: Setup, s: State, t: State, model: string)
    requires forall id :: id in s.disk.shards ==> id in t.disk.shards
    requires AllSeedsStored(setup, s.disk.shards, model)
    ensures AllSeedsStored(setup, t.disk.shards, model)
  {
    forall seed | seed in setup.seeds ensures SeedStored(setup, t.disk.shards, {}, model, seed) {
      assert SeedStored(setup, s.disk.shards, {}, model, seed);
    }
  }

  lemma SummarizeKeepsInv(setup: Setup, s: State)
    requires Proper(setup) && Inv(setup, s) && SummarizeStep(setup, s).Some?
    ensures Inv(setup, SummarizeStep(setup, s).value)
  {
    hide ShardsFine, AggregatesFine, SeedOutcome, Published, BatchesOf, Proper, SummaryPossible, AllTell, CoversOnce,
         LoadAll, FullRows, RowsOf, AllPossible;
    var model, seed := setup.models[s.phase.m], setup.seeds[s.phase.s];
    if s.phase.AtSeed? {
      assert AllSeedsStored(setup, s.disk.shards, model);
    }
    StoredIsPossible(setup, s.disk.shards, model, seed);
    PossibleSeedSummarizes(setup, s.disk.shards, model, seed);
  }

  lemma AggregateKeepsInv(setup: Setup, s: State)
    requires Inv(setup, s) && AggregateStep(setup, s).Some?
    ensures Inv(setup, AggregateStep(setup, s).value)
  {
    hide ShardsFine, SummaryPossible, Published, BatchesOf, SeedStored;
    var model := setup.models[s.phase.m];
    assert SeedsDone(setup, s.disk.summaries, model, |setup.seeds|);
    var t := AggregateStep(setup, s).value;
    var aggregate := t.disk.aggregates[model];
    forall i | 0 <= i < |aggregate| ensures SummaryPossible(setup, model, setup.seeds[i], aggregate[i]) {
      assert SeedId(model, setup.seeds[i]) in s.disk.summaries;
    }
  }

  lemma ModelKeepsInv(setup: Setup, s: State, skip: bool)
    requires Inv(setup, s) && ModelStep(setup, s, skip).Some?
    ensures Inv(setup, ModelStep(setup, s, skip).value)
  {
    hide SummariesFine, AggregatesFine, Published, BatchesOf, ShardsFine, Damaged;
    var model := setup.models[s.phase.m];
    NoDamage(setup, s.disk, model);
    if !skip && !PendingExists(setup, s.disk, model) {
      NothingPending(setup, s.disk, model);
    }
  }

  lemma NothingPending(setup: Setup, disk: Disk, model: string)
    requires !PendingExists(setup, disk, model)
    ensures AllSeedsStored(setup, disk.shards, model)
  {
    forall seed | seed in setup.seeds ensures SeedStored(setup, disk.shards, {}, model, seed) {
      assert Pending(setup, disk, model, seed) == {};
      assert forall b: nat :: b < |setup.Batches()| && ShardId(model, seed, b) !in disk.shards ==>
          ShardId(model, seed, b) in Pending(setup, disk, model, seed);
    }
  }

  lemma {:induction false} PendingSize(setup: Setup, disk: Disk, model: string, seed: int, n: nat, some: set<ShardId>)
    requires n <= |setup.Batches()|
    requires forall id :: id in some ==> id.model == model && id.seed == seed && id.batchId < n
    ensures |some| <= n
    decreases n
  {
    if n > 0 {
      var last := ShardId(model, seed, n - 1);
      PendingSize(setup, disk, model, seed, n - 1, some - {last});
    } else {
      assert some == {};
    }
  }

  lemma DispatchKeepsInv(setup: Setup, s: State)
    requires Inv(setup, s) && DispatchStep(setup, s).Some?
    ensures Inv(setup, DispatchStep(setup, s).value)
  {
    hide SummariesFine, AggregatesFine, Published, BatchesOf, ShardsFine, Damaged, ModelsDone, SeedsDone;
    var model, seed := setup.models[s.phase.m], setup.seeds[s.phase.s];
    NoDamage(setup, s.disk, model);
    PendingSize(setup, s.disk, model, seed, |setup.Batches()|, Pending(setup, s.disk, model, seed));
  }

  lemma OtherStepKeepsInv(setup: Setup, s: State, a: Action)
    requires Inv(setup, s) && Step(setup, s, a).Some?
    requires a.Start? || a.Publish? || a.Finish? || a.Crash?
    ensures Inv(setup, Step(setup, s, a).value)
  {
    hide SummariesFine, AggregatesFine, Published, BatchesOf, ShardsFine, SeedsDone, SeedStored;
  }

  lemma StepKeepsInv(setup: Setup, s: State, a: Action)
    requires Proper(setup) && Inv(setup, s) && Step(setup, s, a).Some?
    ensures Inv(setup, Step(setup, s, a).value)
  {
    hide Inv, SummarizeStep, AggregateStep, ModelStep, DispatchStep, Possible, Published;
    match a
    case Skip => ModelKeepsInv(setup, s, true);
    case Resume => ModelKeepsInv(setup, s, false);
    case Dispatch => DispatchKeepsInv(setup, s);
    case Write(id, p) => WriteKeepsInv(setup, s, id, p, false);
    case Summarize => SummarizeKeepsInv(setup, s);
    case Aggregate => AggregateKeepsInv(setup, s);
    case OrphanWrite(id, p) => WriteKeepsInv(setup, s, id, p, true);
    case _ => OtherStepKeepsInv(setup, s, a);
  }

  lemma {:induction false} RunKeepsInv(setup: Setup, schedule: seq<Action>)
    requires Proper(setup) && Run(setup, Init(), schedule).Some?
    ensures Inv(setup, Run(setup, Init(), schedule).value)
  {
    hide Step;
    if schedule != [] {
      RunKeepsInv(setup, schedule[..|schedule| - 1]);
      StepKeepsInv(setup, Run(setup, Init(), schedule[..|schedule| - 1]).value, schedule[|schedule| - 1]);
    }
  }

  // ---- what holds in every run ------------------------------------------------------------------------------------

  /** Shards on disk are complete, summaries cover every key exactly once, and no check of the driver ever fires. */
  lemma DiskIsSound(setup: Setup, schedule: seq<Action>)
    requires Proper(setup) && Run(setup, Init(), schedule).Some?
    ensures var s := Run(setup, Init(), schedule).value;
            && !s.phase.Fault?
            && (forall id :: id in s.disk.shards ==>
                  IsShard(setup, id)
                  && CompleteShard(s.disk.shards[id], id.model, id.seed, id.batchId, setup.Batches()[id.batchId])
                  && Genuine(s.disk.shards[id].records, setup.Batches()[id.batchId], setup.verify))
            && (forall id :: id in s.disk.summaries ==> Covered(setup, id, s.disk.summaries[id]))
  {
    hide Step, Covered, SummaryPossible, CompleteShard, Possible, Proper, BatchesOf, Genuine;
    RunKeepsInv(setup, schedule);
    var s := Run(setup, Init(), schedule).value;
    forall id | id in s.disk.shards
      ensures IsShard(setup, id)
              && CompleteShard(s.disk.shards[id], id.model, id.seed, id.batchId, setup.Batches()[id.batchId])
              && Genuine(s.disk.shards[id].records, setup.Batches()[id.batchId], setup.verify)
    {
      PossibleIsComplete(setup, id, s.disk.shards[id]);
    }
    forall id | id in s.disk.summaries ensures Covered(setup, id, s.disk.summaries[id]) {
      SummaryIsCovered(setup, id, s.disk.summaries[id]);
    }
  }

  /** The rows are those of shards that successful jobs have written for this model and seed; their records have every
      (dataset, question, sample) exactly once, and the rows say what they should about them. */
  ghost predicate Covered(setup: Setup, id: SeedId, rows: seq<Row>) {
    FullRows(setup.datasets, rows) && exists shards :: CoveredBy(setup, id, rows, shards)
  }

  ghost predicate CoveredBy(setup: Setup, id: SeedId, rows: seq<Row>, shards: map<ShardId, Payload>) {
    var loaded := LoadAll(shards, id.model, id.seed, setup.Batches());
    && AllPossible(setup, shards, id.model, id.seed)
    && loaded.Ok? && CoversOnce(setup.datasets, loaded.value) && RowsOf(setup.datasets, loaded.value) == Ok(rows)
    && AllTell(setup, rows, loaded.value)
  }

  lemma SummaryIsCovered(setup: Setup, id: SeedId, rows: seq<Row>)
    requires Proper(setup) && SummaryPossible(setup, id.model, id.seed, rows)
    ensures Covered(setup, id, rows)
  {
    hide AllPossible, SeedOutcome, RowsOf, CoversOnce, FullRows, AllTell, BatchesOf, LoadAll;
    var shards :|
      AllPossible(setup, shards, id.model, id.seed) && SeedOutcome(setup.datasets, shards, id.model, id.seed) == Ok(rows);
    PossibleSeedSummarizes(setup, shards, id.model, id.seed);
    assert CoveredBy(setup, id, rows, shards);
  }

  /** No step, not even a crash, loses a shard, so the pending batches of a seed never grow. */
  lemma PendingNeverGrows(setup: Setup, s: State, a: Action, model: string, seed: int)
    requires Step(setup, s, a).Some?
    ensures s.disk.shards.Keys <= Step(setup, s, a).value.disk.shards.Keys
    ensures Pending(setup, Step(setup, s, a).value.disk, model, seed) <= Pending(setup, s.disk, model, seed)
  {
    hide SeedOutcome, Possible, Damaged, Published, BatchesOf;
    var t := Step(setup, s, a).value;
    assert s.disk.shards.Keys <= t.disk.shards.Keys;
  }

  /** Jobs are handed out only for shards that are not on disk. */
  lemma OnlyMissingIsGenerated(setup: Setup, s: State)
    requires DispatchStep(setup, s).Some?
    ensures DispatchStep(setup, s).value.phase.Waiting? ==>
              forall id :: id in DispatchStep(setup, s).value.jobs ==> id !in s.disk.shards
  {
  }

  /** Every job can be done: the model gives some well-shaped outputs. */
  ghost predicate Productive(setup: Setup) {
    forall id :: IsShard(setup, id) ==> exists p :: Possible(setup, id, p)
  }

  /** Steps of the run at hand, as opposed to crashes and leftovers of crashed runs. */
  predicate Ordinary(a: Action) {
    !a.Crash? && !a.OrphanWrite?
  }

  lemma NoDeadlock(setup: Setup, s: State) returns (a: Action)
    requires Proper(setup) && Productive(setup) && Inv(setup, s) && !s.phase.Done?
    ensures Ordinary(a) && Step(setup, s, a).Some?
  {
    hide Possible, SeedOutcome, Published, DiskFine, Damaged, BatchesOf;
    match s.phase
    case Down => a := Start;
    case AtModel(m) =>
      a := if m == |setup.models| then Finish else if setup.models[m] in s.disk.aggregates then Skip else Resume;
    case AtSeed(m, n, loaded) => a := if n == |setup.seeds| then Aggregate else if loaded then Dispatch else Summarize;
    case Waiting(m, n) =>
      if s.jobs == {} {
        a := Summarize;
      } else {
        var id :| id in s.jobs;
        assert IsShard(setup, id);
        var p :| Possible(setup, id, p);
        a := Write(id, p);
      }
    case Report(m) => a := Publish;
  }

  // ---- a run that is left alone comes to its end ------------------------------------------------------------------

  function SeedsCost(setup: Setup, n: nat): (r: nat) {
    n * (|setup.Batches()| + 2)
  }

  function ModelCost(setup: Setup): (r: nat) {
    SeedsCost(setup, |setup.seeds|) + 3
  }

  function ModelsCost(setup: Setup, n: nat): (r: nat) {
    n * ModelCost(setup)
  }

  function Minus(a: nat, b: nat): (r: nat) {
    if a < b then 0 else a - b
  }

  /** An upper bound on the ordinary steps to go. */
  ghost function ToGo(setup: Setup, s: State): (r: nat) {
    match s.phase
    case Down => ModelsCost(setup, |setup.models|) + 2
    case AtModel(m) => ModelsCost(setup, Minus(|setup.models|, m)) + 1
    case AtSeed(m, n, _) =>
      ModelsCost(setup, Minus(|setup.models|, m + 1)) + SeedsCost(setup, Minus(|setup.seeds|, n)) + 3
    case Waiting(m, n) =>
      ModelsCost(setup, Minus(|setup.models|, m + 1)) + SeedsCost(setup, Minus(|setup.seeds|, n + 1)) + 4 + |s.jobs|
    case Report(m) => ModelsCost(setup, Minus(|setup.models|, m + 1)) + 2
    case Done => 0
    case Fault => 0
  }

  lemma OneModelLess(setup: Setup, m: nat)
    requires m < |setup.models|
    ensures ModelsCost(setup, Minus(|setup.models|, m)) == ModelsCost(setup, Minus(|setup.models|, m + 1)) + ModelCost(setup)
  {
  }

  lemma OneSeedLess(setup: Setup, n: nat)
    requires n < |setup.seeds|
    ensures SeedsCost(setup, Minus(|setup.seeds|, n))
         == SeedsCost(setup, Minus(|setup.seeds|, n + 1)) + |setup.Batches()| + 2
  {
  }

  lemma PhaseBounds(setup: Setup, s: State)
    requires Inv(setup, s)
    ensures s.phase.AtModel? ==> s.phase.m <= |setup.models|
    ensures s.phase.AtSeed? ==> s.phase.m < |setup.models| && s.phase.s <= |setup.seeds|
    ensures s.phase.Waiting? ==>
              s.phase.m < |setup.models| && s.phase.s < |setup.seeds| && |s.jobs| <= |setup.Batches()|
    ensures s.phase.Report? ==> s.phase.m < |setup.models|
  {
  }

  lemma StepsProgress(setup: Setup, s: State, a: Action)
    requires Proper(setup) && Inv(setup, s) && Step(setup, s, a).Some? && Ordinary(a)
    ensures ToGo(setup, Step(setup, s, a).value) < ToGo(setup, s)
  {
    hide Inv, ModelCost, ModelsCost, SeedsCost, SeedOutcome, Possible, Published, BatchesOf, Damaged, PendingExists,
      Pending;
    StepKeepsInv(setup, s, a);
    var t := Step(setup, s, a).value;
    PhaseBounds(setup, s);
    PhaseBounds(setup, t);
    if s.phase.AtModel? && s.phase.m < |setup.models| {
      OneModelLess(setup, s.phase.m);
      ModelCosts(setup);
    }
    if s.phase.AtSeed? && s.phase.s < |setup.seeds| {
      OneSeedLess(setup, s.phase.s);
    }
  }

  lemma ModelCosts(setup: Setup)
    ensures ModelCost(setup) == SeedsCost(setup, |setup.seeds|) + 3
  {
  }

  /** Without crashes a run takes at most as many steps as its start allows. */
  lemma {:induction false} RunsAreFinite(setup: Setup, schedule: seq<Action>, more: seq<Action>)
    requires Proper(setup) && Run(setup, Init(), schedule).Some?
    requires forall i :: 0 <= i < |more| ==> Ordinary(more[i])
    requires Run(setup, Run(setup, Init(), schedule).value, more).Some?
    ensures Inv(setup, Run(setup, Run(setup, Init(), schedule).value, more).value)
    ensures ToGo(setup, Run(setup, Run(setup, Init(), schedule).value, more).value) + |more|
         <= ToGo(setup, Run(setup, Init(), schedule).value)
  {
    hide Step, Inv, ToGo;
    var s := Run(setup, Init(), schedule).value;
    RunKeepsInv(setup, schedule);
    if more != [] {
      var n := |more| - 1;
      RunsAreFinite(setup, schedule, more[..n]);
      var before := Run(setup, s, more[..n]).value;
      StepKeepsInv(setup, before, more[n]);
      StepsProgress(setup, before, more[n]);
    }
  }

  lemma {:induction false} RunConcat(setup: Setup, s: State, a: seq<Action>, b: seq<Action>)
    requires Run(setup, s, a).Some?
    ensures Run(setup, s, a + b) == Run(setup, Run(setup, s, a).value, b)
  {
    if b == [] {
      assert a + b == a;
    } else {
      assert (a + b)[..|a + b| - 1] == a + b[..|b| - 1];
      RunConcat(setup, s, a, b[..|b| - 1]);
    }
  }

  /** After any history of crashes and restarts, a run that is left alone finishes. */
  lemma {:induction false} LeftAloneItFinishes(setup: Setup, schedule: seq<Action>) returns (more: seq<Action>)
    requires Proper(setup) && Productive(setup) && Run(setup, Init(), schedule).Some?
    ensures forall i :: 0 <= i < |more| ==> Ordinary(more[i])
    ensures Run(setup, Init(), schedule + more).Some? && Run(setup, Init(), schedule + more).value.phase.Done?
    decreases ToGo(setup, Run(setup, Init(), schedule).value)
  {
    hide Step, Inv, ToGo, Productive;
    RunKeepsInv(setup, schedule);
    var s := Run(setup, Init(), schedule).value;
    if s.phase.Done? {
      more := [];
      assert schedule + more == schedule;
    } else {
      var a := NoDeadlock(setup, s);
      StepsProgress(setup, s, a);
      var longer := schedule + [a];
      assert longer[..|longer| - 1] == schedule;
      var rest := LeftAloneItFinishes(setup, longer);
      more := [a] + rest;
      assert schedule + more == longer + rest;
    }
  }

  // ---- interruptions do not change the results --------------------------------------------------------------------

  /** What a model generates depends on its name, the seed and the prompts only. */
  ghost predicate Functional(setup: Setup) {
    forall model, seed, prompts, x, y ::
      setup.canGenerate(model, seed, prompts, x) && setup.canGenerate(model, seed, prompts, y) ==> x == y
  }

  lemma SameRecords(setup: Setup, id: ShardId, p: Payload, q: Payload)
    requires Functional(setup) && Possible(setup, id, p) && Possible(setup, id, q)
    ensures p.records == q.records
  {
    var x, a :| Generated(setup, id, x, a, p);
    var y, b :| Generated(setup, id, y, b, q);
  }

  lemma {:induction false} SameLoad(
    setup: Setup, a: map<ShardId, Payload>, b: map<ShardId, Payload>, model: string, seed: int, n: nat)
    requires Functional(setup) && n <= |setup.Batches()|
    requires AllPossible(setup, a, model, seed) && AllPossible(setup, b, model, seed)
    ensures LoadAll(a, model, seed, setup.Batches()[..n]) == LoadAll(b, model, seed, setup.Batches()[..n])
  {
    hide Functional, Possible, CompleteShard, BatchesOf;
    if n > 0 {
      SameLoad(setup, a, b, model, seed, n - 1);
      var id := ShardId(model, seed, n - 1);
      assert setup.Batches()[..n][..n - 1] == setup.Batches()[..n - 1];
      SameRecords(setup, id, a[id], b[id]);
      LoadsFine(setup, a, id);
      LoadsFine(setup, b, id);
    }
  }

  lemma LoadsFine(setup: Setup, shards: map<ShardId, Payload>, id: ShardId)
    requires id in shards && Possible(setup, id, shards[id])
    ensures LoadValid(shards, id, |setup.Batches()[id.batchId]|) == Ok(shards[id].records)
  {
    PossibleIsComplete(setup, id, shards[id]);
  }

  lemma SummaryIsUnique(setup: Setup, model: string, seed: int, x: seq<Row>, y: seq<Row>)
    requires Functional(setup) && SummaryPossible(setup, model, seed, x) && SummaryPossible(setup, model, seed, y)
    ensures x == y
  {
    hide AllPossible, LoadAll, RowsOf, ActualKeys, ExpectedKeys, BatchesOf, Functional;
    var a :| AllPossible(setup, a, model, seed) && SeedOutcome(setup.datasets, a, model, seed) == Ok(x);
    var b :| AllPossible(setup, b, model, seed) && SeedOutcome(setup.datasets, b, model, seed) == Ok(y);
    SameLoad(setup, a, b, model, seed, |setup.Batches()|);
    assert setup.Batches()[..|setup.Batches()|] == setup.Batches();
  }

  lemma AggregateIsUnique(setup: Setup, model: string, x: seq<seq<Row>>, y: seq<seq<Row>>)
    requires Functional(setup) && AggregateFine(setup, model, x) && AggregateFine(setup, model, y)
    ensures x == y
  {
    forall i | 0 <= i < |x| ensures x[i] == y[i] {
      SummaryIsUnique(setup, model, setup.seeds[i], x[i], y[i]);
    }
  }

  lemma {:induction false} SamePublished(
    models: seq<string>, a: map<string, seq<seq<Row>>>, b: map<string, seq<seq<Row>>>)
    requires forall i :: 0 <= i < |models| ==> models[i] in a && models[i] in b && a[models[i]] == b[models[i]]
    ensures Published(models, a) == Published(models, b) && |Published(models, a)| == |models|
  {
    if models != [] {
      SamePublished(models[..|models| - 1], a, b);
    }
  }

  /** Two finished evaluations, interrupted or not, have the same aggregates and the same overall summary. */
  lemma FinalResultsAgree(setup: Setup, one: seq<Action>, two: seq<Action>)
    requires Proper(setup) && Functional(setup) && setup.models != []
    requires Run(setup, Init(), one).Some? && Run(setup, Init(), one).value.phase.Done?
    requires Run(setup, Init(), two).Some? && Run(setup, Init(), two).value.phase.Done?
    ensures var a, b := Run(setup, Init(), one).value.disk, Run(setup, Init(), two).value.disk;
            && (forall i :: 0 <= i < |setup.models| ==>
                  setup.models[i] in a.aggregates && setup.models[i] in b.aggregates
                  && a.aggregates[setup.models[i]] == b.aggregates[setup.models[i]])
            && a.overall == b.overall && |a.overall| == |setup.models|
  {
    hide Step, Run, Functional, ShardsFine, SummariesFine, AggregateFine, Published;
    RunKeepsInv(setup, one);
    RunKeepsInv(setup, two);
    var a, b := Run(setup, Init(), one).value.disk, Run(setup, Init(), two).value.disk;
    forall i | 0 <= i < |setup.models|
      ensures setup.models[i] in a.aggregates && setup.models[i] in b.aggregates
      ensures a.aggregates[setup.models[i]] == b.aggregates[setup.models[i]]
    {
      var model := setup.models[i];
      AggregateIsUnique(setup, model, a.aggregates[model], b.aggregates[model]);
    }
    SamePublished(setup.models, a.aggregates, b.aggregates);
  }
}
