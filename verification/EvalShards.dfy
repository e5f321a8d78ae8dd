// Evaluation shards: question batches, the records a worker writes for a batch, and the summary of a seed.

module EvalShards {
  import opened Common
  import opened Pieces
  import opened Sets
  import opened Sorting

  const SAMPLES := 16
  const QUESTIONS := 16

  datatype Example = Example(answer: string, prompt: string)
  datatype Dataset = Dataset(name: string, examples: seq<Example>)
  datatype Task = Task(dataset: string, question: nat, answer: string, prompt: string)
  datatype Completion = Completion(text: string, tokens: nat, finish: string)
  datatype Key = Key(dataset: string, question: nat, sample: nat)
  datatype Record = Record(key: Key, correct: nat, tokens: nat, finish: string, response: string)

  /** `stamp` stands for what does not describe the samples: device and times. */
  datatype Payload = Payload(
    model: string, seed: int, batchId: nat, generated: nat, kept: nat, records: seq<Record>, stamp: string)

  // ---- tasks and batches ------------------------------------------------------------------------------------------

  function TaskAt(d: Dataset, q: nat): (r: Task)
    requires q < |d.examples|
  {
    Task(d.name, q, d.examples[q].answer, d.examples[q].prompt)
  }

  function DatasetTasks(d: Dataset): (r: seq<Task>)
    ensures |r| == |d.examples|
  {
    seq(|d.examples|, q requires 0 <= q < |d.examples| => TaskAt(d, q))
  }

  function TasksOf(datasets: seq<Dataset>): (r: seq<Task>) {
    if datasets == [] then [] else TasksOf(datasets[..|datasets| - 1]) + DatasetTasks(datasets[|datasets| - 1])
  }

  function BatchesOf(datasets: seq<Dataset>): (r: seq<seq<Task>>) {
    CutBy(TasksOf(datasets), QUESTIONS)
  }

  method MakeBatches(tasks: seq<Task>) returns (batches: Option<seq<seq<Task>>>)
    ensures batches.None? <==> tasks == []
    ensures batches.Some? ==> batches.value == CutBy(tasks, QUESTIONS) && Flatten(batches.value) == tasks
    ensures batches.Some? ==> forall i :: 0 <= i < |batches.value| ==> PieceFits(batches.value, i, QUESTIONS)
  {
    var pieces, rest := [], tasks;
    while rest != []
      invariant pieces + CutBy(rest, QUESTIONS) == CutBy(tasks, QUESTIONS)
      invariant tasks != [] && rest == [] ==> pieces != []
      decreases |rest|
    {
      var size := if |rest| < QUESTIONS then |rest| else QUESTIONS;
      CutFirst(rest, QUESTIONS, size);
      pieces, rest := pieces + [rest[..size]], rest[size..];
    }
    CutFlattens(tasks, QUESTIONS);
    batches := if pieces == [] then None else Some(pieces);
  }

  lemma CutFirst<T>(rest: seq<T>, most: nat, size: nat)
    requires most > 0 && rest != [] && size == if |rest| < most then |rest| else most
    ensures CutBy(rest, most) == [rest[..size]] + CutBy(rest[size..], most)
  {
    assert |rest| <= most ==> rest[..size] == rest && rest[size..] == [];
  }

  // ---- keys -------------------------------------------------------------------------------------------------------

  /** The keys of one question's samples. */
  function TaskKeys(t: Task): (r: seq<Key>)
    ensures |r| == SAMPLES
  {
    seq(SAMPLES, s requires 0 <= s < SAMPLES => Key(t.dataset, t.question, s))
  }

  function KeysOf(tasks: seq<Task>): (r: seq<Key>)
    ensures |r| == |tasks| * SAMPLES
  {
    if tasks == [] then [] else KeysOf(tasks[..|tasks| - 1]) + TaskKeys(tasks[|tasks| - 1])
  }

  lemma {:induction false} KeysConcat(a: seq<Task>, b: seq<Task>)
    ensures KeysOf(a + b) == KeysOf(a) + KeysOf(b)
  {
    if b == [] {
      assert a + b == a;
    } else {
      assert (a + b)[..|a + b| - 1] == a + b[..|b| - 1];
      KeysConcat(a, b[..|b| - 1]);
    }
  }

  ghost predicate NoRepeats<T(!new)>(xs: seq<T>) {
    forall i, j :: 0 <= i < j < |xs| ==> xs[i] != xs[j]
  }

  /** No two tasks ask the same question. */
  ghost predicate DistinctTasks(tasks: seq<Task>) {
    forall i, j :: 0 <= i < j < |tasks| ==>
      tasks[i].dataset != tasks[j].dataset || tasks[i].question != tasks[j].question
  }

  lemma {:induction false} KeyMembers(tasks: seq<Task>)
    ensures forall k :: k in KeysOf(tasks) <==> k.sample < SAMPLES && Asks(tasks, k.dataset, k.question)
  {
    if tasks != [] {
      var n := |tasks| - 1;
      KeyMembers(tasks[..n]);
      forall k ensures k in KeysOf(tasks) <==> k.sample < SAMPLES && Asks(tasks, k.dataset, k.question) {
        OneMoreTask(tasks, k);
      }
    }
  }

  ghost predicate Asks(tasks: seq<Task>, dataset: string, question: nat) {
    exists i :: 0 <= i < |tasks| && tasks[i].dataset == dataset && tasks[i].question == question
  }

  lemma OneMoreTask(tasks: seq<Task>, k: Key)
    requires tasks != []
    ensures Asks(tasks, k.dataset, k.question) <==>
              Asks(tasks[..|tasks| - 1], k.dataset, k.question)
              || (tasks[|tasks| - 1].dataset == k.dataset && tasks[|tasks| - 1].question == k.question)
    ensures k in TaskKeys(tasks[|tasks| - 1]) <==>
              k.sample < SAMPLES && tasks[|tasks| - 1].dataset == k.dataset && tasks[|tasks| - 1].question == k.question
  {
    var n := |tasks| - 1;
    var t := tasks[n];
    if k.sample < SAMPLES && t.dataset == k.dataset && t.question == k.question {
      assert TaskKeys(t)[k.sample] == k;
    }
    if Asks(tasks, k.dataset, k.question) {
      var i :| 0 <= i < |tasks| && tasks[i].dataset == k.dataset && tasks[i].question == k.question;
      assert i < n ==> tasks[..n][i] == tasks[i];
    }
    if Asks(tasks[..n], k.dataset, k.question) {
      var i :| 0 <= i < n && tasks[..n][i].dataset == k.dataset && tasks[..n][i].question == k.question;
      assert tasks[i] == tasks[..n][i];
    }
  }

  lemma {:induction false} KeysAreDistinct(tasks: seq<Task>)
    requires DistinctTasks(tasks)
    ensures NoRepeats(KeysOf(tasks))
  {
    if tasks != [] {
      var n := |tasks| - 1;
      KeysAreDistinct(tasks[..n]);
      KeyMembers(tasks[..n]);
      var before, last := KeysOf(tasks[..n]), TaskKeys(tasks[n]);
      forall i, j | 0 <= i < |before| && 0 <= j < |last| ensures before[i] != last[j] {
        assert before[i] in before;
      }
      assert NoRepeats(last);
      NoRepeatsConcat(before, last);
    }
  }

  lemma NoRepeatsConcat<T(!new)>(a: seq<T>, b: seq<T>)
    requires NoRepeats(a) && NoRepeats(b) && forall i, j :: 0 <= i < |a| && 0 <= j < |b| ==> a[i] != b[j]
    ensures NoRepeats(a + b)
  {
  }

  lemma {:induction false} DistinctCount<T(!new)>(xs: seq<T>)
    ensures NoRepeats(xs) ==> |(set x | x in xs)| == |xs|
  {
    if xs != [] {
      var n := |xs| - 1;
      DistinctCount(xs[..n]);
      assert (set x | x in xs) == (set x | x in xs[..n]) + {xs[n]};
    }
  }

  ghost predicate DistinctDatasets(datasets: seq<Dataset>) {
    forall i, j :: 0 <= i < j < |datasets| ==> datasets[i].name != datasets[j].name
  }

  /** The keys a complete evaluation has. */
  ghost predicate Expected(datasets: seq<Dataset>, k: Key) {
    k.sample < SAMPLES && Questions(datasets, k.dataset, k.question)
  }

  ghost predicate Questions(datasets: seq<Dataset>, dataset: string, question: nat) {
    exists i :: 0 <= i < |datasets| && datasets[i].name == dataset && question < |datasets[i].examples|
  }

  lemma {:induction false} TasksCover(datasets: seq<Dataset>, dataset: string, question: nat)
    ensures Asks(TasksOf(datasets), dataset, question) <==> Questions(datasets, dataset, question)
  {
    if datasets != [] {
      var n := |datasets| - 1;
      var before, last := TasksOf(datasets[..n]), DatasetTasks(datasets[n]);
      TasksCover(datasets[..n], dataset, question);
      AsksConcat(before, last, dataset, question);
      DatasetAsks(datasets[n], dataset, question);
      OneMoreDataset(datasets, dataset, question);
    }
  }

  lemma AsksConcat(a: seq<Task>, b: seq<Task>, dataset: string, question: nat)
    ensures Asks(a + b, dataset, question) <==> Asks(a, dataset, question) || Asks(b, dataset, question)
  {
    var c := a + b;
    assert forall i :: 0 <= i < |a| ==> c[i] == a[i];
    assert forall i :: 0 <= i < |b| ==> c[|a| + i] == b[i];
  }

  lemma DatasetAsks(d: Dataset, dataset: string, question: nat)
    ensures Asks(DatasetTasks(d), dataset, question) <==> d.name == dataset && question < |d.examples|
  {
    if d.name == dataset && question < |d.examples| {
      assert DatasetTasks(d)[question].question == question;
    }
  }

  lemma OneMoreDataset(datasets: seq<Dataset>, dataset: string, question: nat)
    requires datasets != []
    ensures Questions(datasets, dataset, question) <==>
              Questions(datasets[..|datasets| - 1], dataset, question)
              || (datasets[|datasets| - 1].name == dataset && question < |datasets[|datasets| - 1].examples|)
  {
    var n := |datasets| - 1;
    assert forall i :: 0 <= i < n ==> datasets[..n][i] == datasets[i];
  }

  lemma {:induction false} TasksAreDistinct(datasets: seq<Dataset>)
    requires DistinctDatasets(datasets)
    ensures DistinctTasks(TasksOf(datasets))
  {
    if datasets != [] {
      var n := |datasets| - 1;
      var before, last := TasksOf(datasets[..n]), DatasetTasks(datasets[n]);
      TasksAreDistinct(datasets[..n]);
      forall i | 0 <= i < |before| ensures before[i].dataset != datasets[n].name {
        assert Asks(before, before[i].dataset, before[i].question);
        TasksCover(datasets[..n], before[i].dataset, before[i].question);
      }
      assert forall j :: 0 <= j < |last| ==> last[j].dataset == datasets[n].name && last[j].question == j;
    }
  }

  /** A complete evaluation has every expected key exactly once. */
  lemma KeysOfAllTasks(datasets: seq<Dataset>)
    requires DistinctDatasets(datasets)
    ensures NoRepeats(KeysOf(TasksOf(datasets)))
    ensures forall k :: k in KeysOf(TasksOf(datasets)) <==> Expected(datasets, k)
  {
    TasksAreDistinct(datasets);
    KeysAreDistinct(TasksOf(datasets));
    KeyMembers(TasksOf(datasets));
    forall k: Key ensures Asks(TasksOf(datasets), k.dataset, k.question) <==> Questions(datasets, k.dataset, k.question) {
      TasksCover(datasets, k.dataset, k.question);
    }
  }

  // ---- one batch --------------------------------------------------------------------------------------------------

  /** The prompts of one generation call, padded to a full batch. */
  function Prompts(tasks: seq<Task>, padding: string): (r: seq<string>)
    requires |tasks| <= QUESTIONS
    ensures |r| == QUESTIONS
  {
    seq(QUESTIONS, i requires 0 <= i < QUESTIONS => if i < |tasks| then tasks[i].prompt else padding)
  }

  predicate WellShaped(tasks: seq<Task>, outputs: seq<seq<Completion>>) {
    |tasks| <= QUESTIONS == |outputs| && forall i :: 0 <= i < |tasks| ==> |outputs[i]| == SAMPLES
  }

  function RecordOf(t: Task, sample: nat, c: Completion, verify: (string, string) -> bool): (r: Record) {
    Record(Key(t.dataset, t.question, sample), if verify(c.text, t.answer) then 1 else 0, c.tokens, c.finish, c.text)
  }

  function TaskRecords(t: Task, samples: seq<Completion>, verify: (string, string) -> bool): (r: seq<Record>)
    ensures |r| == |samples|
  {
    seq(|samples|, s requires 0 <= s < |samples| => RecordOf(t, s, samples[s], verify))
  }

  function BatchRecords(tasks: seq<Task>, outputs: seq<seq<Completion>>, verify: (string, string) -> bool): (r: seq<Record>)
    requires |tasks| <= |outputs|
  {
    if tasks == [] then []
    else
      var n := |tasks| - 1;
      BatchRecords(tasks[..n], outputs, verify) + TaskRecords(tasks[n], outputs[n], verify)
  }

  function RecordKeys(records: seq<Record>): (r: seq<Key>)
    ensures |r| == |records|
  {
    seq(|records|, i requires 0 <= i < |records| => records[i].key)
  }

  lemma RecordKeysConcat(a: seq<Record>, b: seq<Record>)
    ensures RecordKeys(a + b) == RecordKeys(a) + RecordKeys(b)
  {
  }

  /** The records of a batch carry each of its keys once, padding leaves no trace. */
  lemma {:induction false} BatchRecordKeys(tasks: seq<Task>, outputs: seq<seq<Completion>>, verify: (string, string) -> bool)
    requires |tasks| <= |outputs| && forall i :: 0 <= i < |tasks| ==> |outputs[i]| == SAMPLES
    ensures RecordKeys(BatchRecords(tasks, outputs, verify)) == KeysOf(tasks)
  {
    if tasks != [] {
      var n := |tasks| - 1;
      BatchRecordKeys(tasks[..n], outputs, verify);
      RecordKeysConcat(BatchRecords(tasks[..n], outputs, verify), TaskRecords(tasks[n], outputs[n], verify));
      assert RecordKeys(TaskRecords(tasks[n], outputs[n], verify)) == TaskKeys(tasks[n]);
    }
  }

  /** Sixteen records per question, in order: each with its key, its sample's text, tokens and finish, and whether that
      text verifies against the question's answer. */
  ghost predicate AreRecords(
    records: seq<Record>, tasks: seq<Task>, outputs: seq<seq<Completion>>, verify: (string, string) -> bool)
  {
    && |records| == |tasks| * SAMPLES
    && |tasks| <= |outputs| && (forall i :: 0 <= i < |tasks| ==> |outputs[i]| == SAMPLES)
    && forall i, s :: 0 <= i < |tasks| && 0 <= s < SAMPLES ==>
         var task, sample, record := tasks[i], outputs[i][s], records[i * SAMPLES + s];
         && record.key == Key(task.dataset, task.question, s)
         && record.response == sample.text && record.tokens == sample.tokens && record.finish == sample.finish
         && record.correct == if verify(sample.text, task.answer) then 1 else 0
  }

  lemma {:induction false} BatchRecordsAre(tasks: seq<Task>, outputs: seq<seq<Completion>>, verify: (string, string) -> bool)
    requires |tasks| <= |outputs| && forall i :: 0 <= i < |tasks| ==> |outputs[i]| == SAMPLES
    ensures AreRecords(BatchRecords(tasks, outputs, verify), tasks, outputs, verify)
  {
    if tasks != [] {
      var n := |tasks| - 1;
      var before, last := BatchRecords(tasks[..n], outputs, verify), TaskRecords(tasks[n], outputs[n], verify);
      BatchRecordsAre(tasks[..n], outputs, verify);
      var records := before + last;
      forall i, s | 0 <= i < |tasks| && 0 <= s < SAMPLES
        ensures records[i * SAMPLES + s] == RecordOf(tasks[i], s, outputs[i][s], verify)
      {
        if i < n {
          assert records[i * SAMPLES + s] == before[i * SAMPLES + s] && tasks[..n][i] == tasks[i];
        } else {
          assert records[i * SAMPLES + s] == last[s];
        }
      }
    }
  }

  /** Each record answers one of the tasks, and `correct` is 1 exactly if its response verifies. */
  ghost predicate Genuine(records: seq<Record>, tasks: seq<Task>, verify: (string, string) -> bool) {
    forall i :: 0 <= i < |records| ==> Answers(records[i], tasks, verify)
  }

  ghost predicate Answers(record: Record, tasks: seq<Task>, verify: (string, string) -> bool) {
    exists t :: 0 <= t < |tasks| && tasks[t].dataset == record.key.dataset && tasks[t].question == record.key.question
                && record.correct == if verify(record.response, tasks[t].answer) then 1 else 0
  }

  lemma {:induction false} BatchRecordsAreGenuine(
    tasks: seq<Task>, outputs: seq<seq<Completion>>, verify: (string, string) -> bool)
    requires |tasks| <= |outputs|
    ensures Genuine(BatchRecords(tasks, outputs, verify), tasks, verify)
  {
    if tasks != [] {
      var n := |tasks| - 1;
      var before, last := BatchRecords(tasks[..n], outputs, verify), TaskRecords(tasks[n], outputs[n], verify);
      BatchRecordsAreGenuine(tasks[..n], outputs, verify);
      forall i | 0 <= i < |last| ensures Answers(last[i], [tasks[n]], verify) {
        assert [tasks[n]][0].question == last[i].key.question;
      }
      GenuineConcat(before, last, tasks, tasks[..n], [tasks[n]], verify);
    }
  }

  lemma GenuineConcat(
    a: seq<Record>, b: seq<Record>, tasks: seq<Task>, s: seq<Task>, t: seq<Task>, verify: (string, string) -> bool)
    requires Genuine(a, s, verify) && Genuine(b, t, verify) && tasks == s + t
    ensures Genuine(a + b, tasks, verify)
  {
    forall i | 0 <= i < |a + b| ensures Answers((a + b)[i], tasks, verify) {
      if i < |a| {
        assert Answers(a[i], s, verify);
        var k :| 0 <= k < |s| && s[k].dataset == a[i].key.dataset && s[k].question == a[i].key.question
          && a[i].correct == if verify(a[i].response, s[k].answer) then 1 else 0;
        assert tasks[k] == s[k];
      } else {
        var r := b[i - |a|];
        assert Answers(r, t, verify);
        var k :| 0 <= k < |t| && t[k].dataset == r.key.dataset && t[k].question == r.key.question
          && r.correct == if verify(r.response, t[k].answer) then 1 else 0;
        assert tasks[|s| + k] == t[k];
      }
    }
  }

  datatype WorkError = BadBatchSize | WrongOutputCount | WrongSampleCount

  /** One job of a worker, given what the model generates for a list of prompts. */
  method WorkOnBatch(
    model: string, seed: int, batchId: nat, tasks: seq<Task>, padding: string,
    generate: seq<string> -> seq<seq<Completion>>, verify: (string, string) -> bool, stamp: string)
    returns (r: Result<Payload, WorkError>)
    ensures !(1 <= |tasks| <= QUESTIONS) ==> r == Err(BadBatchSize)
    ensures 1 <= |tasks| <= QUESTIONS ==>
              var outputs := generate(Prompts(tasks, padding));
              if WellShaped(tasks, outputs) then
                && r == Ok(PayloadOf(model, seed, batchId, BatchRecords(tasks, outputs, verify), stamp))
                && AreRecords(r.value.records, tasks, outputs, verify) && Genuine(r.value.records, tasks, verify)
              else r.Err?
  {
    hide AreRecords, Genuine;
    if !(1 <= |tasks| <= QUESTIONS) {
      return Err(BadBatchSize);
    }
    var prompts := [];
    for i := 0 to |tasks|
      invariant |prompts| == i && forall j :: 0 <= j < i ==> prompts[j] == tasks[j].prompt
    {
      prompts := prompts + [tasks[i].prompt];
    }
    while |prompts| < QUESTIONS
      invariant |tasks| <= |prompts| <= QUESTIONS
      invariant forall j :: 0 <= j < |prompts| ==> prompts[j] == if j < |tasks| then tasks[j].prompt else padding
    {
      prompts := prompts + [padding];
    }
    assert prompts == Prompts(tasks, padding);
    var outputs := generate(prompts);
    if |outputs| != QUESTIONS {
      return Err(WrongOutputCount);
    }
    var records := [];
    for i := 0 to |tasks|
      invariant records == BatchRecords(tasks[..i], outputs, verify)
      invariant forall j :: 0 <= j < i ==> |outputs[j]| == SAMPLES
    {
      if |outputs[i]| != SAMPLES {
        return Err(WrongSampleCount);
      }
      var t, ofTask := tasks[i], [];
      for s := 0 to |outputs[i]|
        invariant |ofTask| == s && forall j :: 0 <= j < s ==> ofTask[j] == RecordOf(t, j, outputs[i][j], verify)
      {
        ofTask := ofTask + [RecordOf(t, s, outputs[i][s], verify)];
      }
      assert ofTask == TaskRecords(t, outputs[i], verify);
      assert tasks[..i + 1][..i] == tasks[..i];
      records := records + ofTask;
    }
    assert tasks[..|tasks|] == tasks;
    BatchRecordsAre(tasks, outputs, verify);
    BatchRecordsAreGenuine(tasks, outputs, verify);
    r := Ok(PayloadOf(model, seed, batchId, records, stamp));
  }

  function PayloadOf(model: string, seed: int, batchId: nat, records: seq<Record>, stamp: string): (r: Payload) {
    Payload(model, seed, batchId, SAMPLES * QUESTIONS, |records|, records, stamp)
  }

  predicate ValidPayload(p: Payload, model: string, seed: int, batchId: nat, questions: nat) {
    && p.model == model && p.seed == seed && p.batchId == batchId
    && p.generated == SAMPLES * QUESTIONS && p.kept == questions * SAMPLES && |p.records| == questions * SAMPLES
  }

  /** What a worker writes is accepted as a completed shard. */
  lemma WrittenIsValid(
    model: string, seed: int, batchId: nat, tasks: seq<Task>, outputs: seq<seq<Completion>>,
    verify: (string, string) -> bool, stamp: string)
    requires WellShaped(tasks, outputs)
    ensures ValidPayload(PayloadOf(model, seed, batchId, BatchRecords(tasks, outputs, verify), stamp),
                         model, seed, batchId, |tasks|)
  {
    BatchRecordKeys(tasks, outputs, verify);
    assert |RecordKeys(BatchRecords(tasks, outputs, verify))| == |tasks| * SAMPLES;
  }

  // ---- the summary of a seed --------------------------------------------------------------------------------------

  datatype ShardId = ShardId(model: string, seed: int, batchId: nat)

  /** One row of a summary: means over the rollouts of one dataset. */
  datatype Row = Row(dataset: string, questions: nat, rollouts: nat, average: real, meanTokens: real, truncation: real)

  datatype SummaryError = MissingShard(batchId: nat) | InvalidShard(batchId: nat) | WrongKeys | EmptyDataset(name: string)

  /** Reading one shard back: absent, damaged, or complete. */
  function LoadValid(shards: map<ShardId, Payload>, id: ShardId, questions: nat): (r: Result<seq<Record>, SummaryError>) {
    if id !in shards then Err(MissingShard(id.batchId))
    else if !ValidPayload(shards[id], id.model, id.seed, id.batchId, questions) then Err(InvalidShard(id.batchId))
    else Ok(shards[id].records)
  }

  /** The records of all batches, in order. */
  function LoadAll(shards: map<ShardId, Payload>, model: string, seed: int, batches: seq<seq<Task>>)
    : (r: Result<seq<Record>, SummaryError>)
  {
    if batches == [] then Ok([])
    else
      var n := |batches| - 1;
      match LoadAll(shards, model, seed, batches[..n])
      case Err(e) => Err(e)
      case Ok(before) =>
        match LoadValid(shards, ShardId(model, seed, n), |batches[n]|)
        case Err(e) => Err(e)
        case Ok(records) => Ok(before + records)
  }

  /** A shard of this model, seed and batch with sixteen records for each of its questions. */
  ghost predicate Fine(shards: map<ShardId, Payload>, model: string, seed: int, b: nat, questions: nat) {
    var id := ShardId(model, seed, b);
    && id in shards && shards[id].model == model && shards[id].seed == seed && shards[id].batchId == b
    && shards[id].generated == 256 && shards[id].kept == |shards[id].records| == questions * 16
  }

  /** The records of the shards, or the first shard that is missing or not fine. */
  ghost predicate Loaded(
    shards: map<ShardId, Payload>, model: string, seed: int, batches: seq<seq<Task>>,
    r: Result<seq<Record>, SummaryError>)
  {
    match r
    case Ok(records) =>
      && (forall b: nat :: b < |batches| ==> Fine(shards, model, seed, b, |batches[b]|))
      && records == Flatten(seq(|batches|, b requires 0 <= b < |batches| && Fine(shards, model, seed, b, |batches[b]|) =>
           shards[ShardId(model, seed, b)].records))
    case Err(e) =>
      exists b: nat :: b < |batches| && FailsAt(shards, model, seed, batches, b)
        && e == if ShardId(model, seed, b) in shards then InvalidShard(b) else MissingShard(b)
  }

  ghost predicate FailsAt(shards: map<ShardId, Payload>, model: string, seed: int, batches: seq<seq<Task>>, b: nat)
    requires b < |batches|
  {
    !Fine(shards, model, seed, b, |batches[b]|) && forall a: nat :: a < b ==> Fine(shards, model, seed, a, |batches[a]|)
  }

  lemma {:induction false} LoadsAll(shards: map<ShardId, Payload>, model: string, seed: int, batches: seq<seq<Task>>)
    ensures Loaded(shards, model, seed, batches, LoadAll(shards, model, seed, batches))
  {
    hide Flatten;
    if batches != [] {
      var n := |batches| - 1;
      var before := batches[..n];
      LoadsAll(shards, model, seed, before);
      var earlier, r := LoadAll(shards, model, seed, before), LoadAll(shards, model, seed, batches);
      if earlier.Err? {
        var b: nat :| b < n && FailsAt(shards, model, seed, before, b)
          && earlier.error == if ShardId(model, seed, b) in shards then InvalidShard(b) else MissingShard(b);
        assert FailsAt(shards, model, seed, batches, b);
      } else if r.Err? {
        assert FailsAt(shards, model, seed, batches, n);
      } else {
        var pieces := seq(n, b requires 0 <= b < n && Fine(shards, model, seed, b, |before[b]|) =>
          shards[ShardId(model, seed, b)].records);
        var all := seq(n + 1, b requires 0 <= b < n + 1 && Fine(shards, model, seed, b, |batches[b]|) =>
          shards[ShardId(model, seed, b)].records);
        assert all == pieces + [shards[ShardId(model, seed, n)].records];
        FlattenSnoc(pieces, shards[ShardId(model, seed, n)].records);
      }
    } else {
      NothingLoaded(shards, model, seed);
    }
  }

  lemma NothingLoaded(shards: map<ShardId, Payload>, model: string, seed: int)
    ensures Loaded(shards, model, seed, [], Ok([]))
  {
  }

  function OfDataset(records: seq<Record>, name: string): (result: seq<Record>) {
    Filter(records, (r: Record) => r.key.dataset == name)
  }

  function SumOf(records: seq<Record>, value: Record -> nat): (r: nat) {
    if records == [] then 0 else SumOf(records[..|records| - 1], value) + value(records[|records| - 1])
  }

  function Mean(records: seq<Record>, value: Record -> nat): (r: real)
    requires records != []
  {
    SumOf(records, value) as real / |records| as real
  }

  function RowOf(d: Dataset, records: seq<Record>): (result: Row)
    requires OfDataset(records, d.name) != []
  {
    var selected := OfDataset(records, d.name);
    Row(d.name, |d.examples|, |selected|, Mean(selected, (r: Record) => r.correct), Mean(selected, (r: Record) => r.tokens),
        Mean(selected, (r: Record) => if r.finish == "length" then 1 else 0))
  }

  function RowsOf(datasets: seq<Dataset>, records: seq<Record>): (r: Result<seq<Row>, SummaryError>) {
    if datasets == [] then Ok([])
    else
      var n := |datasets| - 1;
      match RowsOf(datasets[..n], records)
      case Err(e) => Err(e)
      case Ok(before) =>
        if OfDataset(records, datasets[n].name) == [] then Err(EmptyDataset(datasets[n].name))
        else Ok(before + [RowOf(datasets[n], records)])
  }

  // ---- what a row says --------------------------------------------------------------------------------------------

  /** The keys of the dataset's records with a property. */
  ghost function KeysWith(records: seq<Record>, name: string, holds: Record -> bool): (result: set<Key>) {
    set i | 0 <= i < |records| && records[i].key.dataset == name && holds(records[i]) :: records[i].key
  }

  /** As many pairs for each of the dataset's keys as its record has units. */
  ghost function UnitsOf(records: seq<Record>, name: string, units: Record -> nat): (result: set<(Key, nat)>) {
    set i, j: nat | 0 <= i < |records| && records[i].key.dataset == name && j < units(records[i]) :: (records[i].key, j)
  }

  ghost function Units(key: Key, n: nat): (result: set<(Key, nat)>) {
    set j: nat | j < n :: (key, j)
  }

  lemma {:induction false} UnitsSize(key: Key, n: nat)
    ensures |Units(key, n)| == n
  {
    if n > 0 {
      UnitsSize(key, n - 1);
      assert Units(key, n) == Units(key, n - 1) + {(key, n - 1)};
    }
  }

  lemma MoreUnits(records: seq<Record>, name: string, units: Record -> nat)
    requires records != []
    ensures var n := |records| - 1;
            var here := if records[n].key.dataset == name then Units(records[n].key, units(records[n])) else {};
            UnitsOf(records, name, units) == UnitsOf(records[..n], name, units) + here
  {
    var n := |records| - 1;
    var before := UnitsOf(records[..n], name, units);
    var here := if records[n].key.dataset == name then Units(records[n].key, units(records[n])) else {};
    forall u | u in before ensures u in UnitsOf(records, name, units) {
      var i, j: nat :| 0 <= i < n && records[..n][i].key.dataset == name && j < units(records[..n][i])
        && u == (records[..n][i].key, j);
      assert records[i] == records[..n][i];
    }
    forall u | u in UnitsOf(records, name, units) ensures u in before + here {
      var i, j: nat :| 0 <= i <= n && records[i].key.dataset == name && j < units(records[i]) && u == (records[i].key, j);
      assert i < n ==> records[..n][i] == records[i];
    }
  }

  lemma {:induction false} SumIsCounted(records: seq<Record>, name: string, units: Record -> nat)
    requires NoRepeats(RecordKeys(records))
    ensures SumOf(OfDataset(records, name), units) == |UnitsOf(records, name, units)|
  {
    if records != [] {
      var n := |records| - 1;
      KeysShrink(records);
      SumIsCounted(records[..n], name, units);
      MoreUnits(records, name, units);
      UnitsSize(records[n].key, units(records[n]));
      LastIsNew(records, name, units);
      LastOfDataset(records, name, units);
    }
  }

  lemma KeysShrink(records: seq<Record>)
    requires records != [] && NoRepeats(RecordKeys(records))
    ensures NoRepeats(RecordKeys(records[..|records| - 1]))
  {
    assert RecordKeys(records[..|records| - 1]) == RecordKeys(records)[..|records| - 1];
  }

  lemma LastIsNew(records: seq<Record>, name: string, units: Record -> nat)
    requires records != [] && NoRepeats(RecordKeys(records))
    ensures var n := |records| - 1;
            UnitsOf(records[..n], name, units) !! Units(records[n].key, units(records[n]))
  {
    var n := |records| - 1;
    forall u | u in UnitsOf(records[..n], name, units) ensures u.0 != records[n].key {
      var i, j: nat :| 0 <= i < n && records[..n][i].key.dataset == name && j < units(records[..n][i])
        && u == (records[..n][i].key, j);
      assert RecordKeys(records)[i] != RecordKeys(records)[n];
    }
  }

  lemma LastOfDataset(records: seq<Record>, name: string, units: Record -> nat)
    requires records != []
    ensures var n := |records| - 1;
            var more := if records[n].key.dataset == name then units(records[n]) else 0;
            SumOf(OfDataset(records, name), units) == SumOf(OfDataset(records[..n], name), units) + more
  {
    var n := |records| - 1;
    var before := OfDataset(records[..n], name);
    if records[n].key.dataset == name {
      assert OfDataset(records, name) == before + [records[n]];
      assert (before + [records[n]])[..|before|] == before;
    } else {
      assert OfDataset(records, name) == before;
    }
  }

  /** One unit for each record with a property: as many as there are keys with it. */
  lemma CountIsCounted(records: seq<Record>, name: string, units: Record -> nat, holds: Record -> bool)
    requires forall i :: 0 <= i < |records| && records[i].key.dataset == name ==>
               units(records[i]) == if holds(records[i]) then 1 else 0
    ensures |UnitsOf(records, name, units)| == |KeysWith(records, name, holds)|
  {
    var keys := KeysWith(records, name, holds);
    assert UnitsOf(records, name, units) == (set k | k in keys :: (k, 0));
    FirstUnits(keys);
  }

  lemma {:induction false} FirstUnits(keys: set<Key>)
    ensures |(set k | k in keys :: (k, 0))| == |keys|
  {
    if keys != {} {
      var k :| k in keys;
      FirstUnits(keys - {k});
      assert (set x | x in keys :: (x, 0)) == (set x | x in keys - {k} :: (x, 0)) + {(k, 0)};
    }
  }

  lemma {:induction false} SelectedIsCounted(records: seq<Record>, name: string)
    requires NoRepeats(RecordKeys(records))
    ensures |OfDataset(records, name)| == |KeysWith(records, name, r => true)|
  {
    SumIsCounted(records, name, r => 1);
    CountIsCounted(records, name, r => 1, r => true);
    SumOfOnes(OfDataset(records, name), r => 1);
  }

  lemma {:induction false} SumOfOnes(records: seq<Record>, units: Record -> nat)
    requires forall r :: units(r) == 1
    ensures SumOf(records, units) == |records|
  {
    if records != [] {
      SumOfOnes(records[..|records| - 1], units);
    }
  }

  /** A row in terms of the dataset's keys: times the number of its keys, `average` gives all correct marks together,
      `meanTokens` all tokens, and `truncation` the number of keys finished by length. */
  ghost predicate RowAdds(row: Row, d: Dataset, records: seq<Record>) {
    var n := |KeysWith(records, d.name, r => true)|;
    && row.dataset == d.name && row.questions == |d.examples| && row.rollouts == n > 0
    && row.average * n as real == |UnitsOf(records, d.name, (r: Record) => r.correct)| as real
    && row.meanTokens * n as real == |UnitsOf(records, d.name, (r: Record) => r.tokens)| as real
    && row.truncation * n as real == |KeysWith(records, d.name, (r: Record) => r.finish == "length")| as real
  }

  lemma Quotient(sum: nat, n: nat)
    requires n > 0
    ensures (sum as real / n as real) * n as real == sum as real
  {
  }

  lemma RowDoesAdd(d: Dataset, records: seq<Record>)
    requires NoRepeats(RecordKeys(records)) && OfDataset(records, d.name) != []
    ensures RowAdds(RowOf(d, records), d, records)
  {
    hide OfDataset, SumOf, KeysWith, UnitsOf, NoRepeats;
    var selected := OfDataset(records, d.name);
    SelectedIsCounted(records, d.name);
    SumIsCounted(records, d.name, (r: Record) => r.correct);
    SumIsCounted(records, d.name, (r: Record) => r.tokens);
    SumIsCounted(records, d.name, (r: Record) => if r.finish == "length" then 1 else 0);
    CountIsCounted(records, d.name, (r: Record) => if r.finish == "length" then 1 else 0, (r: Record) => r.finish == "length");
    Quotient(SumOf(selected, (r: Record) => r.correct), |selected|);
    Quotient(SumOf(selected, (r: Record) => r.tokens), |selected|);
    Quotient(SumOf(selected, (r: Record) => if r.finish == "length" then 1 else 0), |selected|);
  }

  lemma {:induction false} RowsDoAdd(datasets: seq<Dataset>, records: seq<Record>)
    requires NoRepeats(RecordKeys(records)) && RowsOf(datasets, records).Ok?
    ensures |RowsOf(datasets, records).value| == |datasets|
    ensures forall i :: 0 <= i < |datasets| ==> RowAdds(RowsOf(datasets, records).value[i], datasets[i], records)
  {
    hide OfDataset, RowOf, RowAdds, NoRepeats;
    if datasets != [] {
      var n := |datasets| - 1;
      RowsDoAdd(datasets[..n], records);
      RowDoesAdd(datasets[n], records);
    }
  }

  function ActualKeys(records: seq<Record>): (r: set<Key>) {
    set i | 0 <= i < |records| :: records[i].key
  }

  /** All expected keys, as a set. */
  function ExpectedKeys(datasets: seq<Dataset>): (r: set<Key>) {
    set k | k in KeysOf(TasksOf(datasets))
  }

  /** What summarizing one seed's shards yields. */
  function SeedOutcome(datasets: seq<Dataset>, shards: map<ShardId, Payload>, model: string, seed: int)
    : (r: Result<seq<Row>, SummaryError>)
  {
    match LoadAll(shards, model, seed, BatchesOf(datasets))
    case Err(e) => Err(e)
    case Ok(records) =>
      if ActualKeys(records) != ExpectedKeys(datasets) || |records| != |ExpectedKeys(datasets)| then Err(WrongKeys)
      else RowsOf(datasets, records)
  }

  method CollectExpected(datasets: seq<Dataset>) returns (keys: set<Key>)
    ensures keys == ExpectedKeys(datasets)
  {
    keys := {};
    for i := 0 to |datasets|
      invariant keys == ExpectedKeys(datasets[..i])
    {
      var d := datasets[i];
      ghost var before := keys;
      for q := 0 to |d.examples|
        invariant keys == before + (set k | k in KeysOf(DatasetTasks(d)[..q]))
      {
        ghost var soFar := keys;
        for s := 0 to SAMPLES
          invariant keys == soFar + (set k | k in TaskKeys(TaskAt(d, q))[..s])
        {
          assert TaskKeys(TaskAt(d, q))[..s + 1] == TaskKeys(TaskAt(d, q))[..s] + [Key(d.name, q, s)];
          keys := keys + {Key(d.name, q, s)};
        }
        assert TaskKeys(TaskAt(d, q))[..SAMPLES] == TaskKeys(TaskAt(d, q));
        assert DatasetTasks(d)[..q + 1] == DatasetTasks(d)[..q] + [TaskAt(d, q)];
      }
      assert DatasetTasks(d)[..|d.examples|] == DatasetTasks(d);
      assert datasets[..i + 1][..i] == datasets[..i];
      KeysConcat(TasksOf(datasets[..i]), DatasetTasks(d));
    }
    assert datasets[..|datasets|] == datasets;
  }

  method SummarizeSeed(datasets: seq<Dataset>, shards: map<ShardId, Payload>, model: string, seed: int)
    returns (r: Result<seq<Row>, SummaryError>)
    ensures r == SeedOutcome(datasets, shards, model, seed)
    ensures var loaded := LoadAll(shards, model, seed, BatchesOf(datasets));
            Loaded(shards, model, seed, BatchesOf(datasets), loaded) && (loaded.Err? ==> r == Err(loaded.error))
    ensures r.Ok? ==>
              var loaded := LoadAll(shards, model, seed, BatchesOf(datasets));
              && loaded.Ok? && |r.value| == |datasets|
              && forall i :: 0 <= i < |datasets| ==> RowAdds(r.value[i], datasets[i], loaded.value)
  {
    hide RowAdds, Loaded;
    var batches := BatchesOf(datasets);
    LoadsAll(shards, model, seed, batches);
    var records := [];
    for b := 0 to |batches|
      invariant LoadAll(shards, model, seed, batches[..b]) == Ok(records)
    {
      assert batches[..b + 1][..b] == batches[..b];
      var payload := LoadValid(shards, ShardId(model, seed, b), |batches[b]|);
      if payload.Err? {
        LoadFails(shards, model, seed, batches, b + 1);
        return Err(payload.error);
      }
      records := records + payload.value;
    }
    assert batches[..|batches|] == batches;
    var expected := CollectExpected(datasets);
    if ActualKeys(records) != expected || |records| != |expected| {
      return Err(WrongKeys);
    }
    var rows := [];
    for i := 0 to |datasets|
      invariant RowsOf(datasets[..i], records) == Ok(rows)
    {
      assert datasets[..i + 1][..i] == datasets[..i];
      if OfDataset(records, datasets[i].name) == [] {
        RowsFail(datasets, records, i + 1);
        return Err(EmptyDataset(datasets[i].name));
      }
      rows := rows + [RowOf(datasets[i], records)];
    }
    assert datasets[..|datasets|] == datasets;
    KeysAreOnce(records);
    RowsDoAdd(datasets, records);
    r := Ok(rows);
  }

  /** As many different keys as records means that no key is repeated. */
  lemma {:induction false} KeysAreOnce(records: seq<Record>)
    ensures |ActualKeys(records)| <= |records|
    ensures |ActualKeys(records)| == |records| ==> NoRepeats(RecordKeys(records))
  {
    if records != [] {
      var n := |records| - 1;
      var before, last := ActualKeys(records[..n]), records[n].key;
      KeysAreOnce(records[..n]);
      OneMoreKey(records);
      if last !in before {
        assert RecordKeys(records) == RecordKeys(records[..n]) + [last];
        forall i | 0 <= i < n ensures RecordKeys(records[..n])[i] != last {
          assert records[..n][i].key in before;
        }
      } else {
        assert ActualKeys(records) == before;
      }
    }
  }

  lemma OneMoreKey(records: seq<Record>)
    requires records != []
    ensures ActualKeys(records) == ActualKeys(records[..|records| - 1]) + {records[|records| - 1].key}
  {
    var n := |records| - 1;
    assert forall i :: 0 <= i < n ==> records[..n][i] == records[i];
    forall k | k in ActualKeys(records[..n]) ensures k in ActualKeys(records) {
      var i :| 0 <= i < n && records[..n][i].key == k;
      assert records[i].key == k;
    }
  }

  lemma {:induction false} LoadFails(shards: map<ShardId, Payload>, model: string, seed: int, batches: seq<seq<Task>>, b: nat)
    requires b <= |batches| && LoadAll(shards, model, seed, batches[..b]).Err?
    ensures LoadAll(shards, model, seed, batches) == LoadAll(shards, model, seed, batches[..b])
  {
    if b == |batches| {
      assert batches[..b] == batches;
    } else {
      assert batches[..|batches| - 1][..b] == batches[..b];
      LoadFails(shards, model, seed, batches[..|batches| - 1], b);
    }
  }

  lemma {:induction false} RowsFail(datasets: seq<Dataset>, records: seq<Record>, i: nat)
    requires i <= |datasets| && RowsOf(datasets[..i], records).Err?
    ensures RowsOf(datasets, records) == RowsOf(datasets[..i], records)
  {
    if i == |datasets| {
      assert datasets[..i] == datasets;
    } else {
      assert datasets[..|datasets| - 1][..i] == datasets[..i];
      RowsFail(datasets[..|datasets| - 1], records, i);
    }
  }

  // ---- complete seeds ---------------------------------------------------------------------------------------------

  /** The records at hand are those of this batch's questions, each sample once. */
  ghost predicate CompleteShard(p: Payload, model: string, seed: int, batchId: nat, batch: seq<Task>) {
    ValidPayload(p, model, seed, batchId, |batch|) && RecordKeys(p.records) == KeysOf(batch)
  }

  ghost predicate CompleteSeed(
    shards: map<ShardId, Payload>, model: string, seed: int, batches: seq<seq<Task>>, n: nat)
    requires n <= |batches|
  {
    forall b: nat :: b < n ==>
      ShardId(model, seed, b) in shards && CompleteShard(shards[ShardId(model, seed, b)], model, seed, b, batches[b])
  }

  lemma {:induction false} CompleteSeedLoads(
    shards: map<ShardId, Payload>, model: string, seed: int, batches: seq<seq<Task>>)
    requires CompleteSeed(shards, model, seed, batches, |batches|)
    ensures LoadAll(shards, model, seed, batches).Ok?
    ensures RecordKeys(LoadAll(shards, model, seed, batches).value) == KeysOf(Flatten(batches))
  {
    if batches != [] {
      hide KeysOf, Flatten;
      var n := |batches| - 1;
      var before := batches[..n];
      CompleteSeedLoads(shards, model, seed, before);
      RecordKeysConcat(LoadAll(shards, model, seed, before).value, shards[ShardId(model, seed, n)].records);
      assert batches == before + [batches[n]];
      FlattenSnoc(before, batches[n]);
      KeysConcat(Flatten(before), batches[n]);
    }
  }

  function KeysIn(keys: seq<Key>, name: string): (r: nat) {
    if keys == [] then 0
    else KeysIn(keys[..|keys| - 1], name) + if keys[|keys| - 1].dataset == name then 1 else 0
  }

  lemma {:induction false} KeysInConcat(a: seq<Key>, b: seq<Key>, name: string)
    ensures KeysIn(a + b, name) == KeysIn(a, name) + KeysIn(b, name)
  {
    if b == [] {
      assert a + b == a;
    } else {
      assert (a + b)[..|a + b| - 1] == a + b[..|b| - 1];
      KeysInConcat(a, b[..|b| - 1], name);
    }
  }

  lemma {:induction false} SelectedCount(records: seq<Record>, name: string)
    ensures |OfDataset(records, name)| == KeysIn(RecordKeys(records), name)
  {
    if records != [] {
      var n := |records| - 1;
      SelectedCount(records[..n], name);
      assert RecordKeys(records)[..n] == RecordKeys(records[..n]);
    }
  }

  lemma {:induction false} UniformKeys(keys: seq<Key>, dataset: string, name: string)
    requires forall i :: 0 <= i < |keys| ==> keys[i].dataset == dataset
    ensures KeysIn(keys, name) == if dataset == name then |keys| else 0
  {
    if keys != [] {
      UniformKeys(keys[..|keys| - 1], dataset, name);
    }
  }

  lemma {:induction false} DatasetKeys(tasks: seq<Task>, dataset: string, name: string)
    requires forall i :: 0 <= i < |tasks| ==> tasks[i].dataset == dataset
    ensures KeysIn(KeysOf(tasks), name) == if dataset == name then |tasks| * SAMPLES else 0
  {
    if tasks != [] {
      var n := |tasks| - 1;
      DatasetKeys(tasks[..n], dataset, name);
      KeysInConcat(KeysOf(tasks[..n]), TaskKeys(tasks[n]), name);
      UniformKeys(TaskKeys(tasks[n]), dataset, name);
    }
  }

  /** Every dataset has sixteen keys per question. */
  lemma {:induction false} KeysPerDataset(datasets: seq<Dataset>, d: nat)
    requires DistinctDatasets(datasets) && d < |datasets|
    ensures KeysIn(KeysOf(TasksOf(datasets)), datasets[d].name) == |datasets[d].examples| * SAMPLES
  {
    var n := |datasets| - 1;
    var name, before, last := datasets[d].name, TasksOf(datasets[..n]), DatasetTasks(datasets[n]);
    KeysConcat(before, last);
    KeysInConcat(KeysOf(before), KeysOf(last), name);
    DatasetKeys(last, datasets[n].name, name);
    if d < n {
      KeysPerDataset(datasets[..n], d);
    } else {
      NoKeysOfOthers(datasets[..n], name);
    }
  }

  lemma {:induction false} NoKeysOfOthers(datasets: seq<Dataset>, name: string)
    requires forall i :: 0 <= i < |datasets| ==> datasets[i].name != name
    ensures KeysIn(KeysOf(TasksOf(datasets)), name) == 0
  {
    if datasets != [] {
      var n := |datasets| - 1;
      var before, last := TasksOf(datasets[..n]), DatasetTasks(datasets[n]);
      NoKeysOfOthers(datasets[..n], name);
      KeysConcat(before, last);
      KeysInConcat(KeysOf(before), KeysOf(last), name);
      DatasetKeys(last, datasets[n].name, name);
    }
  }

  /** Sixteen rollouts per question of every dataset, in the order of the datasets. */
  ghost predicate FullRows(datasets: seq<Dataset>, rows: seq<Row>) {
    && |rows| == |datasets|
    && forall i :: 0 <= i < |rows| ==>
         && rows[i].dataset == datasets[i].name && rows[i].questions == |datasets[i].examples|
         && rows[i].rollouts == |datasets[i].examples| * SAMPLES
  }

  ghost predicate ProperDatasets(datasets: seq<Dataset>) {
    DistinctDatasets(datasets) && forall i :: 0 <= i < |datasets| ==> datasets[i].examples != []
  }

  lemma {:induction false} RowsAreFull(datasets: seq<Dataset>, records: seq<Record>)
    requires forall d :: 0 <= d < |datasets| ==>
               && datasets[d].examples != []
               && KeysIn(RecordKeys(records), datasets[d].name) == |datasets[d].examples| * SAMPLES
    ensures RowsOf(datasets, records).Ok? && FullRows(datasets, RowsOf(datasets, records).value)
  {
    if datasets != [] {
      var n := |datasets| - 1;
      RowsAreFull(datasets[..n], records);
      SelectedCount(records, datasets[n].name);
    }
  }

  /** Each expected key occurs exactly once among the records' keys, and no other key occurs. */
  ghost predicate CoversOnce(datasets: seq<Dataset>, records: seq<Record>) {
    && NoRepeats(RecordKeys(records))
    && forall k :: k in RecordKeys(records) <==> Expected(datasets, k)
  }

  /** The check for missing and duplicate records passes on complete shards, and no mean divides by zero. */
  lemma CompleteSeedSummarizes(datasets: seq<Dataset>, shards: map<ShardId, Payload>, model: string, seed: int)
    requires ProperDatasets(datasets)
    requires CompleteSeed(shards, model, seed, BatchesOf(datasets), |BatchesOf(datasets)|)
    ensures LoadAll(shards, model, seed, BatchesOf(datasets)).Ok?
    ensures var records := LoadAll(shards, model, seed, BatchesOf(datasets)).value;
            && CoversOnce(datasets, records)
            && SeedOutcome(datasets, shards, model, seed) == RowsOf(datasets, records)
    ensures SeedOutcome(datasets, shards, model, seed).Ok?
    ensures FullRows(datasets, SeedOutcome(datasets, shards, model, seed).value)
  {
    hide CompleteSeed, CutBy, Expected, NoRepeats, RowsOf, LoadAll;
    var tasks := TasksOf(datasets);
    CompleteSeedLoads(shards, model, seed, BatchesOf(datasets));
    var records := LoadAll(shards, model, seed, BatchesOf(datasets)).value;
    CutFlattens(tasks, QUESTIONS);
    KeysOfAllTasks(datasets);
    SameKeySets(records, KeysOf(tasks));
    forall d | 0 <= d < |datasets|
      ensures KeysIn(RecordKeys(records), datasets[d].name) == |datasets[d].examples| * SAMPLES
    {
      KeysPerDataset(datasets, d);
    }
    RowsAreFull(datasets, records);
  }

  lemma SameKeySets(records: seq<Record>, keys: seq<Key>)
    requires RecordKeys(records) == keys && NoRepeats(keys)
    ensures ActualKeys(records) == (set k | k in keys) && |records| == |(set k | k in keys)|
  {
    DistinctCount(keys);
    forall k | k in keys ensures k in ActualKeys(records) {
      var i :| 0 <= i < |keys| && keys[i] == k;
      assert records[i].key == k;
    }
    forall k | k in ActualKeys(records) ensures k in keys {
      var i :| 0 <= i < |records| && records[i].key == k;
      assert keys[i] == k;
    }
  }

  // ---- what the summary of a complete seed says -------------------------------------------------------------------

  function Verifies(d: Dataset, verify: (string, string) -> bool): (result: Record -> bool) {
    (r: Record) => r.key.question < |d.examples| && verify(r.response, d.examples[r.key.question].answer)
  }

  /** Times its sixteen rollouts per question, `average` is the number of the dataset's keys whose response verifies
      against the question's answer, `meanTokens` the total of the tokens, and `truncation` the number of keys whose
      sample was finished by length. */
  ghost predicate RowTells(row: Row, d: Dataset, records: seq<Record>, verify: (string, string) -> bool) {
    var n := |d.examples| * SAMPLES;
    && row.dataset == d.name && row.questions == |d.examples| && row.rollouts == n > 0
    && n == |KeysWith(records, d.name, r => true)|
    && 0.0 <= row.average <= 1.0
    && row.average * n as real == |KeysWith(records, d.name, Verifies(d, verify))| as real
    && row.meanTokens * n as real == |UnitsOf(records, d.name, (r: Record) => r.tokens)| as real
    && row.truncation * n as real == |KeysWith(records, d.name, (r: Record) => r.finish == "length")| as real
  }

  ghost predicate GenuineSeed(
    shards: map<ShardId, Payload>, model: string, seed: int, batches: seq<seq<Task>>, n: nat,
    verify: (string, string) -> bool)
    requires n <= |batches|
  {
    forall b: nat :: b < n ==>
      ShardId(model, seed, b) in shards && Genuine(shards[ShardId(model, seed, b)].records, batches[b], verify)
  }

  lemma {:induction false} LoadedIsGenuine(
    shards: map<ShardId, Payload>, model: string, seed: int, batches: seq<seq<Task>>, verify: (string, string) -> bool)
    requires CompleteSeed(shards, model, seed, batches, |batches|)
    requires GenuineSeed(shards, model, seed, batches, |batches|, verify)
    ensures LoadAll(shards, model, seed, batches).Ok?
    ensures Genuine(LoadAll(shards, model, seed, batches).value, Flatten(batches), verify)
  {
    if batches != [] {
      hide KeysOf, Flatten, Genuine;
      var n := |batches| - 1;
      var before, id := batches[..n], ShardId(model, seed, n);
      LoadedIsGenuine(shards, model, seed, before, verify);
      assert batches == before + [batches[n]];
      FlattenSnoc(before, batches[n]);
      GenuineConcat(LoadAll(shards, model, seed, before).value, shards[id].records, Flatten(batches), Flatten(before),
                    batches[n], verify);
    } else {
      assert Genuine([], Flatten(batches), verify);
    }
  }

  ghost predicate IsAnswer(datasets: seq<Dataset>, t: Task) {
    exists d :: 0 <= d < |datasets| && datasets[d].name == t.dataset && t.question < |datasets[d].examples|
                && t.answer == datasets[d].examples[t.question].answer
  }

  lemma {:induction false} TasksAreAnswered(datasets: seq<Dataset>)
    ensures forall t :: 0 <= t < |TasksOf(datasets)| ==> IsAnswer(datasets, TasksOf(datasets)[t])
  {
    if datasets != [] {
      var n := |datasets| - 1;
      TasksAreAnswered(datasets[..n]);
      var before, last, tasks := TasksOf(datasets[..n]), DatasetTasks(datasets[n]), TasksOf(datasets);
      forall t | 0 <= t < |tasks| ensures IsAnswer(datasets, tasks[t]) {
        if t < |before| {
          assert IsAnswer(datasets[..n], before[t]);
          var d :| 0 <= d < n && datasets[..n][d].name == before[t].dataset
            && before[t].question < |datasets[..n][d].examples|
            && before[t].answer == datasets[..n][d].examples[before[t].question].answer;
          assert datasets[d] == datasets[..n][d];
        } else {
          assert tasks[t] == last[t - |before|];
        }
      }
    }
  }

  /** A mark is 1 exactly if the response verifies against the answer in the dataset. */
  lemma MarkIs(datasets: seq<Dataset>, d: nat, record: Record, verify: (string, string) -> bool)
    requires DistinctDatasets(datasets) && d < |datasets| && record.key.dataset == datasets[d].name
    requires Answers(record, TasksOf(datasets), verify)
    ensures record.correct == if Verifies(datasets[d], verify)(record) then 1 else 0
  {
    hide TasksOf;
    var tasks := TasksOf(datasets);
    var t :| 0 <= t < |tasks| && tasks[t].dataset == record.key.dataset && tasks[t].question == record.key.question
      && record.correct == if verify(record.response, tasks[t].answer) then 1 else 0;
    TasksAreAnswered(datasets);
    var e :| 0 <= e < |datasets| && datasets[e].name == tasks[t].dataset && tasks[t].question < |datasets[e].examples|
      && tasks[t].answer == datasets[e].examples[tasks[t].question].answer;
    assert e == d;
  }

  lemma SomeOfMany(share: real, part: nat, whole: nat)
    requires 0 < whole && part <= whole && share * whole as real == part as real
    ensures 0.0 <= share <= 1.0
  {
    Grows(share, 0.0, whole as real);
    Grows(1.0, share, whole as real);
  }

  lemma Grows(x: real, y: real, n: real)
    requires n > 0.0
    ensures x < y ==> x * n < y * n
  {
    if x < y {
      var gap := y - x;
      assert gap * n > 0.0;
      assert y * n == x * n + gap * n;
    }
  }

  lemma RowDoesTell(datasets: seq<Dataset>, d: nat, row: Row, records: seq<Record>, verify: (string, string) -> bool)
    requires DistinctDatasets(datasets) && d < |datasets| && Genuine(records, TasksOf(datasets), verify)
    requires RowAdds(row, datasets[d], records) && row.rollouts == |datasets[d].examples| * SAMPLES
    ensures RowTells(row, datasets[d], records, verify)
  {
    hide TasksOf, Verifies, UnitsOf, DistinctDatasets, Answers;
    var name := datasets[d].name;
    forall i | 0 <= i < |records| && records[i].key.dataset == name
      ensures records[i].correct == if Verifies(datasets[d], verify)(records[i]) then 1 else 0
    {
      MarkIs(datasets, d, records[i], verify);
    }
    CountIsCounted(records, name, (r: Record) => r.correct, Verifies(datasets[d], verify));
    var right, all := KeysWith(records, name, Verifies(datasets[d], verify)), KeysWith(records, name, r => true);
    SubsetIsSmaller(right, all);
    SomeOfMany(row.average, |right|, |all|);
  }

  /** The summary of complete, genuine shards says what it should. */
  lemma GenuineSeedTells(
    datasets: seq<Dataset>, shards: map<ShardId, Payload>, model: string, seed: int, verify: (string, string) -> bool)
    requires ProperDatasets(datasets)
    requires CompleteSeed(shards, model, seed, BatchesOf(datasets), |BatchesOf(datasets)|)
    requires GenuineSeed(shards, model, seed, BatchesOf(datasets), |BatchesOf(datasets)|, verify)
    ensures LoadAll(shards, model, seed, BatchesOf(datasets)).Ok?
    ensures SeedOutcome(datasets, shards, model, seed).Ok?
    ensures var records := LoadAll(shards, model, seed, BatchesOf(datasets)).value;
            var rows := SeedOutcome(datasets, shards, model, seed).value;
            |rows| == |datasets| && forall i :: 0 <= i < |datasets| ==> RowTells(rows[i], datasets[i], records, verify)
  {
    hide CompleteSeed, GenuineSeed, CutBy, Expected, NoRepeats, RowsOf, LoadAll, Genuine, RowTells, RowAdds;
    CompleteSeedSummarizes(datasets, shards, model, seed);
    LoadedIsGenuine(shards, model, seed, BatchesOf(datasets), verify);
    CutFlattens(TasksOf(datasets), QUESTIONS);
    var records := LoadAll(shards, model, seed, BatchesOf(datasets)).value;
    RowsDoAdd(datasets, records);
    var rows := SeedOutcome(datasets, shards, model, seed).value;
    forall i | 0 <= i < |datasets| ensures RowTells(rows[i], datasets[i], records, verify) {
      RowDoesTell(datasets, i, rows[i], records, verify);
    }
  }
}
