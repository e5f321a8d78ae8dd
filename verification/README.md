# Verified model of the distillation toolkit's index, protocol and selection logic

This project models the parts of the repository that are pure index, string, set or protocol logic, and proves what
those parts are for. Tensors are sequences of reals or bytes, language models and regular expressions are functions
that nothing is assumed about beyond what is stated, and floating-point numbers are exact reals. Every theorem is for
all inputs, all runs, or all reachable states.

`dafny verify dfyconfig.toml` checks the whole project.

## What is modelled

**Packed answer probes** (`Attention`, `MaskedProbe`, `TokenMapping`, `AnswerProbes`, `RolloutScoring`,
`RolloutPipeline`). One masked sequence `prompt, response, probe 0, ..., probe K` stands for K+1 separate Teacher
calls. A layered network is any function that computes a row's next state from its own state, its position ID and the
ordered visible rows with their position IDs. For every such network, every probe row of the packed sequence has, at
every layer, the state of the matching row of its own separate call, and every original row that of a plain causal
run. The boundary mapping from characters to tokens is total for every decoder, and its binary search with a window
finds what a linear scan finds whenever prefix decodes never get shorter; spans, tokens and decoder leave one list of
steps. Two scorings of a rollout, in batches of separate calls and packed, give the same weights; `RolloutPipeline`
states this from the rollout's token IDs and its answer on, splitter and answer probe included.

**Semantic step splitter** (`TextLines`, `LineStates`, `Spans`, `SpanCuts`, `StepSpans`, `StepBlocks`, `StepChunks`,
`StepGroups`, `StepAttachments`, `StepSplitter`, `ProtectedRegions`). Blocks and chunks are characterized by what they
cover and where they are cut, which leaves exactly one possible list; the loops are proved to produce it. The proofs
carry the line states of a block, and of a section that is split again, over to the whole text. The results: an exact
partition, no inner boundary inside a protected region, every authored marker line begins a step, fragments are merged
with the neighbour they belong to without joining two larger groups. What opens a group or a step is stated by the
cues on the blocks around it: display formulas stay with what precedes them, markers open, lists and prose stay where
an introduction, a label, a connective or a fragment binds them. The list of protected regions and the merged groups
are unique, too.

**Weight transfer** (`WeightChunks`, `BucketPacking`, `NcclBroadcast`, `MooncakeRing`, `MooncakeLimits`,
`MooncakeYields`). Tensors are cut into chunks, packed into buckets, moved through double buffers and reassembled.
Both transports are state machines whose steps interleave freely: a broadcast is a rendezvous of all ranks; the ring
has transfer reads, polling for magic bytes, and acknowledgements written into the upstream buffer. The invariant of
each machine gives exact delivery, buffer safety, freedom from deadlock and a bound on the length of runs. For the
ring the exact conditions are proved in both directions: which weights make every transfer exact, every refill of a
half safe, and every view handed to a consumer right. The other direction constructs, for every job that fails a
condition, a schedule of the whole ring that does the damage.

**Selection** (`Sets`, `Sorting`, `StepSelection`). The three counts decide whether disjoint groups exist, the margin
found is the largest real with that property, and the greedy selector succeeds exactly when groups exist; which rows
it withholds and which it takes is described without the algorithm, and the description leaves one selection.

**Balancing, calibration, filtering** (`Masks`, `UniOpd`, `FireOpd`, `CalOpd`). Round-robin subsampling for any
shuffles, the in-place margin calibration, the equivalence of loss normalization with deleting rows; the score filter
and the per-trajectory weights that average one; the two-pointer search for the closest unrelated solution.

**Checkpoint conversion** (`Pieces`, `QkvShards`, `LayerMerge`). Interleaving query, key and value rows per key/value
head, cutting into tensor-parallel shards and merging is the identity exactly when every shard holds whole heads.
Renumbering layers never lets two layers of different stages meet, and leaves a gap exactly when a stage without
layers precedes one with layers.

**Resumable evaluation** (`EvalShards`, `EvalRuns`). A driver, its workers, crashes, restarts, and workers of crashed
runs that still finish the job they hold. In every run the shards on disk are complete, summaries have every key
exactly once and report the share of responses that verify, the tokens and the cut-off samples of those keys, the
checks for missing and duplicate records never fire, pending work never grows, a run left alone finishes, and finished
results do not depend on interruptions when generation is a function of its inputs.

## Findings

- Zero-byte tensors produce no chunk at all: what arrives is the list of non-empty tensors, so nothing is lost exactly
  when every tensor has a byte (`WeightChunks.NothingDropped`).
- A Mooncake bucket looks acknowledged when its bytes, as far as they reach, begin with the four magic bytes; shorter
  buckets and empty ones count. Its own half, or what the half held before, can then pass for its acknowledgement. Every
  refill is safe in all runs exactly when no bucket whose half is used again, that is no bucket but the last two, looks
  acknowledged (`MooncakeLimits.RefillsAreSafeIff`); a bucket of three bytes that does not begin like the magic bytes is
  harmless.
- An unsafe refill need not damage anything. All copies are exact in all runs exactly when each bucket that may be written
  over an unread one looks acknowledged itself and agrees with the unread one where both have bytes
  (`MooncakeLimits.TransfersAreExactIff`). When that fails, some run comes to its regular end, with no assertion failing,
  and has delivered wrong bytes (`MooncakeLimits.CompletedTransfersAreExactIff`); `MooncakeRing.MagicBucketIsLost` is such
  a case with three weights.
- A Mooncake receiver announces its half to the next rank before it hands the tensors in that half to its consumer, and
  the next rank's acknowledgement writes into the same half. With two or more receivers the consumer can therefore see
  the magic bytes at the start of any bucket that does not begin with them (`MooncakeYields.YieldsAreExactIff`).
- The reassembly of chunks opens a buffer of the size a tensor's first chunk announces and closes it at the first chunk
  that completes the size it announces itself. What memory held before shows in the result exactly when no check fails and
  some closing chunk announces less than the buffer was opened for (`WeightChunks.MemoryNeverShowsIff`, over the metadata
  alone; `WeightChunks.UnwrittenByteIsHandedOut` is an input). Announcements in between do not matter. Both callers
  (`verl/verl/checkpoint_engine/nccl_checkpoint_engine.py` line 311, `nixl_checkpoint_engine.py` line 449) merge what the
  splitter made, which never closes a buffer short (`WeightChunks.SplitNeverClosesShort`), so the program does not meet
  such an input.
- Packed query, key and value rows cut into equal shards merge into the original projections exactly when the number of
  shards divides the key/value heads (`QkvShards.RoundTripIff`). Otherwise merging mostly stops at a named check, but when
  the key rows of a shard divide evenly among its pieces it returns rows in the wrong projection without an error
  (`QkvShards.UnevenHeads`), as for three heads of two rows in two shards (`QkvShards.ThreeHeadsInTwoShards`).
- An answer probe whose first token already overlaps the answer is accepted by the batched computation and rejected by
  the packed one (`AnswerProbes.ScoreableIff`, `RolloutPipeline.ScoreRollout`).
- The window lookup of token boundaries needs only that prefix decodes never get shorter; they need not be prefixes of
  the text.
- Layer renumbering counts a stage without layers as one layer (`LayerMerge.GapsComeFromEmptyStages`).

## Model

| member | source | states |
|---|---|---|
| MaskedProbe.BuildMaskedProbeLayout | utils/fast_oa_opd.py:55-138 | builds exactly the packed layout of prompt, response and one branch per boundary, or names the violated check; the layout it builds is accepted by the validator |
| MaskedProbe.CheckSteps | utils/fast_oa_opd.py:82-95 | accepts exactly the step lists that are contiguous and start at the first response token |
| MaskedProbe.ValidateMaskedProbeLayout | utils/fast_oa_opd.py:141-193 | reports no error exactly for valid layouts |
| MaskedProbe.PackedIsValid | utils/fast_oa_opd.py:98-138 | every packing of a contiguous step list passes validation |
| MaskedProbe.BuildDenseAttentionMask | utils/fast_oa_opd.py:196-230 | the mask entry at (q, c) is true exactly when q sees c: causally among originals, or a branch row its prefix and its own probe so far |
| MaskedProbe.OnlyOwnerSees | utils/fast_oa_opd.py:215-229 | a branch row sees a column exactly when its own branch lets it, never another branch's rows |
| MaskedProbe.BranchIsPlaced | utils/fast_oa_opd.py:104-136 | prefix and probe of a branch form a causal sequence placed inside the masked one: same tokens, same position IDs, same visible rows |
| Attention.PlacedRowsGatherTheSame | utils/fast_oa_opd.py:196-230 | a placed row gathers, column by column and in order, the rows its causal twin gathers |
| Attention.PlacedRowsAreCausal | utils/fast_oa_opd.py:1-15 | for every layered network and depth, placed rows have the states of an ordinary causal run |
| MaskedProbe.PackedBranchEqualsIndependentRun | utils/fast_oa_opd.py:82-138 | at every layer each row of branch k has the state of its row in the separate sequence prompt + response prefix + probe |
| MaskedProbe.PackedRolloutEqualsPlainRun | utils/fast_oa_opd.py:205-214 | original rows are not disturbed by any branch |
| TokenMapping.FindOriginalTokenBoundary | utils/oa_opd.py:88-157 | total for every decoder; the result is the best covering prefix of the first window around the estimate that has one, and the least covering prefix of all whenever decodes never get shorter |
| TokenMapping.WindowCoverIsUnique | utils/oa_opd.py:118-157 | that description leaves one token boundary, for every decoder |
| TokenMapping.WindowIsEnough | utils/oa_opd.py:140-157 | with decodes that never get shorter, the first window that holds a candidate holds the least covering prefix |
| TokenMapping.MapResponseSteps | utils/oa_opd.py:160-221 | never fails for a decoder that decodes nothing to nothing: steps are contiguous in characters and in tokens, advance strictly in both, and join to the response; each is cut for the first span that ends beyond its start, at the prefix found for the end of that span |
| TokenMapping.StepsAreUnique | utils/oa_opd.py:160-221 | spans, tokens and decoder leave one list of steps |
| TokenMapping.SpanEndsInStep | utils/oa_opd.py:182-214 | a span that ends beyond a step's start and not beyond its end has its end covered by the prefix found for the step's first span |
| TokenMapping.FirstExplicitIsFirst | utils/oa_opd.py:243-255 | an explicit answer step is the first one |
| TokenMapping.LastBoxedIsLast | utils/oa_opd.py:256-260 | without an explicit one, the last boxed step decides |
| TokenMapping.ReasoningStepsAreAPrefix | utils/oa_opd.py:263-270 | reasoning steps are a contiguous prefix of the steps |
| TokenMapping.ReasoningStopsAtDisclosure | utils/oa_opd.py:243-270 | reasoning stops at the first explicit disclosure, or else at the last boxed step, or nowhere |
| RolloutScoring.WeightShape | utils/oa_opd.py:342-355 | weights lie in [0, 1), are positive exactly for deltas below tau, and never grow with the delta |
| RolloutScoring.WeighSteps | utils/oa_opd.py:429-442 | every token gets the weight of the step that owns it, tokens outside steps keep zero, missing values give no delta |
| RolloutScoring.ScoredIsUnique | utils/oa_opd.py:429-451 | boundary values determine the whole computation |
| RolloutScoring.ComputeOaOpd | utils/oa_opd.py:358-451 | the result is the scoring of the boundary values, whatever the probe batch size; a token weighs something exactly when the value after its step is below the value before it plus tau, deltas are differences of the two values, and steps that weigh and missing values are counted |
| RolloutScoring.HelpNeverCosts | utils/oa_opd.py:429-442 | over two computations: a higher value after a step, or a lower one before it, never makes the step's tokens weigh more |
| RolloutScoring.ComputeFastOaOpd | utils/fast_oa_opd.py:254-335 | the packed result is the scoring of the values of the branches, and reports on them as above |
| RolloutScoring.PredictionsAgree | utils/fast_oa_opd.py:1-15 | a Teacher that reads predictions off row states gives a branch what it gives the separate sequence |
| RolloutScoring.PackedValuesAreBoundaryValues | utils/fast_oa_opd.py:303-311 | packed and separate calls return the same value for every boundary |
| AnswerProbes.ProbeOffsetsFallback | utils/oa_opd.py:273-295 | the extents between the recovered boundaries of the token prefixes, or a failure exactly when the last boundary is not the end of the text |
| AnswerProbes.RecoveredIsLongest | utils/oa_opd.py:282-291 | a recovered boundary is the length of the longest token prefix so far that decodes to a beginning of the text |
| AnswerProbes.ExtentsOverlap | utils/oa_opd.py:273-295 | recovered extents leave no character out, even if boundaries go back |
| AnswerProbes.OverlapPositions | utils/oa_opd.py:326-330 | exactly the tokens that overlap the answer, in order; of the tokens with an extent, those with a character of it |
| AnswerProbes.ProbeText | utils/oa_opd.py:303-306 | the stretch that is scored is the answer, between the fixed prefix and suffix |
| AnswerProbes.BuildAnswerProbe | utils/oa_opd.py:298-339 | fails exactly with the first check that fails; the probe has the tokens of the whole text and scores those that overlap the answer |
| AnswerProbes.RecoveringTokenizerServes | utils/oa_opd.py:298-339 | a tokenizer without extents of its own serves exactly the non-empty answers whose probe it decodes back |
| AnswerProbes.ScoreableIff | utils/fast_oa_opd.py:74-80 | all scored tokens have a predictor inside the probe exactly when its first token does not overlap the answer |
| RolloutPipeline.ScoreRollout | utils/oa_opd.py:160-451 | from token IDs and answer on: spans partition the decoded text and begin at lawful places, the steps are those before the answer; with steps to score, both computations fail exactly with the first failing check of the answer probe; otherwise the batched one succeeds and scores the values for the probe that ends in the answer, and the packed one succeeds, with the same result, exactly when the prompt is not empty and the first probe token does not overlap the answer |
| RolloutScoring.ScoreStepsBothWays | utils/fast_oa_opd.py:286-335 | the same for given steps and probe: equal results, and the packed version rejects exactly an empty prompt or a scored token without predictor |
| RolloutScoring.ScoreRolloutBothWays | verl/verl/experimental/agent_loop/agent_loop.py:1409-1427 | for every layered Teacher the batched reference and the packed version return the same computation, the scoring of the reasoning steps before the answer |
| LineStates.ScannerIsLineMachine | utils/split_answer_probe_steps.py:71-93 | whitespace around a line never changes the state after it, blank lines change no state |
| LineStates.OpensAndCloses | utils/split_answer_probe_steps.py:71-93 | a line opens a region exactly if it starts with a fence, has an odd number of unescaped $$, leaves a \[ open, or begins an environment that it does not end; the first of these decides which line closes it |
| TextLines.PieceStates | utils/split_answer_probe_steps.py:228-235 | line states inside a piece that begins a free line agree with those of the whole text |
| StepSpans.TrimmedSpan | utils/split_answer_probe_steps.py:63-68 | the stretch without the whitespace at both ends, nothing exactly when it is blank |
| StepBlocks.SafeMarkdownBlocks | utils/split_answer_probe_steps.py:115-141 | produces the blocks of the text: every visible character covered, cut at the unprotected blank lines and nowhere else |
| StepBlocks.BlocksAreUnique | utils/split_answer_probe_steps.py:115-141 | a text has one list of blocks |
| SpanCuts.DivisionIsUnique | utils/split_answer_probe_steps.py:115-141 | spans are determined by what they cover and where they are cut |
| StepChunks.SplitBlock | utils/split_answer_probe_steps.py:229-255 | one block is cut at the marker lines of the whole text and nowhere else |
| StepChunks.LineOfBlock | utils/split_answer_probe_steps.py:233-246 | the block-local state and marker test of a line are those of the whole text |
| StepChunks.SplitBlocksAtStrongBoundaries | utils/split_answer_probe_steps.py:218-256 | produces the chunks of the blocks: all that is visible in them, cut at authored headings and steps outside protection |
| StepChunks.ChunksAreUnique | utils/split_answer_probe_steps.py:218-256 | blocks have one list of chunks |
| StepGroups.GroupBlocks | utils/split_answer_probe_steps.py:323-371 | groups hold together by attachment, no group could have taken the block after it, only thematic breaks are dropped |
| StepGroups.GroupsAreUnique | utils/split_answer_probe_steps.py:323-371 | there is one such grouping |
| StepAttachments.MarkersOpen | utils/split_answer_probe_steps.py:340-342 | a heading, step or final marker always opens a group |
| StepAttachments.FormulasFollow | utils/split_answer_probe_steps.py:343-347 | a display formula that is no marker opens a group only as the first block or after a thematic break |
| StepAttachments.ListsNeedAnOpening | utils/split_answer_probe_steps.py:348-353 | a list stays in a group exactly below an introduction or in a group that a heading opens |
| StepAttachments.ProseIsBound | utils/split_answer_probe_steps.py:354-370 | prose stays in a group exactly when that is a mere label, ends as an introduction, or either side is a connective or a fragment |
| StepAttachments.TinyCounts | utils/split_answer_probe_steps.py:259-264 | a fragment has fewer than 24 word characters or at most three words, counted by their positions |
| StepGroups.TinyIsMonotone | utils/split_answer_probe_steps.py:259-264 | a piece that is not tiny stays so under extension |
| StepGroups.MergeTinyGroups | utils/split_answer_probe_steps.py:267-297 | keeps all spans in order; at most one group is left or all are solid; of the groups merged into one, at most one is more than a fragment; a fragment goes with what follows, one that opens with a connective or comes last with what precedes |
| StepGroups.MergeIsUnique | utils/split_answer_probe_steps.py:267-297 | that description leaves one result |
| StepSplitter.SplitMarkdownAttachment | utils/split_answer_probe_steps.py:319-373 | spans are the joined merged groups of the chunks, none exactly when all chunks are thematic breaks; a leading authored marker stays the start; the first span begins with the first chunk that is no thematic break, and unless after a thematic break or with a marker no other begins with a display formula, right after an introduction, or with or after a connective (a list may) |
| StepSplitter.PieceIsSound | utils/split_answer_probe_steps.py:424-432 | what is a legal step start inside a re-split section is one in the whole text |
| StepSplitter.Sections | utils/split_answer_probe_steps.py:394-414 | text before the first marker is split by attachment, every authored chunk opens a section up to the next one |
| StepSplitter.Refine | utils/split_answer_probe_steps.py:419-433 | only sections of more than 3500 characters are split again, at their own blocks, and keep an authored start |
| StepSplitter.PartitionIsExact | utils/split_answer_probe_steps.py:300-316 | one piece per span, without gaps from the first to the last character |
| Spans.PartitionRecoversText | utils/split_answer_probe_steps.py:300-316 | the texts of a partition concatenate to the text |
| StepSplitter.MarkerBeginsChunk | utils/split_answer_probe_steps.py:238-251 | every unprotected marker line of the text begins an authored chunk |
| StepSplitter.SplitSemanticHybrid | utils/split_answer_probe_steps.py:380-435 | nothing exactly for texts of thematic breaks only, else an exact partition; inner boundaries are first visible characters of unprotected lines; every unprotected marker line begins a step; every inner step begins with a chunk of the text or of a section that is split again, and the rule for spans holds for it; the steps are those of the blocks, sections and refinements above |
| ProtectedRegions.ProtectedRanges | utils/split_answer_probe_steps.py:96-112 | lists, in order and without overlap, every free line that is followed by a line that is not, up to before the line break ahead of the next free line or to the end of the text; every line that does not start free lies inside one |
| ProtectedRegions.RegionsAreUnique | utils/split_answer_probe_steps.py:96-112 | a text has one such list |
| ProtectedRegions.BoundariesAvoidProtected | utils/split_answer_probe_steps.py:96-112 | no step starts inside a protected range, except in the leading whitespace of its opening line |
| WeightChunks.SplitWeightChunks | verl/verl/checkpoint_engine/base.py:517-543 | small tensors whole, large ones in pieces of at most a bucket, in order |
| WeightChunks.MergeWeightChunks | verl/verl/checkpoint_engine/base.py:546-585 | assembling in one reused buffer gives what the chunk-by-chunk description gives for the memory it was allocated in, and fails with the same check |
| WeightChunks.MemoryNeverShowsIff | verl/verl/checkpoint_engine/base.py:546-585 | the result is the same in every memory exactly when a check fails or no chunk closes a buffer short, which the metadata decide |
| WeightChunks.MemoryDoesNotShow | verl/verl/checkpoint_engine/base.py:546-585 | if the chunks of each name agree on its size, the result is the same in every memory |
| WeightChunks.SplitNeverClosesShort | verl/verl/checkpoint_engine/base.py:517-543 | what the splitter makes of any weights never closes a buffer short |
| WeightChunks.UnwrittenByteIsHandedOut | verl/verl/checkpoint_engine/base.py:571-585 | two chunks, not the splitter's, whose closing one announces less, and a tensor whose last byte is whatever memory held |
| WeightChunks.SplitMergeRoundTrip | verl/verl/checkpoint_engine/base.py:517-585 | merging what was split gives back the non-empty tensors, same order and bytes, no check fires, whatever memory held |
| WeightChunks.NothingDropped | verl/verl/checkpoint_engine/base.py:517-543 | nothing is lost exactly when no tensor is empty |
| BucketPacking.FlushedBucket | verl/verl/checkpoint_engine/nccl_checkpoint_engine.py:252-270 | what is sent when the next chunk does not fit is one whole bucket of the list |
| BucketPacking.PackIsLaid | verl/verl/checkpoint_engine/nccl_checkpoint_engine.py:271-283 | chunks lie back to back within the bucket size |
| BucketPacking.BucketsKeepChunks | verl/verl/checkpoint_engine/nccl_checkpoint_engine.py:252-298 | the buckets hold exactly the chunks, in order |
| BucketPacking.MergeIgnoresPlaces | verl/verl/checkpoint_engine/nccl_checkpoint_engine.py:343-368 | reassembly does not depend on where in a bucket a chunk lies |
| BucketPacking.NoNameTwice | verl/verl/checkpoint_engine/nccl_checkpoint_engine.py:272-281 | with distinct names no bucket has two entries of one name |
| NcclBroadcast.StepKeepsInv | verl/verl/checkpoint_engine/nccl_checkpoint_engine.py:248-298 | every step of sender, receivers and rendezvous keeps the invariant |
| NcclBroadcast.RunKeepsInv | verl/verl/checkpoint_engine/nccl_checkpoint_engine.py:248-368 | the invariant holds in every reachable state |
| NcclBroadcast.JobIsProper | verl/verl/checkpoint_engine/base.py:517-543 | split weights with distinct names never trip the sender's assertions |
| NcclBroadcast.BuffersAreSafe | verl/verl/checkpoint_engine/nccl_checkpoint_engine.py:248-368 | the sender never writes a buffer with a broadcast in flight, no receiver yields from one that a broadcast writes |
| NcclBroadcast.NoDeadlock | verl/verl/checkpoint_engine/nccl_checkpoint_engine.py:49-99 | in every reachable state some rank can go on or all are done |
| NcclBroadcast.RunsAreFinite | verl/verl/checkpoint_engine/nccl_checkpoint_engine.py:248-368 | no run is longer than a bound given by the weights |
| NcclBroadcast.EveryReceiverGetsTheWeights | verl/verl/checkpoint_engine/nccl_checkpoint_engine.py:230-368 | when nothing can move any more, every receiver has reassembled exactly the sent tensors |
| MooncakeRing.StepKeepsInv | verl/verl/checkpoint_engine/mooncake_checkpoint_engine.py:142-281 | every step of the ring keeps the invariant for all weights that fit, and its part about bytes for harmless ones |
| MooncakeRing.RunKeepsInv | verl/verl/checkpoint_engine/mooncake_checkpoint_engine.py:142-281 | the invariant holds in every reachable state |
| MooncakeRing.CopiesTheBucket | verl/verl/checkpoint_engine/mooncake_checkpoint_engine.py:233-281 | the bytes a rank is about to copy are those of rank 0's bucket |
| MooncakeRing.TransfersAreExact | verl/verl/checkpoint_engine/mooncake_checkpoint_engine.py:233-281 | if buckets that may overtake do no harm, in every run the k-th transfer of every rank is exactly rank 0's bucket k |
| MooncakeRing.RefillsAreSafe | verl/verl/checkpoint_engine/mooncake_checkpoint_engine.py:162-216 | if no reused bucket looks acknowledged, a half is refilled only after the bucket it held was read downstream |
| MooncakeRing.NoDeadlock | verl/verl/checkpoint_engine/mooncake_checkpoint_engine.py:142-281 | for all weights that fit, no reachable unfinished state is stuck |
| MooncakeRing.RunsAreFinite | verl/verl/checkpoint_engine/mooncake_checkpoint_engine.py:142-281 | no run is longer than a bound given by the buckets and ranks |
| MooncakeRing.StuckRunsAreDone | verl/verl/checkpoint_engine/mooncake_checkpoint_engine.py:150-281 | for all weights that fit, a run that cannot move has ended regularly everywhere, without a failed assertion |
| MooncakeRing.EveryRankGetsAllBytes | verl/verl/checkpoint_engine/mooncake_checkpoint_engine.py:150-281 | when nothing can move any more, every rank has copied all bytes in order, if buckets that may overtake do no harm |
| MooncakeRing.MagicBucketIsLost | verl/verl/checkpoint_engine/mooncake_checkpoint_engine.py:142-147 | a run in which a bucket that begins with the magic bytes is overwritten unread |
| MooncakeLimits.Advance | verl/verl/checkpoint_engine/mooncake_checkpoint_engine.py:150-281 | from a state in which all earlier buckets are acknowledged everywhere, one more bucket can be sent around the whole ring |
| MooncakeLimits.UnsafeRefill | verl/verl/checkpoint_engine/mooncake_checkpoint_engine.py:142-216 | a reused bucket that looks acknowledged lets the sender put the next but one over it unread |
| MooncakeLimits.RefillsAreSafeIff | verl/verl/checkpoint_engine/mooncake_checkpoint_engine.py:142-241 | in all runs halves are refilled only when read, exactly when no bucket but the last two looks acknowledged |
| MooncakeLimits.Misread | verl/verl/checkpoint_engine/mooncake_checkpoint_engine.py:142-253 | a bucket that may overtake an unread one and disagrees with it is read in its place |
| MooncakeLimits.Spoiled | verl/verl/checkpoint_engine/mooncake_checkpoint_engine.py:142-281 | a bucket that overtakes and does not look acknowledged is destroyed by the acknowledgement of the one before it |
| MooncakeLimits.TransfersAreExactIff | verl/verl/checkpoint_engine/mooncake_checkpoint_engine.py:142-281 | in all runs every copy is exact, exactly when buckets that may overtake do no harm |
| MooncakeLimits.CompletedTransfersAreExactIff | verl/verl/checkpoint_engine/mooncake_checkpoint_engine.py:142-281 | the same for the runs that come to their regular end: damage is never noticed |
| MooncakeYields.WrongCopyIsYielded | verl/verl/checkpoint_engine/mooncake_checkpoint_engine.py:239-264 | a run with a wrong copy has a run in which a wrong bucket is handed to the consumer |
| MooncakeYields.MarkShows | verl/verl/checkpoint_engine/mooncake_checkpoint_engine.py:254-273 | with two receivers or more, a bucket that does not look acknowledged can be marked while it is handed out |
| MooncakeYields.YieldsAreExactIff | verl/verl/checkpoint_engine/mooncake_checkpoint_engine.py:254-273 | in all runs every rank hands exactly the sent bytes to its consumer, exactly when transfers are exact and there is one receiver or every bucket looks acknowledged |
| StepSelection.QualifyingNeedsTwoSteps | utils/oa_opd_step_selection.py:79-94 | a row qualifies at a positive margin exactly when two of its steps reach it |
| StepSelection.TwoSetHall | utils/oa_opd_step_selection.py:102-119 | the three counts hold exactly when disjoint groups of the size exist |
| StepSelection.FeasibleMeansAssignable | utils/oa_opd_step_selection.py:102-157 | the counts of both outcomes hold exactly when all four groups can be formed |
| StepSelection.LargestFeasibleSymmetricMargin | utils/oa_opd_step_selection.py:122-157 | the largest positive real at which all quotas can be met, an error exactly when there is none |
| StepSelection.SelectOneOutcome | utils/oa_opd_step_selection.py:160-216 | succeeds exactly when disjoint groups exist; the rows with both signs that lean least to the positive one are withheld, as many as the negative group lacks; the positive group is the strongest of all others that qualify, the negative group the strongest of all that qualify and are left |
| StepSelection.SelectionIsUnique | utils/oa_opd_step_selection.py:160-216 | that leaves one possible selection, in order |
| StepSelection.SelectDisjointBalancedResponses | utils/oa_opd_step_selection.py:219-253 | four groups of the asked size, that selection in each outcome, no row twice, each row with its group, sign, strength, margin and rank; an error exactly when an outcome cannot serve both groups |
| UniOpd.OrderedGroups | algorithms/uni_opd.py:60-63 | every group once, in order of first occurrence |
| UniOpd.PassMakesProgress | algorithms/uni_opd.py:108-134 | while picks are missing some pool is not used up, so a pass always picks |
| UniOpd.UniformGroupSubsample | algorithms/uni_opd.py:66-138 | exactly the asked number of candidates, for any shuffles: the first of each pool in as many turns for each group, one more for the first groups of the order; a group trails another by more than one pick only if its pool is used up; running out never happens |
| UniOpd.RoundRobinIsUnique | algorithms/uni_opd.py:91-138 | shuffles and number leave one possible sample |
| UniOpd.SelectCorrectnessBalancedRollouts | algorithms/uni_opd.py:141-189 | a mixed batch keeps the whole minority and as many of the majority, those drawn in turn; one-class and balanced batches are kept whole |
| UniOpd.CalibrateReturns | algorithms/uni_opd.py:274-309 | kept correct rows move up and kept incorrect rows down by half of what their group's margin lacks, all others stay |
| UniOpd.CalibratedMargins | algorithms/uni_opd.py:274-309 | every mixed group's margin becomes the larger of its raw margin and delta |
| UniOpd.ReturnsGrow | algorithms/uni_opd.py:263-264 | a raw return grows with the Teacher's log-probabilities on the response and falls with the Student's |
| UniOpd.ReturnsShift | algorithms/uni_opd.py:263-264 | a constant added to every Teacher log-probability of the response is added to the raw return |
| UniOpd.EqualModels | algorithms/uni_opd.py:263-264 | the raw return is zero where both models agree on the response |
| UniOpd.ComputeUniOpdBatch | algorithms/uni_opd.py:192-315 | accepts exactly well-formed non-empty batches; raw returns are mean log-ratios, margins of mixed retained groups are raised to delta, retained response tokens carry the calibrated return and all others zero |
| UniOpd.NormalizationDeletesRows | algorithms/uni_opd.py:524-533 | zero-masked token mean times the normalization is the token mean over the retained rows alone |
| UniOpd.TotalIsBounded | algorithms/uni_opd.py:524-533 | the total of the losses lies between the token count times the smallest and times the largest of them |
| FireOpd.FilteredIsUnique | algorithms/fire_opd.py:157-173 | the number to drop and the ranking leave one possible filter |
| FireOpd.DropLowest | algorithms/fire_opd.py:157-173 | drops exactly that many genuine trajectories, all ranked before every one kept, ties by position |
| FireOpd.LikelierIsKept | algorithms/fire_opd.py:149-173 | over the same response, a trajectory with Teacher log-probabilities at least as high as those of a kept one is kept too, unless they tie and it comes first |
| FireOpd.WeighRow | algorithms/fire_opd.py:180-201 | normalized weights average exactly one, lie within (1+alpha)(1+beta) of one either way, and keep the proportions of the raw weights |
| FireOpd.WeightsFollowEntropies | algorithms/fire_opd.py:180-201 | where the Teacher is surer and the Student more confused, a token weighs at least as much |
| FireOpd.WeightsAre | algorithms/fire_opd.py:180-201 | up to the trajectory's mean, a weight is one plus alpha times the Teacher's certainty, times one plus beta times the Student's confusion |
| FireOpd.PeaksAre | algorithms/fire_opd.py:180-184 | the peaks are the largest Teacher and Student entropies of the retained tokens |
| FireOpd.ComputeFireOpdBatch | algorithms/fire_opd.py:55-205 | refuses exactly the faulty inputs; drops the floor of the ratio's share and keeps at least one; weights as above, every advantage keeps its sign, all else is zero |
| CalOpd.ClosestSolution | utils/cal_opd_interventions.py:113-152 | the two-pointer walk finds the unrelated solution of the closest length and smallest index, nothing exactly when there is none |
| CalOpd.ChooseWrongSolutionIndices | utils/cal_opd_interventions.py:77-159 | that choice for every record with a solution; an error exactly for mismatched lengths or for the first record nothing fits |
| CalOpd.ClosestIsUnique | utils/cal_opd_interventions.py:113-152 | length and index leave one choice, so the walk agrees with a scan |
| CalOpd.MakeWrongAnswer | utils/cal_opd_interventions.py:12-50 | never the correct answer; same shape, every digit changed, no run of digits begins with zero, or the wrapped form without digits |
| CalOpd.EveryDisguiseComesOut | utils/cal_opd_interventions.py:29-42 | every such answer comes out for some random choices |
| CalOpd.ChoicesAreDistinct | utils/cal_opd_interventions.py:34-37 | no replacement digit is listed twice |
| QkvShards.MergeQkv | verl/scripts/legacy_model_merger.py:529-557 | splits every chunk of every shard and concatenates the three kinds of rows, or names the failed assertion or split |
| QkvShards.ChunksOfShards | verl/scripts/legacy_model_merger.py:541-543 | the chunks of the shards of a list are its blocks |
| QkvShards.MergeUndoesPacking | verl/scripts/converter_hf_to_mcore.py:155-161 | merging the shards of interleaved rows gives back the three projections, for all head counts, sizes and shard counts that divide |
| QkvShards.ConvertAndMerge | verl/scripts/converter_hf_to_mcore.py:155-168 | conversion, equal shards and merging from the source's own counts; gives back the three projections when the shards hold whole heads |
| QkvShards.UnevenHeads | verl/scripts/legacy_model_merger.py:529-557 | what merging gives for shards without whole heads: which check fails, or the split into pieces wider than a head |
| QkvShards.RoundTripIff | verl/scripts/legacy_model_merger.py:529-557 | merging undoes packing and equal sharding for all projections exactly when the shards divide the key/value heads |
| QkvShards.ThreeHeadsInTwoShards | verl/scripts/legacy_model_merger.py:529-557 | three key/value heads of two rows in two shards merge without an error and into the wrong projections |
| QkvShards.MergeGateUp | verl/scripts/legacy_model_merger.py:518-528 | concatenates the first and the second halves of the shards, refusing exactly a shard without two halves |
| QkvShards.GateUpRoundTrip | verl/scripts/legacy_model_merger.py:518-528 | shards of gate blocks above up blocks merge into the two projections |
| LayerMerge.MergeStateDicts | verl/scripts/legacy_model_merger.py:608-658 | the result holds every layer item of every stage under its renumbered name with its value and no other layer names; layers of a lower virtual rank, then of a lower pipeline rank, get the smaller numbers; a name without layer number is there exactly if some stage has it, with the value of the last stage that does |
| LayerMerge.NoCollision | verl/scripts/legacy_model_merger.py:629-635 | layer items of different stages or positions never get the same name |
| LayerMerge.FullStagesRenumberContiguously | verl/scripts/legacy_model_merger.py:615-656 | with a layer in every stage the numbers are exactly 0 up to the total, in stage order |
| LayerMerge.GapsComeFromEmptyStages | verl/scripts/legacy_model_merger.py:656-656 | numbers have no gap exactly when no stage without layers precedes one with layers |
| EvalShards.MakeBatches | runners/evaluate_repeated_avg16.py:95-102 | all tasks in order, every batch but the last of sixteen, an error exactly for no tasks |
| EvalShards.WorkOnBatch | runners/evaluate_repeated_avg16.py:195-269 | the payload holds sixteen records per real task, each with its sample's text, tokens and finish, marked correct exactly if the text verifies against the task's answer, or the job fails |
| EvalShards.BatchRecordKeys | runners/evaluate_repeated_avg16.py:231-251 | the records carry each key of the batch once |
| EvalShards.WrittenIsValid | runners/evaluate_repeated_avg16.py:109-131 | what a worker writes is accepted as a completed shard |
| EvalShards.SummarizeSeed | runners/evaluate_repeated_avg16.py:353-402 | reads the records of all shards in order, checks the keys, or fails with the first shard that is missing or not of this model, seed, batch and size; the three means of a dataset, times the number of its keys, are its marks, its tokens, and its keys finished by length |
| EvalShards.KeysOfAllTasks | runners/evaluate_repeated_avg16.py:370-379 | the batches' keys are the expected keys, each once |
| EvalShards.CompleteSeedSummarizes | runners/evaluate_repeated_avg16.py:353-402 | on complete shards the duplicate check passes and every dataset has sixteen rollouts per question |
| EvalShards.GenuineSeedTells | runners/evaluate_repeated_avg16.py:387-402 | on complete shards of successful jobs, the average of a dataset times its rollouts is the number of its keys whose response verifies against the question's answer, and lies between zero and one |
| EvalRuns.StepKeepsInv | runners/evaluate_repeated_avg16.py:495-605 | every step, crash, restart and late write keeps the invariant |
| EvalRuns.DiskIsSound | runners/evaluate_repeated_avg16.py:134-142 | in every run shards are complete and marked as their responses verify, summaries cover every key once and say about the shards of successful jobs what they should, and no check fires |
| EvalRuns.PendingNeverGrows | runners/evaluate_repeated_avg16.py:560-565 | no step loses a shard |
| EvalRuns.OnlyMissingIsGenerated | runners/evaluate_repeated_avg16.py:560-579 | jobs are handed out only for shards not on disk |
| EvalRuns.NoDeadlock | runners/evaluate_repeated_avg16.py:495-605 | some step of the run is possible until it is done |
| EvalRuns.RunsAreFinite | runners/evaluate_repeated_avg16.py:495-605 | without crashes at most a computable number of steps is left |
| EvalRuns.LeftAloneItFinishes | runners/evaluate_repeated_avg16.py:495-605 | after any history of crashes a run that is left alone finishes |
| EvalRuns.FinalResultsAgree | runners/evaluate_repeated_avg16.py:669-690 | finished evaluations have the same aggregates and overall summary, interrupted or not |

## Left out

- Regular expressions: patterns are predicates on a line or a span; the only facts used are that the two environment
  patterns match visible characters and that a thematic break is no authored marker.
- Tokenizers, language models, tensor libraries, network and process calls, files: functions, parameters or atomic steps.
- Floating-point rounding: arithmetic is over reals; finiteness checks have no counterpart.
- RolloutScoring.InterventionWeight: does not model the exponential itself; any non-decreasing function into (0, 1] of the
  scaled distance below tau stands for it, capped below one as in the code.
- RolloutScoring.ComputeOaOpd: does not model the concurrency of one probe batch; replies are functions of the probe, so
  their order cannot matter.
- WeightChunks.MergeWeightChunks: a chunk whose bytes do not have the announced length is an error; the tensor library
  would stretch a chunk of one byte over a longer place.
- NcclBroadcast.EveryReceiverGetsTheWeights: does not model the metadata channel separately; it is delivered with the
  rendezvous.
- QkvShards.RoundTripIff: shards are equal cuts of the packed rows; what a training framework does with heads that do not
  divide is not part of this model.
- UniOpd.UniformGroupSubsample: does not model the random generator; shuffles are arbitrary permutations.
- UniOpd.ComputeUniOpdBatch: does not model the metrics, and takes each trajectory's reward as one number.
- FireOpd.ComputeFireOpdBatch: does not model the metrics; a trajectory is a record of its tokens.
- LayerMerge.MergeStateDicts: does not model the name mapping and its checks; a name is a layer number and the rest, and
  the three or two parts of a merged tensor are one value.
- EvalRuns.FinalResultsAgree: does not model the minima, maxima and means of an aggregate; it is known by the seed
  summaries it is computed from. Models, seeds and datasets stay the same over restarts, and model names have distinct
  directories.
- The HCCL and Kimi engines, checkpoint resharding, configuration validators, the streaming reader of minimal steps, and
  the correct/error variants of the objective: easier members of the same kinds, or dependent on libraries that are not
  part of this model.
