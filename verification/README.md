# typed-gguf: a verified model of its readout, its wire and its tools

typed-gguf asks a local language model typed questions: it prefills a shared prompt once, forks it into
sequences, reads one row of logits per question and turns it into a typed answer. This project models the parts
of it whose correctness is an argument rather than a measurement, and proves the argument. `dafny verify
dfyconfig.toml` checks all of it.

| files | part of the system |
|---|---|
| `KvCache`, `Session`, `Advance`, `Heads` | the unified key/value cache as cells (position, token, hidden state, sequence ids), the session's fork, release, decode and prefill, batches, the advance rules |
| `Trie`, `Probe` | the ranked readout over a trie of candidates, the proof of concept's fork protocol and the probes' measurement of one item |
| `Engine`, `Published`, `Deciding`, `Answers`, `Responding` | the decision engine's waves over one question, the numbers it publishes, the request with its guards and all its questions, what a published answer says, and the way from the request body to the served one |
| `Gguf`, `Truncation`, `GgufFile` | the metadata reader, what it makes of cut files, the tensor index reader and the writer of the synthetic model file, as functions on bytes and over a moving file handle (GGUF specification, section "File Structure") |
| `Rounding`, `Readout` | six significant digits, softmax, coverage and the three confidence statistics |
| `Json`, `Schema`, `Refusals`, `Wire`, `Rendering`, `Judgement`, `Served` | request validation and its codes, rendering, the client that judges a served body, and the theorem across all of them |
| `McNemar`, `Roles`, `Bootstrap` | paired decision statistics |
| `Splice`, `SecondPass` | generated regions of a document, and what a check after a write finds |
| `CommandLine`, `CommandForms`, `Asking` | the argument loop, the questions of `ask`, and the request made of a whole command line |
| `Stratified`, `Quant`, `OracleSkips` | stratified selection, the quant recommendation, the oracle's transcript and the filter that reads it |
| `Text`, `Sequences`, `Arith`, `Wrappers` | strings, sorting and permutations, arithmetic, results |

## How to read it

The model is an uninterpreted deterministic network (`KvCache.Net`): one step maps the entries a sequence sees,
a token and a position to a hidden state, and a head maps a hidden state to a row. `KvCache.Fresh` is the
reference, one context with one sequence, no sharing and no batches. A wrong position, sequence id or order
anywhere in a protocol would reach the rows, so equality with the reference is the claim throughout.

Methods keep the loops and the state of the program and are proved against functions or predicates; the lemmas
say what those mean. Numbers are exact: the wire's rounding is modelled, floating-point noise is not. The
exponential, the logarithm and the square root are parameters with the laws that are used of them.

## Where the code does something else than it says

- The extra row of `json_instructed` is documented as the head read one step further
  (src/typed_gguf/engine/decide.py:747-755), but the head is released first (lines 734-742):
  `Engine.ValueRowMissesPrompt`.
- Coverage adds the mass of a first token once per candidate that begins with it; it is the candidates' mass
  exactly when no two share a first token or the first tokens exhaust the vocabulary
  (src/typed_gguf/engine/decide.py:709): `Readout.CoverageIsMass`, `Readout.SharedTokenHidesLowMass`.
- A candidate listed twice in a ranked policy gets its later log-probabilities twice
  (src/typed_gguf/bench/labels.py:236-241): `Probe.SharedEqualsSequential` has the exact condition.
- The probes compare their pools with `--max-sequences`, not with the number of sequences the context was created
  for, and their heads with nothing unless something is ranked (tools/e3c_cue_shapes.py:236-300):
  `Probe.PoolsFitContext`, `Probe.PoolOutgrowsContext`, `Probe.HeadsUnguarded`. A shape's `advance` says how many
  tokens; any positive number decodes one.
- The GGUF reader takes many cut files for whole ones, among them the magic alone and any cut in the last string
  (docs/verify_runtime_contract.py:268-305): `Truncation.CutAccepted` says exactly which,
  `Truncation.CutTextIsShorter` what is read.
- After rounding the choice is a maximum but not always the first one: `Served.FirstOnTheWire` has the exact
  condition.
- The client raises instead of reporting when a choice carries a probability that is no number
  (tools/host_gate_serve_client.py:178-180) and for integers beyond a double (lines 136, 144, 149, 159, 196, 206):
  `Wire.Verify` says exactly when.
- A wave decodes once more than `decode_calls == 1 + waves` allows (src/typed_gguf/engine/decide.py:30) when
  `two_step` advances or `json_instructed`, the default cue, reads its extra row: `Engine.ScoreAnswer` has the exact
  condition for a question and `Deciding.Decide` for a request. `max_waves` is compared with the planned number only
  (lines 553-557).
- NaN is accepted for every number option, and infinity for the two without an upper bound, because every
  comparison with NaN is false (src/typed_gguf/schema.py:395-401): `Schema.InRangeIff`, `Schema.NaNAccepted`.
- A saved prefix is accepted for its tokens alone; the model path in its sidecar is not compared
  (src/typed_gguf/engine/session.py:681-703, 741-748): `Sessions.ForeignState`.
- A number option that is an integer no double can hold ends in an OverflowError instead of a code
  (src/typed_gguf/schema.py:395): `Schema.OversizedRaises` says exactly when.
- The clamps of the paired interval are not vacuous (tools/e3e_roles_decision.py:91): `McNemar.LowClampBites`. A
  cell that is significantly worse is told that the exact test does not clear (lines 295-297):
  `Roles.BelowIgnoresTheTest` says when, `Roles.WorseButDenied` for which reports. The verdict for a cell without
  a comparison (lines 278-281) cannot occur in a full analysis: `Roles.NobodyUnpaired`.
- A region's body is searched for its own markers only (tools/e3_build_evidence.py:477-478), so a write can be
  followed by a check that raises: `SecondPass.CheckAfterWrite` has the exact condition.
- `--choice=...` is accepted by the argument loop and always refused afterwards; `--name=value` is accepted for
  names no command declares (src/typed_gguf/cli.py:199-203): `CommandLine.InlineQuestionRefused`,
  `CommandLine.InlineIsTaken`. A bare question map with an id "questions" is read as a body (lines 923-925):
  `Asking.BareMapIff`.
- "No quant fits" is said without trying a smaller cache on the CPU (docs/verify_runtime_contract.py:253-258):
  `Quant.EightBitOnCpuNeverTried`; the exact condition is in `Quant.InsufficientMeansNothingFits`.
- A skip with a blank message is counted by the oracle and lost by the filter (docs/verify_runtime_contract.py:48-50,
  tools/matrix_oracle_skips.py:100-103): `OracleSkips.BlankSkipDisagrees`.

## Model

| member | source | states |
|---|---|---|
| KvCache.ForkView | src/typed_gguf/engine/session.py:611-613 | after a fork the new sequence sees exactly the source's entries before the given position, and no other sequence sees anything new |
| KvCache.ReleaseView | src/typed_gguf/engine/session.py:615-619 | after a release the sequence sees nothing and every other sequence sees what it saw |
| KvCache.ForkCostsNoCell | docs/evidence/poc-ctypes-20260917.py:179-181 | branching is free: a fork adds no cell to the cache, however long the prefix |
| KvCache.DecodeCostsOneCellPerToken | src/typed_gguf/engine/session.py:621-640 | a decode adds exactly one cell per token of its batch |
| KvCache.PutHolds | docs/evidence/poc-ctypes-20260917.py:144-163 | one token decoded at the end of a sequence leaves the cache as a fresh context would have it and returns the fresh row |
| KvCache.SegmentRun | tools/e3b_label_policy.py:151-166 | one branch of a batch extends only its own sequence, contiguously, and its single row is the fresh context's row |
| KvCache.BatchRun | docs/evidence/poc-ctypes-20260917.py:179-194 | central refinement: for any number of branches over shared cells, one batched decode returns the rows of independent contexts in branch order, and nobody sees another branch's tokens |
| KvCache.FreshRowsCount | tools/e3c_cue_shapes.py:248-249 | the strict pairing of branches and rows fails exactly when some branch decodes nothing |
| KvCache.FreshRowsAt | tools/e3c_cue_shapes.py:246-250 | the k-th returned row belongs to the k-th branch |
| KvCache.FreshAt | tools/e3b_label_policy.py:160 | a sequence's entries stand at the contiguous positions 0..len-1, each with the hidden state of one step over the entries before it, and every prefix of them is the prefix's own context |
| Sessions.Session.Fork | src/typed_gguf/engine/session.py:611-613 | the cells after a fork, and what each sequence sees of them |
| Sessions.Session.Release | src/typed_gguf/engine/session.py:615-619 | sequence 0 is never released; any other is emptied and nothing else changes |
| Sessions.Session.Decode | src/typed_gguf/engine/session.py:621-650 | the cells and the rows after a batch, and one more decode call |
| Sessions.Session.Prefill | src/typed_gguf/engine/session.py:589-609 | an empty prefix and a state saved for other tokens are refused with nothing changed; otherwise sequence 0 holds the prefix after one decode without rows, or what was saved after none |
| Sessions.Session.LoadState | src/typed_gguf/engine/session.py:659-705 | a saved prefix is put back exactly if its tokens are these; sequence 0 then sees what was saved and no other sequence anything new |
| Sessions.SaveThenLoad | src/typed_gguf/engine/session.py:716-748 | what one context prefills and saves, another context of the same network puts back without a decode and holds as its own |
| Sessions.ForeignState | src/typed_gguf/engine/session.py:681-703 | after any prefix there are two networks, the state of one is put back for the other and its next row is the wrong one |
| Sessions.PrefillHolds | src/typed_gguf/engine/session.py:600-602 | a prefill without logits leaves the cache of a decode with them |
| Sessions.SameTokensSameCells | src/typed_gguf/engine/decide.py:92-96 | the logits flags choose which rows come back, never what the cache holds |
| Sessions.BatchFor | tools/e3b_label_policy.py:151-166 | the batch holds every token with its sequence and place and one flag per pair, at its last token; it is refused for unequal lengths, a missing place, or no token at all |
| Sessions.PlacedBranches | tools/e3b_label_policy.py:160-165 | places that continue each sequence make the batch exactly the branches' segments |
| Sessions.DecodeBranches | tools/e3b_label_policy.py:151-166 | the whole call: batch, decode, rows equal to the fresh ones, every other sequence untouched, failure only for an empty batch |
| Heads.StepHeads | tools/e3c_cue_shapes.py:266-285 | one decode moves some of the heads by one token each, returns their fresh rows to their owners, leaves the other heads and all other sequences alone, and happens only if a head moves |
| Advance.ArgmaxFirst | src/typed_gguf/engine/readout.py:154-162 | the first maximum of a row, an error exactly for an empty row |
| Advance.AdvanceToken | tools/e3c_cue_shapes.py:128-146 | `content` returns the first maximum among the tokens that close nothing, `greedy` the row's own; an error exactly when no such token exists |
| Trie.TrieLevel | src/typed_gguf/bench/labels.py:173-184 | the distinct prefixes of one length that a longer candidate passes through, each once, sorted |
| Trie.PathBeforeMeans | src/typed_gguf/bench/labels.py:184 | the order is that of tuples: a beginning first, otherwise the lesser token at the first difference |
| Trie.TrieNodes | src/typed_gguf/bench/labels.py:187-189 | the number of sequences all levels need |
| Trie.ForkLevel | src/typed_gguf/bench/labels.py:220-231 | after the forks of a level each child's sequence holds the head and its parent, and every other sequence is as it was |
| Trie.ScoreLevel | src/typed_gguf/bench/labels.py:216-235 | one level: every child's row is the fresh row after its prefix, with one decode and no change outside its own sequences |
| Trie.AddScores | src/typed_gguf/bench/labels.py:236-241 | every occurrence of a longer path adds the log-probability of its next token, read from its own prefix's row |
| Trie.StepLevel | src/typed_gguf/bench/labels.py:216-241 | a level keeps the trie's invariant: registered nodes hold their prefixes, scores are complete up to the level, used sequences are the pool's beginning |
| Trie.ScorePaths | src/typed_gguf/bench/labels.py:200-242 | for any candidates: it succeeds exactly when the pool is large enough for the trie, every score is the one an independent context gives, and no sequence outside the pool changes |
| Trie.ScoresAt | src/typed_gguf/bench/labels.py:204-207 | the k-th score of a path is read after the path's first k+1 tokens |
| Probe.ForkedReadout | docs/evidence/poc-ctypes-20260917.py:176-194 | one prefill and one batched decode: each branch's row is that of prefix+suffix in a context of its own, sequence 0 still holds the prefix; success exactly for a non-empty prefix and non-empty suffixes |
| Probe.SequentialReadout | docs/evidence/poc-ctypes-20260917.py:214-226 | the control run: prefix and suffix on sequence 0 of a new context |
| Probe.ForkEqualsSequential | docs/evidence/poc-ctypes-20260917.py:213-228 | the equivalence check, for any number of branches of any length: forked and sequential rows are the same rows |
| Probe.ReadCues | tools/e3c_cue_shapes.py:246-265 | each shape gets its own row and, if it advances, a token chosen from that row; it fails exactly when an advancing shape has none to choose |
| Probe.AdvanceShapes | tools/e3c_cue_shapes.py:266-285 | an advanced shape is read at prefix+suffix+its token, the others keep their cue row; every head holds the text it was read at |
| Probe.RankOne | tools/e3b_label_policy.py:179-196 | a policy ranks at its head's length on a pool of its own and leaves the heads alone |
| Probe.RankAll | tools/e3c_cue_shapes.py:286-312 | the loop over the policies succeeds exactly when every shape was measured, no label is empty and the running total of sequences stays within the ceiling |
| Probe.MeasureItem | tools/e3c_cue_shapes.py:204-312 | the whole measurement of an item: success exactly when its guards hold (among them a first token for every label of every measured variant), and then every cue row, advanced row and ranked score is the one an independent context gives |
| Probe.PoolsDisjoint | tools/e3c_cue_shapes.py:287-300 | heads and pools of a successful run are pairwise disjoint and below `--max-sequences` |
| Probe.CursorMonotone | tools/e3c_cue_shapes.py:287-300 | the cursor never moves back, so later pools lie above earlier ones |
| Probe.HeadsUnguarded | tools/e3c_cue_shapes.py:236-241 | without a ranked policy nothing compares the heads with `--max-sequences`: they may exceed it |
| Probe.PoolsFitContext | tools/e3c_cue_shapes.py:211 | the pools stay inside the sequences the context is created for exactly when the final cursor does; the guard (lines 294-300) compares another number |
| Probe.PoolOutgrowsContext | tools/e3c_cue_shapes.py:211 | one shape and two to eight labels of eight tokens without a common first token pass the guard and use a sequence the context was not created for |
| Probe.SharedEqualsSequential | src/typed_gguf/bench/labels.py:213-241 | sharing prefixes gives a multi-token candidate its own sequential scores if and only if the candidate is listed once |
| Engine.DecodeSuffix | src/typed_gguf/engine/decide.py:683-695 | the suffix decoded on a fresh copy of the prefix gives the fresh row and leaves sequence 0 alone |
| Engine.EngineAdvance | src/typed_gguf/engine/decide.py:774-790 | `two_step` advances by the row's argmax unless that token closes the turn; no other cue advances |
| Engine.ForkCandidates | src/typed_gguf/engine/decide.py:710-713 | every candidate's sequence is emptied and then holds the head |
| Engine.ScoreSteps | src/typed_gguf/engine/decide.py:714-733 | one decode per step up to the longest candidate; every candidate has its own sequential scores |
| Engine.ReleaseCandidates | src/typed_gguf/engine/decide.py:734-735 | a finished wave leaves its sequences empty and the prefix in place |
| Engine.ScoreGroup | src/typed_gguf/engine/decide.py:677-742 | one wave: rows, scores and the number of decodes, none of which depends on what earlier waves left behind |
| Engine.ValueRow | src/typed_gguf/engine/decide.py:744-766 | the extra row of `json_instructed` as it is really read: on a sequence that has just been emptied |
| Engine.ValueRowMissesPrompt | src/typed_gguf/engine/decide.py:734-742 | the extra row is the row that follows the prompt, on every network, if and only if the prompt is empty: the head was released first |
| Engine.AdvanceUnique | src/typed_gguf/engine/decide.py:564-570 | every wave moves its head by the same token |
| Engine.JoinWaves | src/typed_gguf/engine/decide.py:576-583 | the scores of two consecutive waves are the scores of their union |
| Engine.ScoreAnswer | src/typed_gguf/engine/decide.py:560-583 | all waves of a question: the scores do not depend on the split, the decodes are the planned ones if and only if the waves read no further row and one more per wave otherwise, sequence 0 still holds the prefix and no sequence above `n_seq_max - 1` is touched |
| Engine.WaveCost | src/typed_gguf/engine/decide.py:677-766 | a wave decodes once more than planned exactly when the cue row's first maximum closes no turn (`two_step`) or closes the value (`json_instructed`) |
| Gguf.LittleEndianRoundTrip | docs/verify_runtime_contract.py:274-276 | a number written in k bytes is read back |
| Gguf.LastByteWeighs | docs/verify_runtime_contract.py:274-276 | the byte at place k counts 256^k |
| Gguf.FixedMeans | docs/verify_runtime_contract.py:261-264 | for every byte string and every type id: ids 0, 2, 4 and 10 are the little-endian number of 1, 2, 4 and 8 bytes, ids 1, 3, 5 and 11 the number congruent to it in the signed half, 6 and 12 the bits of 4 and 8 bytes, 7 one byte's truth; any other id is unknown and only missing bytes are an error otherwise |
| Gguf.TextMeans | docs/verify_runtime_contract.py:285-291 | a text (id 8) is its length in eight bytes and that many bytes |
| Gguf.ArrayMeans | docs/verify_runtime_contract.py:292-298 | an array (id 9) is an item type in four bytes, a count in eight and the items; more than a million items or a third nesting is refused |
| Gguf.FileMeans | docs/verify_runtime_contract.py:268-277 | a file is the letters GGUF, a version in four bytes, two counts in eight bytes each and the pairs from byte 24 on; other letters are refused |
| Gguf.PairMeans | docs/verify_runtime_contract.py:278-281 | a pair is a text, a type id in four bytes and a value, and a later pair replaces one of the same key |
| Gguf.ValueRoundTrip | docs/verify_runtime_contract.py:290-299 | any writable value, nested to any depth, is read back exactly when it is within the caps, whatever follows, and the reader stops at its last byte; over a cap it is always refused |
| Gguf.ItemsRoundTrip | docs/verify_runtime_contract.py:293-298 | the same for the items of an array: one item over a cap refuses the whole |
| Gguf.PairsRoundTrip | docs/verify_runtime_contract.py:277-281 | the same for the key/value pairs, collected into a dictionary |
| Gguf.HeaderRoundTrip | docs/verify_runtime_contract.py:268-282 | header round trip: counts and dictionary are read back, exactly header and pairs are consumed, any tensor bytes may follow; refused exactly when a value is over a cap |
| Gguf.DictionaryComplete | docs/verify_runtime_contract.py:277-281 | with distinct keys every pair is in the dictionary and nothing else is |
| Truncation.CutAccepted | docs/verify_runtime_contract.py:268-305 | for every written file and every cut position: the reader takes the cut file for a whole one if and only if the pair count bytes that are there read 0, or everything before the last pair and its key are whole, its type has a byte, and its value tolerates the cut |
| Truncation.TornValue | docs/verify_runtime_contract.py:290-305 | a cut value at any nesting is read exactly when it is tolerated, and then to the end of the file: a text anywhere, an array by its count and what its items tolerate, a fixed-width value never |
| Truncation.TornPairs | docs/verify_runtime_contract.py:279-283 | the same for the pairs: nothing can follow the pair the cut falls into |
| Truncation.PartialCount | docs/verify_runtime_contract.py:276-281 | a number of which some bytes are missing is read modulo the power of 256 that is there |
| Truncation.CutTextIsShorter | docs/verify_runtime_contract.py:285-287 | a file cut inside the text of its last pair gives all its pairs, the last one with the bytes of its text that are there |
| GgufFile.FileHandle.Read | docs/verify_runtime_contract.py:271 | a read returns what is left at most and moves the handle behind it |
| GgufFile.FileHandle.ReadString | docs/verify_runtime_contract.py:285-287 | the string reader over the moving handle is the specified one |
| GgufFile.FileHandle.ReadScalar | docs/verify_runtime_contract.py:302-305 | an unknown type id and too few bytes are errors; otherwise exactly the value's bytes are consumed and the value is what they mean for that id |
| GgufFile.FileHandle.ReadTyped | docs/verify_runtime_contract.py:290-299 | the value reader over the moving handle is the specified one, on every input |
| GgufFile.FileHandle.ReadList | docs/verify_runtime_contract.py:293-298 | the array loop over the moving handle is the specified one |
| GgufFile.ParseMetadata | docs/verify_runtime_contract.py:268-282 | the header reader over the moving handle is the specified one and stops in front of the tensor index |
| GgufFile.IndexRoundTrip | src/typed_gguf/runtime/fit.py:234-282 | the tensor index is read back row by row with zero offsets, and the reader stops in front of what follows |
| GgufFile.RowMeans | src/typed_gguf/runtime/fit.py:276-282 | a row of the index is a text, the number of dimensions in four bytes, eight bytes for each, a type in four and an offset in eight |
| GgufFile.WalksAgree | src/typed_gguf/runtime/fit.py:253-272 | on any bytes: a value that the metadata reader and the index reader both get through ends at the same byte for both |
| GgufFile.BlocksAgree | src/typed_gguf/runtime/fit.py:273-275 | the same for the whole key/value block: the index starts where the metadata reader stopped |
| GgufFile.TensorIndexRoundTrip | src/typed_gguf/runtime/fit.py:234-283 | the index reader walks over any written pairs by itself, at any nesting and size, and reads the index back; the other reader's caps do not matter |
| GgufFile.SyntheticKeysDistinct | tools/fit_oom_probe.py:54-59 | the six keys never collide, whatever the architecture is called |
| GgufFile.WriteTensor | tools/fit_oom_probe.py:63-67 | one index entry, its dimensions appended one by one |
| GgufFile.WriteSynthetic | tools/fit_oom_probe.py:36-70 | both readers read the written file: the metadata reader its counts and all six pairs, the index reader every tensor, and the filler is left |
| Rounding.RelativeError | tools/host_gate_serve_client.py:56-58 | six significant digits are a relative error of at most five millionths, for every positive number |
| Rounding.ProbabilityError | tools/host_gate_serve_client.py:56-57 | a probability is rounded by at most 5e-7 |
| Rounding.SumError | tools/host_gate_serve_client.py:56-58 | the sum of rounded numbers is within five millionths of the sum whatever their number, and of K probabilities within K·5e-7 as well |
| Rounding.SigMonotone | src/typed_gguf/engine/readout.py:149-151 | rounding keeps the order of positive numbers, across every power of ten |
| Rounding.RoundMonotone | src/typed_gguf/engine/readout.py:149-151 | rounding keeps the order of all numbers |
| Rounding.RoundIdempotent | src/typed_gguf/schema.py:489-496 | a rounded number is its own rounding |
| Rounding.RoundWhole | src/typed_gguf/engine/readout.py:149-151 | a whole number of up to six digits is its own rounding |
| Readout.SoftmaxIsDistribution | docs/verify_runtime_contract.py:191-196 | a softmax sums to one and has no zero in it, at every temperature |
| Readout.ScaleFree | docs/verify_runtime_contract.py:193 | whatever number is subtracted first, the shares are the same |
| Readout.ShiftInvariant | docs/verify_runtime_contract.py:191-196 | adding a constant to every logit changes nothing |
| Readout.OrderPreserving | docs/verify_runtime_contract.py:191-196 | the order of the logits is the order of the probabilities |
| Answers.Odds | src/typed_gguf/engine/readout.py:77-91 | two probabilities are in the ratio of the exponentials of their values over the temperature |
| Readout.ChoiceIgnoresTemperature | src/typed_gguf/engine/readout.py:77-91 | the chosen candidate, ties included, is the same at every temperature |
| Readout.RestrictedIsConditional | docs/verify_runtime_contract.py:213-216 | a restricted probability times the coverage is the candidate's full-vocabulary probability, despite the two different subtracted maxima |
| Readout.CoverageFromScale | src/typed_gguf/engine/readout.py:170-177 | the loop over a precomputed logarithmic scale gives the softmax's own mass, capped at one |
| Readout.ScaledProbability | src/typed_gguf/engine/readout.py:165-167 | a logit minus the row's logsumexp is the logarithm of its softmax probability |
| Readout.CoverageIgnoresWaves | src/typed_gguf/engine/decide.py:583-601 | capping wave by wave and once more at the end is capping the whole: the split into waves leaves no trace in the coverage |
| Readout.CountedOnce | src/typed_gguf/bench/labels.py:158-165 | the uncapped sum is the mass of the first tokens exactly when no two candidates share one |
| Readout.CoverageIsMass | src/typed_gguf/engine/decide.py:709 | the published coverage is the mass of the candidates' first tokens if and only if those are distinct or exhaust the vocabulary |
| Readout.SharedTokenHidesLowMass | src/typed_gguf/engine/readout.py:180-195 | two candidates sharing a first token of mass 0.06 are reported above the 0.10 floor |
| Readout.PeakNeedsNoClamp | docs/verify_runtime_contract.py:199-205 | the normalized peak of a distribution is in [0,1] unclamped, 0 exactly for the uniform one, 1 exactly for a certain answer |
| Readout.MarginNeedsNoClamp | src/typed_gguf/engine/readout.py:49-58 | the margin is in [0,1] unclamped, 1 exactly for a certain answer, and its guard against a certain runner-up never fires |
| Readout.EntropyNeedsNoClamp | src/typed_gguf/engine/readout.py:40-46 | the entropy statistic is in [0,1] unclamped, 0 exactly for the uniform distribution, 1 exactly for a certain answer (Gibbs' inequality with its equality case, over an abstract logarithm) |
| Schema.ParseChoice | src/typed_gguf/schema.py:284-297 | the loop gives 1..255 named candidates in order, or the code of the first thing wrong |
| Schema.ParseScore | src/typed_gguf/schema.py:300-309 | 2..10 described levels numbered from 0, or the error |
| Text.DigitsMean | src/typed_gguf/schema.py:305 | a level's key is its decimal number |
| Schema.ParseNoul | src/typed_gguf/schema.py:312-329 | both sides or neither, no other key |
| Schema.CandidatesIff | src/typed_gguf/schema.py:284-328 | which criteria are accepted: 1 to 255 named options, 2 to 10 described levels, both sides of a yes/no question or neither; more than 255 options have their own code |
| Schema.SidesInOrder | src/typed_gguf/schema.py:309-328 | whichever side is written first, `true` describes yes and `false` describes no |
| Schema.ParseQuestions | src/typed_gguf/schema.py:249-258 | the questions in order, or the code of the first that fails |
| Schema.ParseOptions | src/typed_gguf/schema.py:332-378 | each known option overwrites its default and is normalised by its own rule |
| Schema.ParseRequest | src/typed_gguf/schema.py:208-231 | what is accepted meets every promise the engine relies on and is the reading of its own canonical payload; anything else ends in the first check that fails, with its code or with the exception; it asks what the payload says |
| Schema.NormaliseIdempotent | src/typed_gguf/schema.py:381-453 | a normalised option value is accepted again and unchanged, for every rule |
| Schema.CandidatesAnswerable | src/typed_gguf/schema.py:284-329 | accepted criteria give distinct candidates paired with descriptions, in the number the type allows |
| Schema.AcceptedIsValid | src/typed_gguf/schema.py:208-231 | every accepted request meets every promise: state present, ids distinct and named, candidates answerable, every option in its rule's normal form |
| Schema.AcceptedAsks | src/typed_gguf/schema.py:208-231 | an accepted request is what its payload says: state, model, format, and under every id its own type, instructions and criteria; each option is described by its own value, level i by item i, yes by the text under `true` |
| Schema.OptionAsked | src/typed_gguf/schema.py:345-377 | every option is the normal form of what the payload gives under its name, or of its default |
| Refusals.TakenIff | src/typed_gguf/schema.py:403-453 | which values each rule takes |
| Refusals.NumberTaken | src/typed_gguf/schema.py:390-400 | the numbers a number option takes, whole ones as the same real number |
| Refusals.AcceptedOptions | src/typed_gguf/schema.py:345-377 | each of the 24 options an accepted payload gives, or its default, is one the program takes under that name, each name with its own range or list |
| Refusals.RefusedFor | src/typed_gguf/schema.py:208-328 | the code of a refusal names the first thing wrong, in the order of the checks, for every payload; in what is accepted nothing is wrong |
| Schema.NumberNormal | src/typed_gguf/schema.py:391-402 | that form for a number option: the range, and beside it NaN, and infinity where there is no upper bound |
| Schema.InRangeIff | src/typed_gguf/schema.py:391-402 | the number options of an accepted request are in range if and only if none is a special float |
| Schema.NaNAccepted | src/typed_gguf/schema.py:391-402 | NaN is accepted for any number option of any valid request |
| Schema.CanonicalRoundTrip | src/typed_gguf/schema.py:208-231 | a valid request written out in full, every option named, is parsed back to itself |
| Schema.ReparsedUnchanged | src/typed_gguf/schema.py:208-231 | writing an accepted request out and parsing it again only drops the warning |
| Schema.UnknownOptionsDoNothing | src/typed_gguf/schema.py:338-343 | unknown option keys are always refused when strict; otherwise they change nothing and add one warning |
| Schema.OversizedRaises | src/typed_gguf/schema.py:391-402 | parsing ends in an OverflowError if and only if every check before the option values passes and the first option out of order is a number option holding an integer no double can hold |
| Schema.TableFits | src/typed_gguf/schema.py:98-131 | no option is listed twice and every default passes its own rule |
| Schema.DefaultsAgree | src/typed_gguf/schema.py:98-131 | no options, an empty object and every default spelled out mean the same |
| Documents.RoundTreeIdempotent | src/typed_gguf/schema.py:489-496 | rounding a document twice is rounding it once, at every depth |
| Documents.RoundedGet | src/typed_gguf/schema.py:489-496 | rounding and looking a key up commute |
| Wire.RenderResponse | src/typed_gguf/schema.py:460-496 | whatever is sent is at wire precision, both forms can be rendered again from the native one, the adapter's body has the service's three keys |
| Wire.NativeAgain | src/typed_gguf/schema.py:460-496 | rendering the native body again, in either form, is rendering the result itself: the adapter is a projection of the native response |
| Rendering.ProjectIff | src/typed_gguf/schema.py:469-473 | an answer is projected exactly when it has one of the three types, its value and its probabilities |
| Rendering.ProjectKeeps | src/typed_gguf/schema.py:469-479 | the projection keeps type, value and probabilities, a confidence where there is one and a score's legend, each as it was, and nothing else |
| Rendering.RenderedMeans | src/typed_gguf/schema.py:460-486 | for any result: the native form is the rounded result, the adapter's has its model, every answer's projection in its place and the two counts or nothing for a missing one; what cannot be projected is a missing key, any other format is refused |
| Wire.VerifyDistribution | tools/host_gate_serve_client.py:147-155 | no problem exactly for a distribution: numbers in [0,1] whose sum is within the tolerance; each other value is reported under its label and the sum for itself; an exception exactly for an integer beyond a double |
| Wire.VerifyChoice | tools/host_gate_serve_client.py:169-183 | no problem exactly when the choice is listed and nothing exceeds it, and each of the three problems for its own cause; an exception exactly when a probability cannot be converted or none is a number |
| Wire.VerifyAnswer | tools/host_gate_serve_client.py:123-200 | no problem exactly for an answer that conforms to its type, and every problem reported for its own cause and no other; an exception exactly where the argmax check raises one or a converted integer is beyond a double |
| Wire.VerifyUsage | tools/host_gate_serve_client.py:101-110 | no problem exactly for two non-negative integers with some input read, and every problem for its own cause |
| Wire.Verify | tools/host_gate_serve_client.py:82-120 | an empty list exactly for a conforming body, every problem reported for its own cause and no other, and an exception exactly where an answer causes one, for every JSON value and every set of questions |
| Judgement.ConformsIff | tools/host_gate_serve_client.py:82-200 | a conforming body written out: the three keys, a model, some input, and for exactly the questions asked an answer of its type with its keys, numbers between zero and one that sum to one within a hundred-thousandth, a listed maximum, a score between the levels of a numbered legend |
| Judgement.SumReported | tools/host_gate_serve_client.py:151-155 | the sum is reported exactly when the numbers are off by more than that or there is one kind of infinity; a NaN is never reported as a wrong sum |
| Judgement.FloatSumMeans | tools/host_gate_serve_client.py:151-152 | the sum of any values, special floats among them |
| Judgement.NaNFirstNobodyWins | tools/host_gate_serve_client.py:175-180 | once the first number is NaN no label wins |
| Judgement.BestIsGreatest | tools/host_gate_serve_client.py:175-176 | without a NaN the best is one of the numbers and no other exceeds it |
| Served.RoundedDistribution | tools/host_gate_serve_client.py:56-58 | a rounded distribution passes the client's sum check, whatever the number of candidates |
| Served.RoundedWinner | tools/host_gate_serve_client.py:175-183 | the first maximum before rounding is still a maximum after it |
| Served.ScoreInRange | tools/host_gate_serve_client.py:186-199 | a weighted mean rounded twice stays between the first and the last level |
| Served.LevelLegend | tools/host_gate_serve_client.py:188-194 | the legend of a validated score question has exactly the level numbers as keys |
| Served.Projected | src/typed_gguf/schema.py:470-480 | the projection of a rounded answer keeps exactly the adapter's fields, whatever the native-only ones hold |
| Served.RenderedBody | src/typed_gguf/schema.py:481-486 | what the adapter sends for any engine result: three service keys and every answer in its own form |
| Served.ServedBodyConforms | tools/host_gate_serve_client.py:82-120 | end to end: every well-formed engine result, projected and rounded, passes the client with no problem |
| Served.ServedBodyRuns | tools/host_gate_serve_client.py:82-120 | ... and meets no exception, whatever strings `float()` parses |
| Served.AcceptedIsServed | src/typed_gguf/engine/decide.py:627-674 | from the request body on: whatever the schema accepts is served conforming, given a distribution over the candidates and a confidence for each question |
| Published.ConfidenceInRange | src/typed_gguf/engine/readout.py:31-70 | every confidence mode gives a number in [0,1] on every distribution, and 1 exactly for a certain answer |
| Published.AnswerQuestion | src/typed_gguf/engine/decide.py:560-604 | a question is answered exactly when no two candidates are scored by the same tokens and its waves get their rows, and otherwise which of three errors it is; the published probabilities are the softmax, at the request's temperature, of the length-normalised scores independent contexts give after the question's one head, confidence, coverage and reliability follow from them, however they were split into waves; the decodes are counted and the next question finds the prefix as this one did |
| Published.HeadUnique | src/typed_gguf/engine/decide.py:774-790 | a question has one head: prompt and question, and for `two_step` the first maximum of the row they give unless it closes the turn |
| Published.CoverWaves | src/typed_gguf/engine/decide.py:583-601 | the coverage added up and capped wave by wave is the candidates' own, capped once |
| Published.CoverageIsCounted | src/typed_gguf/engine/readout.py:170-177 | it is the softmax mass of the candidates' first tokens, each as often as it begins a candidate |
| Published.IndependentIsMeasured | src/typed_gguf/engine/decide.py:599-604 | such numbers are a distribution over the candidates and a confidence in range |
| Answers.OddsOfScores | src/typed_gguf/engine/decide.py:600-602 | two candidates' probabilities are in the ratio of the exponentials of their scores over the temperature, a score being the sum of the candidate's own log-probabilities over the power of its length |
| Answers.OddsOfMeans | src/typed_gguf/engine/readout.py:130-134 | at length norm 1 the scores are the mean log-probabilities |
| Answers.ScoreIsMean | src/typed_gguf/engine/readout.py:130-134 | that score lies between the least and the greatest log-probability and is the same for the list said twice |
| Answers.OneTokenEach | src/typed_gguf/engine/readout.py:89-127 | where every candidate is one token, at temperature 1: the published probability times the published coverage is the token's own probability among the whole vocabulary |
| Answers.HeadIs | src/typed_gguf/engine/decide.py:774-790 | candidates are read after prompt and question, for `two_step` also after the row's first maximum unless it closes the turn |
| Answers.ReadsOn | src/typed_gguf/engine/decide.py:744-790 | a further row is read exactly where `two_step` advances or `json_instructed` meets a token that closes the value |
| Answers.ScoredTokens | src/typed_gguf/engine/decide.py:223-227 | under `single_token` a candidate is scored by its first token, otherwise by all |
| Answers.ReliabilityIff | src/typed_gguf/engine/readout.py:180-195 | a low mass is named first, then a low confidence |
| Answers.PeakConfidence | src/typed_gguf/engine/readout.py:31-37 | the peak's confidence c of K candidates with greatest probability p: c(K-1) = Kp-1 |
| Answers.MarginConfidence | src/typed_gguf/engine/readout.py:49-57 | the margin's confidence c of the two best probabilities p, q: c(1-q) = p-q |
| Answers.EntropyConfidence | src/typed_gguf/engine/readout.py:40-46 | the entropy's confidence falls short of one by the entropy's share of log K |
| Answers.MeanIsThresholds | src/typed_gguf/engine/readout.py:137-146 | the weighted mean is the sum over the levels of the mass at that level or above |
| Answers.MassMoved | src/typed_gguf/engine/readout.py:137-146 | mass moved between two levels moves the mean by their distance |
| Answers.LevelAppended | src/typed_gguf/engine/readout.py:137-146 | a further level counts by the number of levels before it |
| Answers.CertainScore | src/typed_gguf/engine/readout.py:137-146 | a certain answer is scored by its level |
| Answers.ScoreOfThree | docs/verify_runtime_contract.py:482 | [0, 0.7, 0.3] is scored 1.3 |
| Answers.RenderedSays | src/typed_gguf/schema.py:460-486 | in both formats every question's answer is found under its id and says, at wire precision: the probabilities under the candidates' own keys, the yes-rate as the probability of yes, the choice as the first maximum, the score as that mean, each legend entry with its own description; and the model and the two counts |
| Answers.NativeTail | src/typed_gguf/engine/decide.py:628-671 | the native answer also says coverage, reliability, cue verdict and scored tokens |
| Deciding.Guard | src/typed_gguf/engine/decide.py:532-557 | a request passes exactly when its sequences, its longest question and its planned waves are within the limits, and which of the two errors it meets otherwise |
| Answers.LongestNeeded | src/typed_gguf/engine/decide.py:280-291 | the guard compares with the longest question: every text with any candidate of it fits, and one needs that much |
| Answers.TokensAdd | src/typed_gguf/engine/decide.py:399-406 | the counted tokens, question by question |
| Answers.WavesNeeded | src/typed_gguf/engine/decide.py:798-814 | there are as many waves as it takes, and candidates of one length take that many decodes in each |
| Deciding.AnswerAll | src/typed_gguf/engine/decide.py:401-406 | the loop over the questions succeeds exactly when each can be answered and otherwise ends as the first that cannot; every answer is an independent context's, whatever the questions before it left in the cache |
| Deciding.ExtraIff | src/typed_gguf/engine/decide.py:30 | the questions cost no decode beyond the planned ones if and only if none of them reads a further row |
| Deciding.Decide | src/typed_gguf/engine/decide.py:361-462 | the whole request: success exactly when its candidates have tokens, it fits, there is a prefix, a saved state is this prefix's and every question can be answered, and otherwise the error of the first check that fails; all numbers are independent ones after each question's one head; the decodes are one for the prefix, none for a reloaded one, and the documented `waves` if and only if no question reads a further row; a request that does not get as far as its questions decodes nothing |
| Responding.OneWaveEach | src/typed_gguf/engine/decide.py:798-814 | with a sequence for every candidate each question is one wave: the planned decodes are the lengths of the longest candidates, the further ones the number of questions that read on |
| Responding.DefaultIsOneWave | src/typed_gguf/engine/decide.py:288 | which is what a request that names no `n_seq_max` gets |
| Responding.SequencesNeeded | src/typed_gguf/engine/decide.py:288 | without a number a request gets the fewest sequences that are three and enough for the prefix and every question's candidates |
| Responding.SetupAsGiven | src/typed_gguf/schema.py:345-377 | temperature, length norm, coverage floor, readout, cue and confidence mode are those the payload gives under these names, or their defaults; the closing tokens are the context's |
| Responding.PlanAsGiven | src/typed_gguf/schema.py:345-377 | so are the number of sequences, the cap on the waves and the saved state; the limits are the context's |
| Responding.AcceptedSettled | src/typed_gguf/schema.py:345-357 | the numbers of an accepted request's options are finite and in range if and only if none of the three is a special float |
| Responding.AcceptedIsServed | src/typed_gguf/engine/decide.py:560-674 | an accepted request whose answers are independent ones at its own temperature, length norm and confidence mode is served without a problem or an exception |
| Responding.Respond | src/typed_gguf/cli.py:1085-1117 | from the request body and the network to the client: refused with the schema's code and no decode, or decided exactly when it can be, and otherwise with the error of the first check that fails; the body publishes independent contexts' numbers, the adapter's client accepts it, and the decodes are counted |
| Responding.PublishedSays | src/typed_gguf/cli.py:1085-1117 | the published body says, under every question's own id, what independent contexts give it |
| Served.FirstOnTheWire | tools/host_gate_serve_client.py:175-183 | a client taking the first maximum of the wire finds the engine's choice if and only if no earlier candidate rounds to it |
| Served.TieOnTheWire | src/typed_gguf/engine/readout.py:154-162 | a distribution whose choice is not the first maximum of its own wire form |
| McNemar.RowSum | tools/e3e_roles_decision.py:75 | a row of binomial coefficients sums to 2^n |
| McNemar.TailMirror | tools/e3e_roles_decision.py:75 | a lower tail and its mirror image make up the whole row |
| McNemar.CombAbsorbs | tools/e3e_roles_decision.py:75 | the coefficients are the binomial ones: (k+1)·C(n+1,k+1) = (n+1)·C(n,k) |
| McNemar.ExactIsProbability | tools/e3e_roles_decision.py:70-76 | the value is in (0,1] and symmetric |
| McNemar.ExactIsOne | tools/e3e_roles_decision.py:70-76 | it is one exactly for counts at most one apart; the clamp changes it exactly for equal counts above zero |
| McNemar.ExactFalls | tools/e3d_cue_decision.py:67-80 | among as many discordant items a wider gap is never less significant, and from two apart strictly more |
| McNemar.SixDiscordant | tools/e3e_roles_decision.py:213-216 | below 0.05 there are at least six discordant items |
| McNemar.RadicandNeedsNoClamp | tools/e3e_roles_decision.py:89 | the radicand of the interval is never negative for counts of one table |
| McNemar.HalfWidthSquared | tools/e3e_roles_decision.py:79-94 | n times the half width is 1.96 times the root of b+c-(b-c)²/n, the difference is (b-c)/n, and the ends are clamped only outside -1 and 1 |
| McNemar.IntervalMirrors | tools/e3e_roles_decision.py:79-94 | swapping the sides mirrors difference and interval around zero |
| McNemar.LowClampBites | tools/e3e_roles_decision.py:91 | the lower clamp is effective exactly where Z·√radicand exceeds n+b-c: it is not vacuous |
| McNemar.AboveRoot | tools/e3e_roles_decision.py:91 | that condition without a root: Z²·radicand exceeds (n+b-c)² |
| McNemar.SmallTableClamps | tools/e3e_roles_decision.py:91 | one loss among two items is such a table |
| McNemar.PositiveIntervalWins | tools/e3e_roles_decision.py:213-216 | an interval above zero needs more wins than losses |
| Roles.CountsAddUp | tools/e3e_roles_decision.py:192-200 | the four counts of a pair account for every shared item once |
| Roles.PairCounts | tools/e3e_roles_decision.py:186-200 | a pair counts the shared items, those only the challenger got right, those only the baseline did, and those both did |
| Roles.OutcomeIsLast | tools/e3e_roles_decision.py:188-189 | of several rows with one id the last decides |
| Roles.CellMeans | tools/e3e_roles_decision.py:130-150 | a cell counts the rows of its report that are right, refused and of low mass |
| Roles.FlipIsSwap | tools/e3e_roles_decision.py:264-272 | the flip applied in `decide` is, number for number, the pair of the reports taken the other way round |
| Roles.WinNeedsSix | tools/e3e_roles_decision.py:288-289 | a win rests on at least six discordant items, most of them the challenger's |
| Roles.RankedUnique | tools/e3e_roles_decision.py:256-257 | the ranking is a total order: distinctly labelled cells have one ranked arrangement |
| Text.TextLessMeans | tools/e3e_roles_decision.py:256-257 | a label is earlier where it ends first or has the lesser character at the first difference |
| Roles.RankedFalls | tools/e3e_roles_decision.py:255-257 | along a ranking right answers never rise, among equals refusals never fall, then low mass, then the labels rise, and its first cell is beaten by none |
| Roles.BelowIgnoresTheTest | tools/e3e_roles_decision.py:295-297 | the verdict "interval clears zero below, exact test does not" is given exactly when the interval lies below zero; what it says of the test is untrue exactly when p < 0.05, exactly when the same reports the other way round are a win |
| Roles.VerdictMeans | tools/e3e_roles_decision.py:284-303 | each verdict exactly for its interval, test and discordant items |
| Roles.WorseButDenied | tools/e3e_roles_decision.py:295-297 | any report that lost six or more items, all of them, to a baseline that got them right is told so although the exact test clears |
| Roles.PairAll | tools/e3e_roles_decision.py:327-330 | every later report is paired with every earlier one; none exactly when two reports share no item |
| Roles.CollectAgainst | tools/e3e_roles_decision.py:259-272 | the loop over the pairs keeps the last comparison of each label with the baseline, flipped where needed |
| Roles.JudgeRanked | tools/e3e_roles_decision.py:273-310 | the loop over the ranked cells gives every cell but the baseline its verdict, in order |
| Roles.AgainstLast | tools/e3e_roles_decision.py:259-272 | what is kept for a label is its last comparison with the baseline, turned the right way, and something is kept exactly if there is one |
| Roles.Decide | tools/e3e_roles_decision.py:235-321 | refused exactly for no cells, a repeated label or an unlisted baseline; otherwise no cell has more right than the best, nor as many with fewer refusals, nor then less low mass; the ranking falls in that order, and every other cell has in it a verdict that rests on its last comparison with the baseline |
| Roles.AgainstIsDirect | tools/e3e_roles_decision.py:259-272 | for the pairs of all reports the map with flips is the map of direct comparisons |
| Roles.DecideIsDirect | tools/e3e_roles_decision.py:324-331 | what the loops compute is what comparing the baseline directly with each cell gives |
| Roles.Analyses | tools/e3e_roles_decision.py:324-331 | the decision of a set of reports, or why there is none |
| Roles.OrderIndependent | tools/e3e_roles_decision.py:324-331 | with the baseline named, permuting the reports changes neither ranking, verdicts nor refusal |
| Roles.NobodyUnpaired | tools/e3e_roles_decision.py:278-281 | in a full analysis the verdict "no paired comparison" cannot occur |
| Bootstrap.PairedDiff | tools/e3d_cue_decision.py:83-116 | the difference is (b_win-a_win)/n, the interval's ends stand at the places of the 2.5 and 97.5 percentile among the resamples' gains in ascending order and satisfy -1<=low<=high<=1, the p is the exact test's |
| Bootstrap.WinsAreTheDifference | tools/e3d_cue_decision.py:99-101 | right answers differ by wins minus losses |
| Bootstrap.GainCounts | tools/e3d_cue_decision.py:103-109 | a resample gains as often as it draws an item only the challenger got right, less the draws of one only the baseline did |
| Bootstrap.OnlyCounts | tools/e3d_cue_decision.py:100-101 | the wins are the items only that side got right |
| Bootstrap.QuantileBetween | tools/e3d_cue_decision.py:119-129 | a quantile lies between its two neighbours |
| Bootstrap.QuantileMonotone | tools/e3d_cue_decision.py:119-129 | quantiles grow with the fraction |
| Bootstrap.QuantileEnds | tools/e3d_cue_decision.py:119-129 | fraction 0 is the first value and fraction 1 the last |
| Bootstrap.QuantileOnLine | tools/e3d_cue_decision.py:119-129 | between evenly spaced values a quantile is on the line through them |
| Bootstrap.SummaryInOrder | tools/e3d_cue_decision.py:201-210 | min<=q1<=median<=q3<=max, with the true extremes of the values |
| Splice.CountIsOne | tools/e3_build_evidence.py:469-472 | a non-overlapping count of one means one place that every other reading overlaps |
| Splice.SplicedIff | tools/e3_build_evidence.py:467-479 | a splice of one-line markers succeeds exactly on a marked text and a clean body |
| Splice.SpliceRefused | tools/e3_build_evidence.py:469-478 | each of the three refusals for its own cause |
| Splice.SplicedText | tools/e3_build_evidence.py:467-479 | between the markers stands the body alone, on lines of its own and without the white space at its end |
| Splice.StaysMarked | tools/e3_build_evidence.py:479 | after a splice both markers still stand once, around the new body |
| Splice.LaterBodyWins | tools/e3_build_evidence.py:467-479 | a later body replaces an earlier one completely |
| Splice.SpliceIdempotent | tools/e3_build_evidence.py:467-479 | splicing the same body twice is splicing it once; the text outside the markers is untouched |
| Splice.OtherRegionMoves | tools/e3_build_evidence.py:467-479 | a splice leaves every region apart from it marked, moved with the text, and the same inside |
| Splice.SplicesCommute | tools/e3_build_evidence.py:486-490 | regions that are apart can be spliced in either order |
| Splice.OneStep | tools/e3_build_evidence.py:486-490 | one splice keeps any number of regions independent, makes its own current and the current ones stay current |
| Splice.WrittenIsCurrent | tools/e3_build_evidence.py:482-499 | splicing all regions again changes nothing |
| Splice.Document.Apply | tools/e3_build_evidence.py:482-499 | the file is written only when something changed and nothing is merely checked; a failure leaves it alone |
| Splice.WriteThenCheck | tools/e3_build_evidence.py:482-499 | a check after a write passes exactly when another pass over the written text changes nothing, which independent regions guarantee |
| SecondPass.MarkerAfter | tools/e3_build_evidence.py:467-479 | after a splice another region's marker stands once exactly when it is outside the region and not printed by the body, or inside it and printed once; it stays on its side |
| SecondPass.SecondPassReturns | tools/e3_build_evidence.py:486-499 | two regions in any layout: a second pass that gets through gives the text of the first |
| SecondPass.CheckAfterWrite | tools/e3_build_evidence.py:482-499 | two regions in any layout, the second standing from the start or printed by the first: after a write the check passes if and only if the second body leaves the first region's markers standing; otherwise it raises, and this says which error |
| SecondPass.ReadBefore | tools/e3_build_evidence.py:486-490 | for regions that both stand from the start that condition can be read off the file before the write |
| SecondPass.PlainLayouts | tools/e3_build_evidence.py:486-490 | that condition for regions apart (no marker in the second body), the second inside the first (the same), and the first inside the second (printed again) |
| SecondPass.NestedNeverCurrent | tools/e3_build_evidence.py:486-490 | a region inside a later one that does not print it again is erased: the write succeeds and every check raises |
| CommandLine.ParseArgs | src/typed_gguf/cli.py:186-218 | the loop over the index, with its three ways to fail |
| CommandLine.PrintedIsParsed | src/typed_gguf/cli.py:186-218 | any printed words, switches and settings are recovered: words in order, all values of a repeatable key, the last of another, whatever the values look like |
| CommandLine.InlineIsTaken | src/typed_gguf/cli.py:199-203 | `--name=value` is taken for any name, declared or not |
| CommandLine.EmptyInlineTakesNext | src/typed_gguf/cli.py:200-213 | `--name=` is `--name`: it takes the next argument as its value |
| CommandForms.KeyMeans | src/typed_gguf/cli.py:189-201 | a key is its name with underscores for dashes |
| CommandForms.WordTaken | src/typed_gguf/cli.py:198-216 | an argument that does not begin with two dashes is a word |
| CommandForms.NameRefused | src/typed_gguf/cli.py:205-214 | an undeclared name is refused under that name, a missing value at the end of the line under the name that needs it |
| CommandForms.AppendRefused | src/typed_gguf/cli.py:209-210 | a repeatable name cannot follow a value given to it with an equals sign |
| CommandLine.AskQuestions | src/typed_gguf/cli.py:1400-1409 | the question loop in choice, score, noul order, with its refusals |
| CommandLine.InlineQuestionRefused | src/typed_gguf/cli.py:1401-1403 | a question given inline always fails: its characters are taken for specifications |
| CommandForms.NoQuestion | src/typed_gguf/cli.py:1371-1374 | a specification without an equals sign or with a blank id names no question |
| CommandForms.NoulForm | src/typed_gguf/cli.py:1375-1379 | a yes/no question is all instructions |
| CommandForms.LabelsMissing | src/typed_gguf/cli.py:1380-1383 | a choice or a score without a colon, or with nothing behind it, has its own code |
| CommandForms.LabelForms | src/typed_gguf/cli.py:1384-1389 | otherwise the labels are the options of a choice, described by nothing, or the levels of a score, and the instructions stand before the colon |
| CommandForms.LabelsSplit | src/typed_gguf/cli.py:1384 | labels stand between bars, stripped, blank ones left out |
| Text.StripTakes | src/typed_gguf/cli.py:1384 | stripping takes the white space off both ends and nothing else |
| CommandForms.OnceMeans | src/typed_gguf/cli.py:1385 | equal options are one, in the order of first mention |
| CommandForms.AskedTwice | src/typed_gguf/cli.py:1400-1406 | an id used twice is refused |
| CommandForms.OrderOfTypes | src/typed_gguf/cli.py:1400-1409 | choices are asked first, then scores, then yes/no questions, and no question at all is refused |
| CommandLine.LabelsRoundTrip | src/typed_gguf/cli.py:1384-1385 | labels written between bars are read back |
| CommandLine.SpecRoundTrip | src/typed_gguf/cli.py:1369-1389 | a printed specification is parsed to the file's body, and that validates as the question it came from |
| CommandLine.ByKindPermutes | src/typed_gguf/cli.py:1400-1406 | sorting by type neither loses nor repeats a question |
| Asking.AskIsAFile | src/typed_gguf/cli.py:1392-1415 | any command line whose question flags print the questions, with whatever else on it and in any order: `ask` makes the body a file with the same questions gives, by type, with the last state, model and format of the line and the options of its flags, or stops for a positional, a missing state or what the state or the options refuse |
| Asking.StateLoaded | src/typed_gguf/cli.py:884-902 | a JSON file before a text, a text after an at sign from a file, any other text as it stands, no text as nothing |
| Asking.FileIsTheRequest | src/typed_gguf/cli.py:919-936 | that body is accepted as the request of exactly those questions, in choice, score, noul order; only its state, format or options can have it refused |
| Asking.FlagsPrint | src/typed_gguf/cli.py:1400-1406 | the printed flags of any questions, in any order of types, and anything that asks no question, are such a command line |
| Asking.BareMapIff | src/typed_gguf/cli.py:919-936 | a bare map of questions is read as the same map under "questions" if and only if none of them is called "questions" |
| Asking.BareMapMisread | src/typed_gguf/cli.py:923-925 | otherwise the body of that one question is taken for the whole set, or the call raises because its "options" are no dictionary |
| Stratified.Group | tools/e3d_engine_check.py:78-80 | every type's bucket holds its items in order |
| Stratified.OneRound | tools/e3d_engine_check.py:84-87 | one round takes the next item of every type that has one, and nothing once the selection is full |
| Stratified.Stratify | tools/e3d_engine_check.py:74-89 | it terminates with exactly `count` items, taken round by round (all of them when there are no more) |
| Stratified.PickedOfType | tools/e3d_engine_check.py:84-87 | what is picked of a type is the beginning of its bucket, min(rounds, size) long |
| Stratified.Fair | tools/e3d_engine_check.py:75 | no type is more than one ahead of another unless the other is exhausted |
| Stratified.PickedFrom | tools/e3d_engine_check.py:74-89 | no item is picked more often than it is there |
| Stratified.AllPicked | tools/e3d_engine_check.py:83-88 | after as many rounds as items everything is picked, which is why the loop ends |
| Quant.RecommendQuant | docs/verify_runtime_contract.py:236-258 | a GPU answer fits and nothing heavier does at any cache type, nor the same quant at an earlier one; of equally heavy candidates the first listed; CPU only when no GPU plan exists; none exactly when nothing tried fits |
| Quant.NeverFourBit | docs/verify_runtime_contract.py:151 | with this byte table a four-bit cache is never the answer |
| Quant.MoreVram | docs/verify_runtime_contract.py:236-258 | more VRAM never turns a GPU answer into a lighter quant or a later cache type |
| Quant.CostGrows | docs/verify_runtime_contract.py:226-233 | a further sequence costs a cache of the whole context, a further context token one entry in every sequence: a full one for sixteen bits, half of one for eight or four |
| Quant.BudgetMeans | docs/verify_runtime_contract.py:244-254 | a budget is the whole bytes left after the margin |
| Quant.EightBitOnCpuNeverTried | docs/verify_runtime_contract.py:253-258 | "no quant fits" is said of a host whose RAM holds one with an eight-bit cache |
| Quant.InsufficientMeansNothingFits | docs/verify_runtime_contract.py:253-258 | that answer means nothing fits at all exactly when the halved cache would not fit either |
| OracleSkips.LinesRoundTrip | tools/matrix_oracle_skips.py:102 | splitting the transcript gives back the lines that were printed |
| OracleSkips.SplitAtBreak | tools/matrix_oracle_skips.py:102 | which characters end a line, a carriage return taking a newline with it |
| OracleSkips.Oracle.Check | docs/verify_runtime_contract.py:39-45 | a failed check is listed and printed, a passed one only printed |
| OracleSkips.Oracle.Skip | docs/verify_runtime_contract.py:48-50 | a skip is listed and printed |
| OracleSkips.Oracle.Row | docs/verify_runtime_contract.py:53-55 | a row is listed and printed, its name padded |
| OracleSkips.Oracle.Finish | docs/verify_runtime_contract.py:597-609 | the table again, the counts, the failures again, and the exit status |
| OracleSkips.SampleTranscript | docs/verify_runtime_contract.py:597-609 | a short run printed line by line: a passed check, a failed one, a skip and a row |
| OracleSkips.SkipIsRead | tools/matrix_oracle_skips.py:100-103 | a skip with something to say is read back trimmed; one with a blank message is lost |
| OracleSkips.RowIsNoSkip | tools/matrix_oracle_skips.py:100-103 | a row whose name is not blank and does not begin with the prefix is never taken for a skip |
| OracleSkips.SummaryIsRead | tools/matrix_oracle_skips.py:57 | the summary pattern reads back the counts the oracle prints |
| OracleSkips.Classify | tools/matrix_oracle_skips.py:106-111 | a skip is allowed exactly when it contains a known substring |
| OracleSkips.AllowedMeans | tools/matrix_oracle_skips.py:53-60 | the two substrings that allow a skip |
| OracleSkips.ContainsMeans | tools/matrix_oracle_skips.py:108-110 | containing is being the text with something before and behind |
| OracleSkips.Examine | tools/matrix_oracle_skips.py:114-131 | the skips sorted into allowed and unexplained ones, the last summary line of any text |
| OracleSkips.SkipsAreRead | tools/matrix_oracle_skips.py:100-103 | the skips found in a transcript are those of the calls that say something, in order |
| OracleSkips.CountsAreRead | tools/matrix_oracle_skips.py:125-130 | searching backwards finds the oracle's own summary: only failures follow it |
| OracleSkips.FilterAgrees | tools/matrix_oracle_skips.py:84-97 | printer and filter agree on every run: it disagrees exactly when a skip is blank and objects to nothing exactly when every skip says something it allows |
| OracleSkips.BlankSkipDisagrees | tools/matrix_oracle_skips.py:79-81 | one blank skip makes the filter reject a sound capture |

## Left out

- llama.cpp itself, tokenizers and real logits: the network and tokenization are parameters; a decode that fails and a full context are not modelled.
- Recurrent state of hybrid models: the cells of a sequence are all a step sees.
- Order of cells within a batch: they are modelled in batch order, each token seeing the cells of its own sequence before its position.
- The texts behind the tokens: prompts, templates, cue lines and label variants.
- GgufFile.WriteSynthetic: takes the tensors as a parameter where the program has two fixed ones.
- UTF-8: strings of a GGUF file are byte sequences, other strings are character sequences, digits are the ASCII ones.
- Rounding of doubles before the six digits: probabilities and scores are exact numbers, ties go to even.
- SecondPass.CheckAfterWrite: two regions of one file; more of them only where they are independent (Splice.WrittenIsCurrent), because from three on no condition on pairs decides: one body can print another region's marker a second time and a third splice erase the copy. Markers may not overlap one another, as the program's HTML comments never do.
- Asking.AskIsAFile: reading files and casting the engine flags are parameters; descriptions cannot be said by flags.
- GgufFile.TensorIndexRoundTrip: the recursion limit of the interpreter is not modelled; the index reader nests without a cap.
- Responding.Respond: prompts and tokenization are a parameter, as are the cue verdicts; its number options are finite (Responding.AcceptedSettled says when) and the states on disk are this network's own (Sessions.ForeignState is what happens otherwise); the fit planner's and the router's changes to the options are not applied.
- Sessions.Session.LoadState: the sidecar's size and header checks, what libllama itself refuses of a file, and the removal of a refused file are not modelled; a file is its tokens and what sequence 0 saw.
- Asking.BareMapIff: a list of pairs given as options is a dictionary only with texts for keys.
- Calibration tables, escalation and routing.
- Wire.Verify: does not compare a score with the weighted mean nor a legend's length with the number of probabilities, because the client does neither.
- Quant.RecommendQuant: margins are exact numbers, so the truncation of a product is that of the exact product.
- Bootstrap.PairedDiff: takes the draws as a parameter and says nothing about their randomness.
- The Wilson interval, the Markdown tables, messages and notes, and the parts of a cell the decision does not read.
- The fit planner's ladders, downloads, serving over HTTP, subprocess drivers, `doctor`, `init`, `models` and timing.
