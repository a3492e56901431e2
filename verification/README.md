# A verified model of the repository's algorithmic core

The project models, in Dafny 4.11, the code of this repository whose correctness is argued in prose
or comments rather than being obvious from the code:

- **The NVFP4 to HiF4 quantiser** (`算法比赛/`). A HiF4 block holds 64 values: one E6M2 scale factor,
  eight level-2 and sixteen level-3 micro-exponents, and 64 signed mantissas 0, 1/4, ..., 7/4. The model
  covers the E6M2 table and candidate windows, the exact micro-exponent search, the candidate loop, row
  chunking, the two-phase variant, the Algorithm 1 baseline of the HiFloat4 paper (arXiv 2602.11287),
  GPTQ compensation for weights and activations, Hadamard rotations and Q/K smoothing under
  grouped-query attention, and the submission validator.
- **The agent's evidence list** (`adaptive_rag_agent/`): retrieval rounds merged by id and cut to the best k.
- **The paper de-duplicator** (`KnowledgePilot/`): two merging passes over mutable, possibly aliased
  records; and the overlapping text chunker.
- **The Kubernetes feature-gate ledger** (`k8s-SKILL/`): the brace scanner and the release-event rows.
- **The pipelined Redis client** (`k8s_learnProject/`): buffer, waiter queue and timeouts.

Tensors are sequences, matrices are functions of row and column, floats are `real`: all statements are
about exact arithmetic. `round` is to nearest with ties to even. Code that updates variables, buffers or
objects is modelled by methods with loops, by arrays or by classes, each proved against a specification
function; the theorems are about those functions. Random signs, orthogonal matrices, retriever results,
`Number(...)`, `normalize` and `lower` are parameters.

Modules and what they build on:

| module | holds |
|---|---|
| `Sums`, `Rounding`, `Indexing`, `Matrices`, `Options` | finite sums, rounding to a grid, reshaping arithmetic, Gram forms |
| `E6M2`, `HiF4` | the scale table, candidate windows, the block format and its error |
| `MicroExponents`, `BlockSearch` | three roundings cover the joint search over all micro-exponents |
| `Baseline`, `Doubling`, `ScaleSearch` | Algorithm 1, why doubled scales never help, the window search against both |
| `ErrorBound`, `CandidateCounts`, `WiderCounts` | an absolute bound, and exactly which candidate counts keep their promises |
| `TensorQuantizer`, `RowChunks`, `TwoPhase` | the candidate loop over tensors, chunking, the two-phase search |
| `Gptq` | error compensation and the guarded switch |
| `Hadamard`, `Attention` | Sylvester matrices, rotations, smoothing, logits |
| `Validator` | the submission check |
| `TopKMerge`, `Dedupe`, `TextChunks` | evidence list, de-duplication, chunking |
| `GoBlocks`, `FeatureLedger` | brace scanner, release events |
| `RespWire`, `RespClient`, `RespReplies` | command encoding, the client, the client against a server |

Where the code and its comments part, the model follows the code:

- "Nested windows, never worse" (算法比赛/solution/solution.py:17) and the comparison with Algorithm 1 are not true
  of every candidate count. The search never loses to Algorithm 1 exactly when the count is odd, as all call
  sites choose it (`CandidateCounts.BaselineHoldsExactly`); every even count, two and four included, has a block
  on which it loses. Windows of two to four candidates use hand-picked offsets and need not be nested in wider
  ones: the three candidates of the scan (line 454) lie within five or seven only near the ends of the table
  (`E6M2.ThreeNested`). Still, more candidates never lose to fewer for every odd count except five, because the
  missing candidates are doubles, which never help (`Doubling.DoubleNeverHelps`). Five candidates can lose to
  two, three or four, at one table position. `WiderCounts.WiderHoldsExactly` gives the exact pairs of counts.
- GPTQ is described as keeping the lower loss (算法比赛/alg/solution.py:599); the code switches only below nine
  tenths of the standard loss.
- A feature gate with two specs of one version can be reported incompatible although its default never
  moves (`FeatureLedger.RepeatedVersion`). `FeatureLedger.CompatibleDiffersWhen` says exactly when that happens.
- The Redis client resolves error replies instead of rejecting them, ignores the length of a bulk reply
  (`RespReplies.BulkReadIff`), and mishandles a bulk reply cut behind its header. It stays in step with what
  was sent exactly as long as no such cut and no unsolicited reply occurs (`RespClient.InStepExactly`);
  `RespReplies.BulkCutExactly` says for which cuts the waiter still gets the payload, and
  `RespReplies.GoodCutSpoilsNext` that even then the next command gets a wrong reply.

## Model

| member | source | states |
|---|---|---|
| E6M2.GenerateTable | 算法比赛/solution/solution.py:44-51 | the loop builds the 255 values 2^e * (1 + k/4), e from -48, in order, ending with 1.5 * 2^15 |
| E6M2.AdjacentRatio | 算法比赛/solution/solution.py:44-54 | neighbouring scales grow, by a factor of at most 5/4, also across binades |
| E6M2.StrictlyIncreasing | 算法比赛/solution/solution.py:44-54 | the table is strictly increasing, which `searchsorted` relies on |
| E6M2.TableEnds | 算法比赛/solution/solution.py:44-54 | its ends are 2^-48 and 49152, the clamp constants used elsewhere |
| E6M2.CeilingRatio | 算法比赛/solution/solution.py:109-127 | the entry at the searched position overshoots an in-range target by at most 5/4 |
| E6M2.QuantizeScaleNearest | 算法比赛/solution/solution.py:659-674 | the baseline's scale is nearest: no table entry is closer to the clamped input |
| E6M2.TiesGoDown | 算法比赛/solution/solution.py:659-674 | of two entries equally close the lower one is taken |
| E6M2.WindowBounds | 算法比赛/solution/solution.py:109-127 | from five candidates on, the window is a contiguous range given in closed form, clamping included (iff) |
| E6M2.NeighbourInWindow | 算法比赛/solution/solution.py:109-127 | for every candidate count, exactly which neighbours of a position are candidates: all for odd counts; even counts miss certain entries, given in closed form |
| E6M2.WindowsNested | 算法比赛/solution/solution.py:109-127 | for all counts 2 <= m <= n and every position, exactly when the m-candidate window is contained in the n-candidate one |
| E6M2.ThreeNested | 算法比赛/solution/solution.py:109-127 | three candidates are contained in five exactly at the last table positions, in seven exactly at the first and the last ones |
| E6M2.CandidatesNested | 算法比赛/solution/solution.py:109-127 | wherever the windows nest, so do the candidate scales, for every target and all counts |
| E6M2.FourUpDoubles | 算法比赛/solution/solution.py:44-54 | the entry four up is twice the scale, also across binades: the offset +4 is a doubled scale |
| E6M2.SupersededPositions | 算法比赛/solution/solution.py:109-127 | for an odd count other than five, every candidate of two to four is a candidate, or the double of one at or above the target |
| E6M2.NeighbourInShifted | 算法比赛/solution/1solution.py:84-106 | the shifted window of the two-phase code contains both neighbours from three candidates on |
| E6M2.ShiftedBounds | 算法比赛/solution/1solution.py:84-106 | the shifted window in closed form, clamping at both ends of the table included (iff) |
| Rounding.RoundTies | 算法比赛/solution/solution.py:159-172 | a half is rounded to the even neighbour |
| MicroExponents.GroupAttained | 算法比赛/solution/solution.py:174-185 | the error kept for a group is the error of the exponents chosen for it |
| MicroExponents.GroupOptimal | 算法比赛/solution/solution.py:174-185 | and no lv2 with any two lv3 does better in that group |
| MicroExponents.TiesStaySmall | 算法比赛/solution/solution.py:174-185 | lv2 = 2 is chosen only when every choice with lv2 = 1 loses strictly more |
| MicroExponents.SubTiesStaySmall | 算法比赛/solution/solution.py:174-185 | lv3 = 2 is chosen only when lv3 = 1 loses strictly more |
| MicroExponents.ChoiceOptimal | 算法比赛/solution/solution.py:143-198 | over the block, the chosen exponents lose no more than any choice of eight lv2 and sixteen lv3 whose elements are no better rounded |
| BlockSearch.EncodeWellFormed | 算法比赛/solution/solution.py:187-201 | whatever exponents are chosen, signs, mantissas and exponents are legal HiF4 |
| BlockSearch.EncodeDequant | 算法比赛/solution/solution.py:80-83 | the emitted parameters dequantise to the rounded values whose error was compared |
| BlockSearch.QuantizeErr | 算法比赛/solution/solution.py:203-208 | `block_mse` times its positive norm is the weighted squared error of the emitted block |
| BlockSearch.NormIsTotalWeight | 算法比赛/solution/solution.py:203-206 | that norm is the total weight of the block, but for the floor of 1e-12 |
| BlockSearch.ElementOptimal | 算法比赛/solution/solution.py:159-172 | rounding is optimal per element: no legal mantissa and sign gets closer at that scale |
| BlockSearch.SearchIsOptimal | 算法比赛/solution/solution.py:143-208 | three roundings are exact: no legal encoding with the same scale, over all lv2, lv3, signs and mantissas, has a smaller weighted error |
| Baseline.StandardWellFormed | 算法比赛/solution/solution.py:692-740 | the greedy baseline emits a legal encoding, zero blocks included |
| Baseline.StandardScale | 算法比赛/solution/solution.py:692-712 | its scale is a table entry and equals the divisor used inside |
| Baseline.StandardExponents | 算法比赛/solution/solution.py:709-724 | lv2 is 2 exactly when an element of the group reaches 4 sf; lv3 is 2 exactly when one of the sub-group reaches 2 sf lv2 |
| Baseline.StandardDecodes | 算法比赛/solution/solution.py:692-740 | every element of magnitude at most 7 sf decodes within a quarter of sf lv2 lv3: none is clipped |
| Baseline.Lv2Means | 算法比赛/solution/solution.py:711-714 | the level-2 threshold at any positive scale, as an existence statement over the eight elements (iff) |
| Baseline.Lv3Means | 算法比赛/solution/solution.py:716-720 | the level-3 threshold at any table scale, over the four elements (iff) |
| Baseline.ScaleIndexIsNeighbour | 算法比赛/solution/solution.py:659-674 | it is a neighbour of the position the window search starts from, beyond the table ends too |
| Doubling.DoubleNeverHelps | 算法比赛/solution/solution.py:143-208 | a scale of at least max/7 is never beaten by its double: no legal encoding at the doubled scale loses less |
| ScaleSearch.BestIsLeast | 算法比赛/solution/solution.py:259-288 | the kept candidate is the first of least `block_mse` in the window |
| ScaleSearch.SearchBlockOptimal | 算法比赛/solution/solution.py:231-306 | the result beats every legal encoding whose scale is in the window |
| ScaleSearch.SearchBlockWellFormed | 算法比赛/solution/solution.py:231-306 | the result is legal and its scale is one of the candidates, a table entry |
| ScaleSearch.BaselineInWindow | 算法比赛/solution/solution.py:109-127 | for every candidate count, exactly when the baseline's scale is a candidate; for odd counts from three on it always is |
| ScaleSearch.NeverWorseThanBaseline | 算法比赛/solution/solution.py:143-306 | weighted or not, the searched block never loses more than Algorithm 1, for all odd counts from three on, and for even counts wherever they reach its scale |
| ScaleSearch.WiderIsNeverWorse | 算法比赛/solution/solution.py:259-288 | n candidates never lose to m <= n candidates, from two on, wherever they supersede them: windows nest, or n is odd and what is missing are doubles |
| CandidateCounts.BaselineIsExact | 算法比赛/solution/solution.py:692-740 | Algorithm 1 encodes a block of seven times any table entry exactly, at that entry |
| CandidateCounts.EvenCountLoses | 算法比赛/solution/solution.py:109-127 | every even count from six on loses on seven times the largest entry |
| CandidateCounts.FourLose | 算法比赛/solution/solution.py:109-127 | four candidates lose on seven times the last entry but one |
| CandidateCounts.TwoLose | 算法比赛/solution/solution.py:109-127 | two candidates lose on seven times the smallest entry |
| CandidateCounts.BaselineHoldsExactly | 算法比赛/solution/solution.py:109-306 | over all blocks and weights: the search never loses to Algorithm 1 exactly when the count is odd |
| WiderCounts.FiveLose | 算法比赛/solution/solution.py:109-127 | five candidates lose on a block that two, three and four encode exactly |
| WiderCounts.WiderHoldsExactly | 算法比赛/solution/solution.py:109-306 | over all blocks and weights: n candidates never lose to m <= n exactly when m = n, or n is odd and not five, or both are even and m is at least six |
| ErrorBound.CeilingInWindow | 算法比赛/solution/solution.py:109-127 | odd windows from three candidates on contain a scale between the target and 5/4 of it |
| ErrorBound.WeightedErrorBound | 算法比赛/solution/solution.py:143-306 | for odd counts from three on, the weighted error is at most that of a uniform element error of (5/56 max)^2 |
| ErrorBound.UniformErrorBound | 算法比赛/solution/solution.py:143-306 | for 7 * 2^-48 <= max <= 7 * 49152 and odd counts from three on, the squared error is at most 25/49 max^2 |
| TensorQuantizer.Update | 算法比赛/solution/solution.py:272-295 | all five tensors of a block are replaced together, of exactly the blocks that improve; skipping when none improves changes nothing |
| TensorQuantizer.KeptStep | 算法比赛/solution/solution.py:272-295 | one more candidate keeps the invariant "parameters of the first least candidate" |
| TensorQuantizer.CandidateLoop | 算法比赛/solution/solution.py:259-306 | for any errors and encodings, every block ends with all tensors of its first candidate of least error |
| TensorQuantizer.QuantizeImpl | 算法比赛/solution/solution.py:231-306 | a whole tensor: every block is its own window search |
| RowChunks.QuantizeMatrix | 算法比赛/solution/solution.py:231-306 | every 64 channels of every row become the block that its window search returns, under the weights of its row and channels |
| RowChunks.BlockEntry | 算法比赛/solution/solution.py:231-237 | block i * nb + c / 64 holds at c % 64 the entry (i, c) of the matrix |
| RowChunks.WeightEntry | 算法比赛/solution/solution.py:239-253 | and is given the weight of (i, c) there, for absent, per-channel, per-row and broadcast importance |
| RowChunks.BlockErrsSum | 算法比赛/solution/solution.py:231-306 | the block errors add up to the weighted squared error over all entries of the matrix |
| RowChunks.MatrixNeverWorse | 算法比赛/solution/solution.py:143-306 | for odd counts from three on, the error of the matrix is never above that of Algorithm 1 |
| RowChunks.ChunkBlock | 算法比赛/solution/solution.py:220-226 | a chunk's block and its weights are those of the full matrix, for absent, per-channel, per-row and broadcast importance |
| RowChunks.ChunkAppends | 算法比赛/solution/solution.py:220-228 | concatenating chunk results extends the result for the rows before |
| RowChunks.Quantize | 算法比赛/solution/solution.py:211-228 | the matrix error of the result is the sum of its block errors and, for odd counts from three on, never above that of Algorithm 1, whatever the chunk size |
| RowChunks.QuantizeChunks | 算法比赛/solution/solution.py:211-228 | any chunk size from one on gives exactly the unchunked result |
| TwoPhase.ScoreLoop | 算法比赛/solution/1solution.py:253-282 | phase 1 keeps for every block the first candidate of least score, and that score |
| TwoPhase.ExponentsMatchDivisor | 算法比赛/solution/1solution.py:304-324 | lv2 * lv3 always equals the divisor chosen for the sub-group |
| TwoPhase.EmittedErrIsScore | 算法比赛/solution/1solution.py:284-345 | the parameters rebuilt in phase 2 have exactly the error found in phase 1, zero blocks included |
| TwoPhase.ScoreIsOptimal | 算法比赛/solution/1solution.py:257-278 | no legal encoding with the same scale beats the score |
| TwoPhase.SameErrAsSinglePass | 算法比赛/solution/1solution.py:253-330 | at equal scale the error equals that of the single-pass search, zero blocks included |
| TwoPhase.CoreOptimal | 算法比赛/solution/1solution.py:204-345 | the result beats every legal encoding with a scale from its window |
| TwoPhase.CoreWellFormed | 算法比赛/solution/1solution.py:284-345 | the result is legal, with a scale from the window; a zero block gets the smallest scale and zero signs |
| TwoPhase.CoreNeverWorseThanBaseline | 算法比赛/solution/1solution.py:204-345 | and Algorithm 1, for three to 255 candidates of either parity |
| TwoPhase.QuantizeCore | 算法比赛/solution/1solution.py:204-345 | over all blocks, `best_err` is the error of the returned parameters |
| Matrices.CrossSum | 算法比赛/alg/solution.py:592-603 | a Gram matrix of a product of factors, summed entrywise |
| Matrices.RankOneLoss | 算法比赛/alg/solution.py:592-603 | one calibration row: the Gram form is the squared output error |
| Matrices.GramLossIsOutputError | 算法比赛/alg/solution.py:592-603 | the sum of G o (E^T E) equals the squared output error over all rows, for every error and every number of rows |
| Gptq.ChargeAhead | 算法比赛/alg/solution.py:649-654 | in place: the error of a column is charged to the later columns only, in proportion |
| Gptq.Compensate | 算法比赛/alg/solution.py:642-654 | the in-place loop computes the recursively specified compensated values |
| Gptq.WorkClosedForm | 算法比赛/alg/solution.py:642-654 | a working column is the original minus the shares of all earlier rounding errors |
| Gptq.DampMeans | 算法比赛/alg/solution.py:637-640 | the damping is a hundredth of the mean of the Gram diagonal |
| Gptq.ChargedByGram | 算法比赛/alg/solution.py:642-654 | in the entries of the Gram matrix: column j moves a later column k by its rounding error times G(j, k) over the damped, floored G(j, j), and no other column |
| Gptq.FeedForward | 算法比赛/alg/solution.py:642-654 | the final error of a column is its rounding error minus what it was charged |
| Gptq.ReencodeExact | 算法比赛/alg/solution.py:667-670 | re-rounding is exact: emitted parameters dequantise to the compensated values |
| Gptq.EmittedLoss | 算法比赛/alg/solution.py:656-670 | so the loss of the emitted parameters is the loss that was compared |
| Gptq.CompensateRows | 算法比赛/alg/solution.py:642-654 | the same for every row of a block |
| Gptq.GptqBlock | 算法比赛/alg/solution.py:637-678 | a block is switched exactly when its loss falls below nine tenths, then has that loss; scales never change |
| Gptq.ApplyGptq | 算法比赛/alg/solution.py:637-684 | the same for every block of a tensor; unswitched blocks are untouched |
| Gptq.CalibrationGram | 算法比赛/alg/solution.py:608-618 | batch-wise accumulation gives the averaged Gram matrix of all calibration rows, entry by entry |
| Gptq.MeanGramEntry | 算法比赛/alg/solution.py:608-618 | times the number of rows, entry (j, k) of that matrix is the sum over the rows of their entries j times k |
| Gptq.WeightLossIsOutputError | 算法比赛/alg/solution.py:592-618 | the compared loss is the mean squared output error of the block over the calibration rows |
| Gptq.ActivationLossIsOutputError | 算法比赛/alg/solution.py:687-696 | against the weight Gram, it is the squared output error of the activation block |
| Gptq.NeverWorse | 算法比赛/alg/solution.py:656-684 | for any matrix with the entries of an averaged Gram matrix, a block is kept or loses more than a tenth of its loss, which stays non-negative |
| Gptq.OutputNeverWorse | 算法比赛/alg/solution.py:592-684 | so its squared output error over the calibration rows stays or drops by more than a tenth, with the scales kept |
| Gptq.ActivationNeverWorse | 算法比赛/alg/solution.py:699-766 | activation compensation never increases the output error of a block |
| Gptq.TotalNeverWorse | 算法比赛/alg/solution.py:656-684 | the output error summed over all blocks never rises |
| Gptq.CalibratedGptq | 算法比赛/alg/solution.py:592-684 | calibration loop, compensation and switch together: every block keeps its scales and is kept or loses more than a tenth of its output error over the calibration rows, and the total never rises |
| Hadamard.DoubledOrthogonal | 算法比赛/solution/1solution.py:113-121 | one doubling keeps H * H^T a multiple of I and multiplies the factor by 2 s^2 |
| Hadamard.DoubledWalsh | 算法比赛/solution/1solution.py:113-121 | and the entry (i, j) the sign of the parity of the binary digits that i and j share |
| Hadamard.WalshIsSymmetric | 算法比赛/solution/1solution.py:113-121 | that sign is positive along row 0 and column 0, and symmetric |
| Hadamard.OnePow2PerOctave | 算法比赛/solution/1solution.py:113-121 | the loop's size is n itself when n is a power of two |
| Hadamard.HadamardMatrix | 算法比赛/solution/1solution.py:113-121 | the loop ends with H * H^T = n * I for every power of two n, and with the Walsh signs as entries |
| Hadamard.NormalizedSylvester | 算法比赛/solution/solution.py:57-63 | the scaled loop ends with H * H^T = I, its entries one constant with the Walsh signs |
| Hadamard.FlippedRowsOrthogonal | 算法比赛/solution/1solution.py:124-131 | random row signs and the final factor keep it orthogonal |
| Hadamard.MakeRandomHadamard | 算法比赛/solution/1solution.py:124-131 | loop, random signs and 1/sqrt(n) together give an orthonormal matrix, whose entries are given |
| Hadamard.FlippedColumnsOrthogonal | 算法比赛/solution/solution.py:66-70 | random column signs change no inner product of rows |
| Hadamard.FlippedColumnEntry | 算法比赛/solution/solution.py:66-70 | each entry is multiplied with the sign of its column |
| Hadamard.RotationPreservesDot | 算法比赛/solution/solution.py:130-136 | rotating two vectors multiplies their inner product by the factor of H * H^T |
| Attention.ClampedIsPositive | 算法比赛/alg/solution.py:477-478 | the clamped smoothing diagonal lies within [1e-4, 1e4] for all statistics and keeps what lies there |
| Attention.SmoothingKeepsLogits | 算法比赛/alg/solution.py:450-483 | dividing Q and multiplying K by any positive diagonal keeps every logit of every query head |
| Attention.SmoothedEntries | 算法比赛/alg/solution.py:477-483 | entry r of query head h is divided by, and of a key head multiplied with, entry r of the diagonal of the key head it reads |
| Attention.RotationKeepsLogits | 算法比赛/solution/1solution.py:155-179 | per-(key head, block) rotation multiplies every logit by the same constant, under head grouping |
| Attention.CalibrateRotations | 算法比赛/solution/1solution.py:604-614 | one orthonormal rotation per key head, whose entries are the Walsh signs with the row signs of its head |
| Attention.CalibratedEntry | 算法比赛/solution/1solution.py:155-179 | every 64-channel block of a query head is multiplied with the rotation of the key head it reads |
| Attention.CalibratedLogits | 算法比赛/solution/1solution.py:155-179 | with them every logit of every query head is exactly unchanged |
| Attention.HadamardKeepsLogits | 算法比赛/alg/solution.py:132-142 | so does one rotation for all blocks |
| Attention.AttentionPathKeepsLogits | 算法比赛/alg/solution.py:1043-1049 | smoothing followed by rotation keeps every logit, up to that constant |
| Attention.LinearPathKeepsOutput | 算法比赛/alg/solution.py:820-825 | the linear layer: smoothing and rotation of activations and weights keep every output |
| Validator.ScaleCheckIsTable | 算法比赛/check/example/self_check.py:173-199 | the three scale checks accept a value exactly when it is a table entry |
| Validator.FloorLog2Bounds | 算法比赛/check/example/self_check.py:188-189 | floor(log2 x) brackets x between powers of two |
| Validator.FloorLog2Unique | 算法比赛/check/example/self_check.py:188-189 | and is determined by that |
| Validator.NumelAgrees | 算法比赛/check/example/self_check.py:68-86 | parameters of the expected shapes always broadcast to as many values as the tensor has |
| Validator.BroadcastMeetsDequant | 算法比赛/check/example/self_check.py:68-86 | broadcasting the expected shapes hands every element the five parameters from which it is decoded |
| Validator.CheckShapes | 算法比赛/check/example/self_check.py:104-137 | no shape error exactly when all five parameters are there with the expected shape |
| Validator.CheckScales | 算法比赛/check/example/self_check.py:173-199 | no scale error exactly when all values are table entries |
| Validator.CheckMantissas | 算法比赛/check/example/self_check.py:225-238 | no mantissa error exactly when all values are quarters between 0 and 7/4 |
| Validator.Validate | 算法比赛/check/example/self_check.py:89-240 | no error at all exactly for acceptable parameters |
| Validator.LegalBlocksAccepted | 算法比赛/check/example/self_check.py:89-240 | legal blocks with table scales are acceptable, for every shape of whole blocks |
| Validator.TensorsConsistent | 算法比赛/check/example/self_check.py:68-86 | one encoding per 64 channels fills the five expected shapes exactly |
| Validator.QuantizerOutputAccepted | 算法比赛/check/example/self_check.py:89-240 | every output of the window search passes all checks |
| TopKMerge.SortedMembers | adaptive_rag_agent/src/agent.py:150 | sorting keeps exactly the documents |
| TopKMerge.SortedDescending | adaptive_rag_agent/src/agent.py:150 | in descending order of score |
| TopKMerge.SortedRanked | adaptive_rag_agent/src/agent.py:150 | the sort is stable: equal scores keep the order in which they were listed |
| TopKMerge.Merge | adaptive_rag_agent/src/agent.py:144-150 | distinct ids, best score per id, above any score as many documents as there are ids, up to k; equal scores stay in the order in which their ids were first listed, and an id is cut only when k ids are ahead of it |
| TopKMerge.CutCountAgrees | adaptive_rag_agent/src/agent.py:144-150 | what earlier cuts dropped cannot be missed by a later cut of at most that size |
| TopKMerge.MergedSelection | adaptive_rag_agent/src/agent.py:199-203 | merging a round into a best-cap selection gives a best-k selection of everything retrieved |
| TopKMerge.ExactScore | adaptive_rag_agent/src/agent.py:144-150 | a kept document's score is the best one retrieved for its id in any round |
| TopKMerge.CountsDetermineScores | adaptive_rag_agent/src/agent.py:150 | counts above all thresholds determine the score sequence |
| TopKMerge.Answer | adaptive_rag_agent/src/agent.py:153-209 | after any number of rounds the list is a best-k selection of everything retrieved, every document with the best score of its id; ids are unique, rounds <= 2 + max_iters |
| TopKMerge.SelectionScores | adaptive_rag_agent/src/agent.py:153-209 | its scores are the top k scores of the per-id best over all rounds |
| TopKMerge.NothingCut | adaptive_rag_agent/src/agent.py:153-209 | where everything fits, every id is kept |
| Dedupe.Paper.Absorb | KnowledgePilot/app/services/paper_service.py:156-164 | in place, also when both records are one object: gaps are filled, counts maximised, arXiv takes no journal |
| Dedupe.AbsorbingMeans | KnowledgePilot/app/services/paper_service.py:156-164 | a filled field of the winner stays, an empty one takes that of the loser, an arXiv record gains no journal |
| Dedupe.SourceOrder | KnowledgePilot/app/services/paper_service.py:191-199 | arXiv is preferred to OpenAlex, that to Crossref, that to any other source |
| Dedupe.SameWorkIsKey | KnowledgePilot/app/services/paper_service.py:146-154 | the first pass groups exactly the records whose DOIs agree up to case, with the normalised title in place of a missing or empty DOI |
| Dedupe.BeatsIsRank | KnowledgePilot/app/services/paper_service.py:191-199 | preference is by source, then abstract, then DOI, then citations |
| Dedupe.AbsorbingJoins | KnowledgePilot/app/services/paper_service.py:191-199 | the preferred of two records, having absorbed the other, has the greater citation count and source priority and the union of filled fields |
| Dedupe.MergePair | KnowledgePilot/app/services/paper_service.py:155-165 | the preferred record wins, absorbs the other and becomes worth both; no other record changes and no filled field is lost |
| Dedupe.JoinOfBounds | KnowledgePilot/app/services/paper_service.py:146-165 | the joint worth of a group is at least each member's |
| Dedupe.JoinOfIsLeast | KnowledgePilot/app/services/paper_service.py:146-165 | and the least such |
| Dedupe.SameJoin | KnowledgePilot/app/services/paper_service.py:146-165 | an object that occurs again adds nothing |
| Dedupe.Enter | KnowledgePilot/app/services/paper_service.py:147-165 | one iteration keeps the invariant of a pass, for new, repeated, aliased and keyless records |
| Dedupe.MergeBy | KnowledgePilot/app/services/paper_service.py:146-188 | a pass keeps one record per key in first-occurrence order, each with the joint worth of its group; separate records are returned unchanged |
| Dedupe.TwoPassLeast | KnowledgePilot/app/services/paper_service.py:145-188 | joining joint worths gives the least worth covering everything absorbed by both passes |
| Dedupe.Deduplicate | KnowledgePilot/app/services/paper_service.py:145-188 | no two outputs share a DOI up to case or a title; two records that do so in the first pass are absorbed by the same output, those that do not stay apart in it; citation count, source priority and filled fields are exactly the maxima over what an output absorbed; no filled field is overwritten |
| Dedupe.DeduplicateTwice | KnowledgePilot/app/services/paper_service.py:145-188 | a second run returns the same records in the same order and changes no field |
| Dedupe.AbsorbedOnce | KnowledgePilot/app/services/paper_service.py:145-188 | with non-empty keys and titles, every input is absorbed by exactly one output |
| TextChunks.ChunkText | KnowledgePilot/app/services/fulltext_service.py:84-96 | the loop produces the specified chunks |
| TextChunks.ChunksRejoin | KnowledgePilot/app/services/fulltext_service.py:84-96 | without the repeated parts the chunks join to the text |
| TextChunks.ChunksOverlap | KnowledgePilot/app/services/fulltext_service.py:84-96 | all chunks but the last are full, and neighbours share exactly the overlap |
| TextChunks.EndsExactlyWhen | KnowledgePilot/app/services/fulltext_service.py:90-95 | the loop ends exactly when overlap < size or one chunk suffices |
| GoBlocks.Balanced | k8s-SKILL/SKILL/scripts/extract_feature_changes.py:24-46 | the flag-and-depth loop computes the specified scan; it raises when the block is not closed |
| GoBlocks.PieceIsNeutral | k8s-SKILL/SKILL/scripts/extract_feature_changes.py:24-46 | well-nested source leaves depth and string state as they were, whatever its string literals hold |
| GoBlocks.BlockRecovered | k8s-SKILL/SKILL/scripts/extract_feature_changes.py:24-46 | exactly the body of a well-nested block is returned, and the position behind it |
| GoBlocks.Items | k8s-SKILL/SKILL/scripts/extract_feature_changes.py:88-109 | the cursor loop computes the specified list of blocks |
| GoBlocks.ItemsRecovered | k8s-SKILL/SKILL/scripts/extract_feature_changes.py:88-109 | every block of a rendered list is recovered, in order |
| FeatureLedger.StatesAt | k8s-SKILL/SKILL/scripts/extract_feature_changes.py:49-57 | every gate gets the state of its last spec not later than the target, others none |
| FeatureLedger.ReleaseEvents | k8s-SKILL/SKILL/scripts/extract_feature_changes.py:177-243 | one row per gate, in order, exactly for the gates with a spec in the range; the members below say what stands in a row |
| FeatureLedger.RowReplays | k8s-SKILL/SKILL/scripts/extract_feature_changes.py:187-242 | a row determines the gate's effective state at every version of the range |
| FeatureLedger.RowEndPoints | k8s-SKILL/SKILL/scripts/extract_feature_changes.py:187-196 | before and after are the effective states around the range; added exactly when the gate did not exist before |
| FeatureLedger.ChangeTypeMeans | k8s-SKILL/SKILL/scripts/extract_feature_changes.py:187-196 | added exactly when no spec precedes the range, deprecated exactly when one does and a spec of the history within the range is in stage Deprecated, changed otherwise |
| FeatureLedger.ArrowsMean | k8s-SKILL/SKILL/scripts/extract_feature_changes.py:228-242 | prior version and both arrows name the state in effect before the range, or the first one in it for a new gate, and the state in effect at its end |
| FeatureLedger.KindsMean | k8s-SKILL/SKILL/scripts/extract_feature_changes.py:216-226 | new, stage and default changes are reported exactly when the effective states differ, a lock change exactly when a spec in the range names one |
| FeatureLedger.VersionOrder | k8s-SKILL/SKILL/scripts/extract_feature_changes.py:49-57 | versions compare by major and then minor number |
| FeatureLedger.LockMeaning | k8s-SKILL/SKILL/scripts/extract_feature_changes.py:198-201 | a lock change is reported exactly when the range names a lock, as true exactly when one of them locks |
| FeatureLedger.CompatibleMeansEverySpec | k8s-SKILL/SKILL/scripts/extract_feature_changes.py:203-214 | compatible exactly when every spec in the range keeps the default in effect before it |
| FeatureLedger.ConstantMeansEffectiveSpecs | k8s-SKILL/SKILL/scripts/extract_feature_changes.py:203-214 | for every history, the effective default is constant over the range exactly when every spec that is the last of its version keeps it |
| FeatureLedger.CompatibleExactly | k8s-SKILL/SKILL/scripts/extract_feature_changes.py:203-214 | for every history: compatible exactly when the effective default is constant and no hidden spec deviates |
| FeatureLedger.CompatibleDiffersWhen | k8s-SKILL/SKILL/scripts/extract_feature_changes.py:203-214 | the two notions differ exactly when a hidden spec deviates while all effective ones keep the default |
| FeatureLedger.CompatibleIff | k8s-SKILL/SKILL/scripts/extract_feature_changes.py:203-214 | for strictly increasing versions: compatible exactly when the effective default is constant from before the range to its end |
| FeatureLedger.RepeatedVersion | k8s-SKILL/SKILL/scripts/extract_feature_changes.py:203-214 | a history with a repeated version where the converse fails |
| FeatureLedger.ReportedChangeIsIncompatible | k8s-SKILL/SKILL/scripts/extract_feature_changes.py:216-226 | a row that reports a changed default is never compatible |
| FeatureLedger.NoChangeGoesUnseen | k8s-SKILL/SKILL/scripts/extract_feature_changes.py:177-190 | a gate whose effective state differs between two versions of the range, or from before it, has a row |
| FeatureLedger.EndpointDifferences | k8s-SKILL/SKILL/scripts/extract_feature_changes.py:246-260 | a row exactly for the gates whose states differ; carrying the rows out turns the old states into the new |
| FeatureLedger.PatchReachesNew | k8s-SKILL/SKILL/scripts/extract_feature_changes.py:246-260 | complete and correct differences patch one release to the other |
| RespWire.CommandRead | k8s_learnProject/app/server.js:81-83 | a server reads back exactly the arguments of a command, whatever bytes they hold, and stops at its end |
| RespClient.Payload | k8s_learnProject/app/server.js:81-83 | the payload loop builds that encoding |
| RespClient.TinyRedis.Cmd | k8s_learnProject/app/server.js:78-88 | connected: queued, pending and written; otherwise rejected and not queued |
| RespClient.TinyRedis.ConsumeLine | k8s_learnProject/app/server.js:57-70 | one line taken off the buffer settles the first waiter, if any |
| RespClient.TinyRedis.OnData | k8s_learnProject/app/server.js:53-72 | the loop drains the buffer as specified |
| RespClient.TinyRedis.OnConnect | k8s_learnProject/app/server.js:52 | sets the flag and nothing else |
| RespClient.TinyRedis.OnError | k8s_learnProject/app/server.js:51 | clears it; queue, buffer and promises stay |
| RespClient.TinyRedis.OnTimeout | k8s_learnProject/app/server.js:86 | a timeout rejects a pending promise, leaves a settled one, and does not dequeue |
| RespClient.ReadingResumes | k8s_learnProject/app/server.js:53-72 | the reference reading may stop after any prefix of the stream and go on later |
| RespClient.DrainDelivers | k8s_learnProject/app/server.js:53-72 | a data event hands out exactly the replies the reference reads and keeps the rest |
| RespClient.RunInStep | k8s_learnProject/app/server.js:36-90 | after every orderly run the client agrees with a ledger that has no buffer and no queue |
| RespClient.InStepExactly | k8s_learnProject/app/server.js:36-90 | it agrees after every prefix of a run exactly when no command is answered before it is sent and no chunk ends between a bulk header and the end of its payload |
| RespReplies.CommandGetsItsReply | k8s_learnProject/app/server.js:53-88 | under all fragmentations and timeouts, the i-th command sent resolves only with the i-th reply of the unfragmented stream |
| RespReplies.FragmentationIrrelevant | k8s_learnProject/app/server.js:53-88 | two ways to cut one stream give the same outcomes |
| RespReplies.ServerRead | k8s_learnProject/app/server.js:56-70 | reading recovers every reply a server sends, if its texts hold no line break |
| RespReplies.LineRepliesInOrder | k8s_learnProject/app/server.js:53-88 | for integer, status, error and null replies, the i-th command sent gets the server's i-th reply or its own timeout, wherever the stream is cut |
| RespReplies.HeaderSign | k8s_learnProject/app/server.js:63-69 | of the length in a bulk header only the sign is used, whatever `Number` makes of it: negative gives null, anything else the next line |
| RespReplies.StarvedMeans | k8s_learnProject/app/server.js:56-69 | a line break without a complete reply means a bulk header and an unfinished payload, nothing else |
| RespReplies.BulkReadIff | k8s_learnProject/app/server.js:63-69 | a bulk string is read back exactly when it holds no line break |
| RespReplies.BulkCutExactly | k8s_learnProject/app/server.js:63-69 | a bulk reply cut behind its header reaches its own waiter exactly when all of the payload and its CR had arrived, or the payload is empty and nothing had |
| RespReplies.ResidueGoesToNext | k8s_learnProject/app/server.js:63-69 | whatever the cut, what was left of the payload is read as the reply to the next command |
| RespReplies.GoodCutSpoilsNext | k8s_learnProject/app/server.js:63-69 | even when its own command got all of it, the next command gets the payload without its first character |

## Left out

- Floating-point rounding, dtype conversion, NaN and infinities; the random generators, QR-based orthogonal matrices and softmax.
- Optimality of GPTQ compensation itself: the code decides by comparison only. The K-side Gram rescaling under balancing (算法比赛/alg/solution.py:1002-1010).
- Selection of smoothing strength and attention mode by proxy error, the importance statistics, and the adaptive candidate and chunk sizes: heuristics without a stated guarantee.
- `_quantize_e4m3`, `_quantize_e2m1` and NVFP4 dequantisation.
- Tensors of rank above two are treated as rows; importance of a shape that broadcasting refuses, one-dimensional input with importance, and fewer than two candidates (all of which raise) are not modelled.
- RowChunks.ChunkBlock: concerns matrices of at least two rows, since a single row is never chunked.
- Validator: values are finite reals, so the checks for non-finite, complex or non-tensor parameters have no counterpart; the group checkers are left out.
- TopKMerge.Answer: what the retriever returns is a parameter, assumed distinct by id, best first and at most k, as its rank fusion delivers it; routing, bridge extraction, confidence and answer extraction are parameters or left out.
- Dedupe.Deduplicate: `normalize` and `lower` are parameters; which of several absorbed texts fills an empty field is stated by `Dedupe.AbsorbingMeans` for one merge only, and the journal field takes no part in the maxima.
- TextChunks.ChunkText: starts from the text with white space collapsed; negative sizes and overlaps are not modelled.
- GoBlocks.Balanced: the start position is a position of the text; the regular expressions around it are left out.
- FeatureLedger.ReleaseEvents: the order of the gates is given by the caller; sorting the names is left out, as are identifiers, gate descriptions and the JSON output.
- RespClient.RunInStep: text is bytes, so characters split over chunks are left out, as are the connection timeout and reconnecting.
- RespReplies.LineRepliesInOrder: assumes that `Number` reads the integers occurring in the replies exactly, which a double does up to 2^53.
- The Worker-Judge orchestrator, prompts and model calls, HTTP clients, databases, user interfaces, workbook output, experiment scripts, `check_attention_group`, the trees under `秋招Tips/` and the vendored code.
