# Temporal knowledge-graph embedding model, in Dafny

This project models the core of `KGEModel` (`codes/model.py`), a PyTorch model. It scores
(head, relation, tail) triples of a temporal knowledge graph, trains them against negative
samples, and evaluates them with filtered rank metrics. The model covers:

- **Construction** (`Config`): the closed set of seven model names and the width-flag rules
  for RotatE and ComplEx. It also derives the entity, relation and time-token widths, sets
  `embedding_range = (gamma + 2) / hidden_dim` and fixes the 32-row time-token table.
- **Scorers** (`Scorers`): TransE, TATransE, DistMult, TADistMult and ComplEx, as pure
  functions over exact reals. The recurrent encoder of `get_rseq` is an uninterpreted total
  function. It is given the relation row followed by the example's time rows. Each scorer is
  tied to a reference definition: translation distance, trilinear product, or the real part
  of the Hermitian product. The head-batch and tail-batch parenthesisations are proved equal.
- **Forward pass** (`Forward`):
  - the mode dispatch;
  - the gathers from the embedding tables, including the gather from flattened negative ids
    and the view back to `[batch, N]`;
  - the per-example time-token loop, written as a method with loop invariants;
  - the call of the configured scorer.
- **Ranking** (`Ranking`): the sort is described by what it returns, a permutation of all
  entity ids whose scores do not increase. The rank is one plus the true entity's position,
  and the `assert ranking.size(0) == 1` of the source is proved to hold in a permutation
  whenever the true id is an entity id.
- **Evaluation** (`Evaluation`): the per-example metrics (MRR, MR, HITS@1/3/10). It models
  the row loop of a batch, the loop over batches and over the head and tail loaders, and
  the final unweighted means. These are methods proved equal to functions, with lemmas
  bounding the result.
- **Loss assembly** (`Training`): the negative loss, with or without self-adversarial
  weighting, and the positive loss. Each is averaged either uniformly or with subsampling
  weights. The module also models the optional L3 regularization and the returned log.

Exact reals stand in for float32 throughout: no rounding, overflow, infinity or NaN is
modelled, and the equalities proved hold over the reals only.

Points where the code behaves in a way worth knowing, and how the model treats each:

- `forward` calls every scorer with five arguments (`codes/model.py:221`). Only TATransE and
  TADistMult take five. With any other configured model, `forward` fails
  (`ArgumentCount`, the source's TypeError). The other three scorers are still modelled
  with their own four-argument signatures and proved correct on their own.
- In head-batch and tail-batch mode the gathered candidates are viewed as
  `[batch_size, negative_sample_size, -1]` (`codes/model.py:137`, `:205`). That view cannot
  infer its last dimension when `batch_size * negative_sample_size == 0`, so a batch mode
  fails on an empty candidate grid (`EmptyView`). In head-batch this happens before any
  other id is read.
- The temporal scorers broadcast the encoded relation against the entity rows
  (`codes/model.py:230-233`, `:250-253`): a width-1 encoding is repeated across the entity
  width, and width-1 entity rows across the encoding's width. Other unequal widths fail
  (`ShapeMismatch`).
- `test_step` does not produce metrics as written. The call
  `model((positive_sample, negative_sample), mode)` at `codes/model.py:469` passes the
  tuple as `sample_triple` and the mode string as `sample_tem`. `forward` then runs in
  `single` mode and raises at `sample_triple.size(0)` (`codes/model.py:95`) on the first
  batch. With no batches at all, it fails at `logs[0]` instead. The model does not follow
  the code here. `Evaluation` models the evaluation that call was meant to feed, with each
  batch's score rows as an input.
- In the `uni_weight` branch both losses are plain means and are not negated
  (`codes/model.py:384-385`). The weighted branch negates (`codes/model.py:387-388`). The
  model keeps the difference. `Training.UnitWeightsNegateUniLoss` shows that with unit
  weights the two branches give opposite losses, and `Training.PositiveLossSigns` shows
  that their signs differ.
- The embedding range is computed before the model name is checked
  (`codes/model.py:41` before `:74`). Construction therefore fails at `hidden_dim == 0`
  whatever the name: with a ZeroDivisionError at `:41`, unless the recurrent encoder
  built at `:33` raises first. The model reports `DivisionByZero`.
- The tables are initialised with `uniform_(a=-embedding_range, b=embedding_range)`
  (`codes/model.py:50-68`), also before the name check. When gamma < −2 the range is
  negative and PyTorch rejects the reversed bounds with a RuntimeError, whatever the name.
  The model reports `ReversedInitRange`.
- `torch.argsort` (`codes/model.py:473`) has no stated tie order. The assertion at `:485`
  is about the true entity's id, not its score. In a permutation that id occurs exactly
  once, so ties never trip the assertion (`Ranking.PermutationPositions`). Where ties
  exist, the rank lies between the bounds of `Ranking.RankBounds`.
- TransE's head-batch form computes `head + (relation - tail)` (`codes/model.py:240`). The
  model proves it equal to the tail-batch form `(head + relation) - tail`.

## Model

| member | source | states |
|---|---|---|
| Modes.ParseMode | codes/model.py:94-208 | exactly the three strings `single`, `head-batch` and `tail-batch` are accepted, and each parses back to its name |
| Config.ParseModelName | codes/model.py:74-75 | a name is accepted iff it is one of the seven supported model names, and it maps to the model of that name |
| Config.ParseNameOf | codes/model.py:74-75 | every model's name parses back to that model |
| Config.Construct | codes/model.py:24-81 | construction, in the source's order:<br>• a zero hidden width fails with division by zero;<br>• a negative embedding range (gamma < −2) fails with ReversedInitRange, as `uniform_` at :50-68 gets a lower bound above its upper bound;<br>• then an unknown name fails with UnsupportedModel;<br>• RotatE without a doubled entity width and single relation width fails, and so does ComplEx without both doubled;<br>• construction succeeds exactly when none of these apply;<br>• on success: ntem = 32, each width is hidden_dim or 2·hidden_dim and is doubled iff its flag is set, embedding_range·hidden_dim = gamma + 2, and a modulus exists iff the model is pRotatE, equal to 0.5·embedding_range |
| Config.ConstructedIsValid | codes/model.py:30-81 | every successfully constructed configuration satisfies the width, range and name invariants |
| Config.ComplExHalvesAlign | codes/model.py:80-81 | a valid ComplEx configuration has equal, even entity and relation widths, so `chunk(…, 2)` splits into aligned halves |
| Config.RotatEPhasePerCoordinate | codes/model.py:77-78 | a valid RotatE configuration has entity rows twice as wide as relation rows |
| Config.EmbeddingRangeSign | codes/model.py:40-68 | a constructed model's embedding range is never negative, so the initialisation interval [−range, range] is non-empty, and it is positive iff gamma > −2 |
| Scorers.TransEIsTranslationDistance | codes/model.py:238-245 | TransE in every mode is gamma − Σ\|h + r − t\| |
| Scorers.TransE | codes/model.py:238-245 | defined by its body (both parenthesisations); `Scorers.TransEIsTranslationDistance`, `TransEModesAgree` and `TransEAtMostGamma` state its contract |
| Scorers.TransEModesAgree | codes/model.py:238-245 | head-batch, tail-batch and single TransE scores are equal |
| Scorers.TransEAtMostGamma | codes/model.py:238-245 | a TransE score never exceeds gamma |
| Scorers.TATransEIsTranslationDistance | codes/model.py:227-236 | TATransE in every mode is gamma − Σ\|h + rseq − t\|, with rseq the encoding of the relation and time rows and all three rows broadcast to one width |
| Scorers.Rseq | codes/model.py:267-283 | defined by its body: the encoder applied to the relation row followed by the time rows; `Scorers.TATransEIsTranslationDistance` and `TADistMultIsTrilinear` state what the scorers do with it |
| Scorers.TATransE | codes/model.py:227-236 | defined by its body (broadcast, both parenthesisations); `Scorers.TATransEIsTranslationDistance`, `TATransEEqualWidths`, `TATransEScalarEncoding`, `TATransEAtMostGamma` and `TATransEModesAgree` state its contract |
| Scorers.TATransEEqualWidths | codes/model.py:227-236 | with rseq as wide as the entity rows, TATransE is gamma − Σ\|h + rseq − t\| on the rows as given |
| Scorers.TATransEScalarEncoding | codes/model.py:227-236 | a width-1 encoding c is added to every coordinate: the score is gamma − Σ\|h + c − t\| |
| Scorers.TATransEAtMostGamma | codes/model.py:227-236 | a TATransE score never exceeds gamma |
| Scorers.TATransEModesAgree | codes/model.py:227-236 | head-batch and tail-batch TATransE scores are equal |
| Scorers.DistMultIsTrilinear | codes/model.py:258-265 | DistMult in every mode is Σ h·r·t |
| Scorers.DistMult | codes/model.py:258-265 | defined by its body (both product orders); `Scorers.DistMultIsTrilinear`, `DistMultModesAgree` and `DistMultSymmetric` state its contract |
| Scorers.DistMultModesAgree | codes/model.py:258-265 | head-batch and tail-batch DistMult scores are equal |
| Scorers.TrilinearSymmetric | codes/model.py:258-265 | the trilinear product is unchanged by swapping head and tail |
| Scorers.DistMultSymmetric | codes/model.py:258-265 | DistMult scores a triple and its reverse equally, in any pair of modes |
| Scorers.TADistMultIsTrilinear | codes/model.py:247-256 | TADistMult in every mode is Σ h·rseq·t, with all three rows broadcast to one width |
| Scorers.TADistMult | codes/model.py:247-256 | defined by its body (broadcast, both product orders); `Scorers.TADistMultIsTrilinear` and `TADistMultModesAgree` state its contract |
| Scorers.TADistMultModesAgree | codes/model.py:247-256 | head-batch and tail-batch TADistMult scores are equal |
| Scorers.ComplExIsHermitian | codes/model.py:285-300 | ComplEx in every mode is Σ Re(h·r·conj(t)) over the real and imaginary halves |
| Scorers.ComplEx | codes/model.py:285-300 | defined by its body (chunked halves, both cross-term groupings); `Scorers.ComplExIsHermitian` and `ComplExModesAgree` state its contract |
| Scorers.ComplExModesAgree | codes/model.py:285-300 | head-batch (relation·conj(tail) first) and tail-batch (head·relation first) ComplEx scores are equal |
| Forward.Select | codes/model.py:97-101 | `index_select` succeeds iff every id is inside the table; it then returns the indexed rows in order, and otherwise fails with IndexOutOfRange |
| Forward.SelectFixed | codes/model.py:103-107 | `index_select(...).unsqueeze(1)` gives one single-row block per id, or IndexOutOfRange |
| Forward.FlattenInRange | codes/model.py:133-137 | the flattened ids are all in range iff every row of ids is |
| Forward.ViewOfFlatGather | codes/model.py:133-137 | gathering the flattened ids and viewing the result as [b, n] gathers each row of ids |
| Forward.SelectCandidates | codes/model.py:133-137 | the candidate gather fails with IndexOutOfRange on any negative id outside the table; with all ids in range, the view fails with EmptyView iff batch·N = 0; otherwise cell (i, j) is the table row of `negative_sample[i][j]`, with shape [batch, N] |
| Forward.GatherTimeBlocks | codes/model.py:109-119 | the time loop:<br>• succeeds iff every time-token id is in range;<br>• the accumulator stays None iff the batch is empty;<br>• otherwise block i is exactly the time rows named by `sample_tem[i]`, in order, for every i |
| Forward.Dispatch | codes/model.py:210-223 | the scorer call:<br>• a non-temporal model fails with ArgumentCount;<br>• a temporal one succeeds iff time blocks exist, the relation and time widths agree, and each encoding broadcasts against the entity rows (equal widths, or one of them 1);<br>• each cell is then the configured scorer on that cell's operands |
| Forward.ScoreInMode | codes/model.py:127-205 | one mode branch:<br>• head-batch with in-range candidates and batch·N = 0 fails with EmptyView before reading any other id;<br>• otherwise an out-of-range id fails with IndexOutOfRange;<br>• with all ids in range, a batch mode with batch·N = 0 fails with EmptyView;<br>• then a non-temporal model fails with ArgumentCount;<br>• success has shape [batch, negative_sample_size] (1 in single mode, N otherwise), and each cell is the scorer applied to the table rows the mode selects: candidate heads in head-batch, candidate tails in tail-batch, the sample's own ids otherwise |
| Forward.EmptyCandidatesFail | codes/model.py:127-205 | a batch mode whose candidate grid has no cell never scores: it fails with EmptyView, or with IndexOutOfRange when an id is out of range |
| Forward.Forward | codes/model.py:83-225 | `forward`:<br>• a mode other than the three fails with UnsupportedMode;<br>• a batch mode without negatives fails;<br>• otherwise the result is that of the selected mode branch |
| Forward.OperandsFromTables | codes/model.py:94-206 | the gathered head, tail and time operands of cell (i, j) are the table rows the ids name, of the entity width |
| Ranking.RankOf | codes/model.py:484-488 | a rank exists only when the true id occurs exactly once, and is at least 1 |
| Ranking.PositionsMembers | codes/model.py:484 | `nonzero()` lists exactly the positions holding the true id |
| Ranking.PositionsCount | codes/model.py:484-485 | the number of matching positions is the multiplicity of the id |
| Ranking.PermutationPositions | codes/model.py:484-485 | in a permutation of 0..n−1 an id in range matches exactly once and any other id never, so the assertion holds exactly for ids in range |
| Ranking.PermutationDistinct | codes/model.py:473 | a permutation has no repeated entry |
| Ranking.PermutationInRange | codes/model.py:473 | every entry of a permutation of 0..n−1 is an entity id |
| Ranking.PermutationRank | codes/model.py:482-488 | in a permutation, the rank exists iff the id is in range, lies in [1, n], and is the position of the id plus one |
| Ranking.RankBounds | codes/model.py:470-488 | under a descending argsort, 1 + #(strictly better ids) ≤ rank ≤ 1 + #(other ids at least as good) |
| Ranking.RankCountsBetter | codes/model.py:470-488 | without ties, rank = 1 + the number of ids scoring strictly higher |
| Ranking.TopScoreRanksFirst | codes/model.py:470-488 | a true entity whose biased score beats every other has rank 1 |
| Ranking.DecreasingScoresRankByIndex | codes/model.py:470-488 | with scores strictly decreasing in the id, id i has rank i + 1 |
| Evaluation.ExampleMetrics | codes/model.py:487-495 | MR = rank, MRR·MR = 1, and HITS@k is 1 iff rank ≤ k and 0 otherwise, for k = 1, 3, 10 |
| Evaluation.ExampleInBounds | codes/model.py:487-495 | a rank in [1, n] gives MRR in [1/n, 1], MR in [1, n] and 0 ≤ HITS@1 ≤ HITS@3 ≤ HITS@10 ≤ 1 |
| Evaluation.BatchMode | codes/model.py:475-480 | exactly `head-batch` and `tail-batch` are evaluated; any other mode fails with UnsupportedMode |
| Evaluation.RowLogsStuck | codes/model.py:482-485 | a failing row ends the batch with that row's error |
| Evaluation.RowLogsPointwise | codes/model.py:482-495 | a batch's logs exist iff every row has a rank, and entry i is then the metrics of row i's rank |
| Evaluation.BatchLogs | codes/model.py:470-495 | defined by its body: the mode check, then the rows' logs in order; `Evaluation.RowLogsPointwise`, `BatchRanksInRange` and `RankBatch` state its contract |
| Evaluation.RankBatch | codes/model.py:475-495 | the row loop returns exactly the batch's logs, or its first failure |
| Evaluation.BatchRanksInRange | codes/model.py:470-495 | under a descending argsort, a batch with rows of width n and true ids in range never fails; it logs one entry per example, each within bounds |
| Evaluation.CombineAssociative | codes/model.py:489 | appending logs is associative |
| Evaluation.AllLogsAppend | codes/model.py:460-495 | evaluating two runs of batches in sequence appends their logs, the first failure winning |
| Evaluation.AllLogs | codes/model.py:460-495 | defined by its body: the batches' logs appended in order, the first failure winning; `Evaluation.AllLogsAppend`, `AllLogsCount`, `AllLogsInBounds` and `RankLoader` state its contract |
| Evaluation.AllLogsCount | codes/model.py:460-495 | a run of batches that evaluates cleanly logs one entry per example |
| Evaluation.AllLogsInBounds | codes/model.py:460-495 | rankable batches under a descending argsort evaluate cleanly, every entry within bounds |
| Evaluation.Column | codes/model.py:504 | the list of one metric's values has one value per log entry |
| Evaluation.Aggregate | codes/model.py:502-504 | averaging fails exactly when there are no logs (`logs[0]`) |
| Evaluation.AggregateInBounds | codes/model.py:502-504 | averages keep the per-entry bounds and the nesting HITS@1 ≤ HITS@3 ≤ HITS@10 |
| Evaluation.AggregateConstant | codes/model.py:502-504 | the average of identical entries is that entry |
| Evaluation.EvaluateAveragesAllExamples | codes/model.py:457-506 | the final metrics are the plain means over the head loader's entries followed by the tail loader's, one entry per example of either direction |
| Evaluation.Evaluate | codes/model.py:457-506 | defined by its body: the head loader's logs then the tail loader's, averaged; `Evaluation.EvaluateAveragesAllExamples`, `EvaluateInBounds`, `PerfectModelPerfectMetrics` and `TestStep` state its contract |
| Evaluation.EvaluateInBounds | codes/model.py:457-506 | with rankable batches and at least one example, evaluation succeeds, with 1/n ≤ MRR ≤ 1, 1 ≤ MR ≤ n and 0 ≤ HITS@1 ≤ HITS@3 ≤ HITS@10 ≤ 1 |
| Evaluation.RankLoader | codes/model.py:461-500 | the loop over one loader's batches returns exactly that loader's logs, or its first failure |
| Evaluation.TestStep | codes/model.py:416-506 | `test_step` returns exactly the evaluation of the head loader followed by the tail loader |
| Evaluation.BatchLogsPerfect | codes/model.py:470-495 | a batch whose true entities all come strictly first logs rank 1 everywhere |
| Evaluation.TopRankedLogsPerfect | codes/model.py:460-495 | runs of such batches log rank 1 everywhere |
| Evaluation.PerfectModelPerfectMetrics | codes/model.py:457-506 | a model that ranks every true entity strictly first scores MRR = MR = HITS@1 = HITS@3 = HITS@10 = 1 |
| Training.NegativeScores | codes/model.py:372-377 | one negative loss per example |
| Training.NegativeRowLoss | codes/model.py:372-377 | defined by its body: the softmax-weighted sum of `logsigmoid(-row)` under self-adversarial sampling, otherwise its mean; `Training.NegativeScores` and `Losses` use it |
| Training.SampleLoss | codes/model.py:383-388 | defined by its body: the un-negated mean under `uni_weight`, otherwise the negated weighted mean; `Training.UnitWeightsNegateUniLoss` and `PositiveLossSigns` state its contract |
| Training.RegularizationTerm | codes/model.py:392-397 | defined by its body: coefficient · (‖entity‖³ + ‖relation‖³); `Training.RegularizationNonNegative` and `Losses` state its contract |
| Training.Losses | codes/model.py:370-401 | the regularization term is present iff the coefficient is non-zero; loss = (positive + negative)/2, plus the term when present |
| Training.TrainLog | codes/model.py:407-412 | the log has keys `positive_sample_loss`, `negative_sample_loss` and `loss`, plus `regularization` iff the term is present, with the step's values |
| Training.TrainLogShape | codes/model.py:390-412 | the log has a `regularization` key iff the coefficient is non-zero (4 keys then, 3 otherwise), and its `loss` entry is half the sum of the two losses plus that entry when present |
| Training.NoRegularizationIgnoresNorms | codes/model.py:392-401 | with a zero coefficient the step does not depend on the embedding norms |
| Training.RegularizationNonNegative | codes/model.py:392-398 | a non-negative coefficient adds a non-negative term |
| Training.UnitWeightsNegateUniLoss | codes/model.py:383-388 | with all subsampling weights 1, the weighted loss is the negation of the `uni_weight` loss |
| Training.PositiveLossSigns | codes/model.py:381-388 | with a non-positive logsigmoid and positive weights, the `uni_weight` positive loss is ≤ 0 and the weighted one ≥ 0 |

## Left out

- RotatE and pRotatE scoring (`codes/model.py:302-350`) are left out: cosine, sine and the π
  literals are transcendental float numerics. Construction still validates and sizes both
  models, and dispatching either one fails with `ArgumentCount`.
- The recurrent encoder (`LSTMModel`, from `LSTMLinear.py`) is not part of this model. It is
  an uninterpreted total function from the (T+1)-row sequence to a row, applied to each
  example independently.
- Exact reals replace float32: rounding, overflow, infinities and NaN are not modelled.
  This includes the NaN of a mean over an empty axis and of a zero weight sum, which the
  requires clauses exclude instead.
- Random initialisation of the three tables (`codes/model.py:49-68`) is left out: the tables
  are inputs of `forward`, with the shapes construction gives them. Its one failure, a
  reversed interval when gamma < −2, is modelled (`ReversedInitRange`).
- Autograd is left out, along with `loss.backward()`, `optimizer.step()`, `zero_grad`, `train()`/`eval()` and
  `torch.no_grad`. They are gradient and library machinery; the parameter update of
  `train_step` is therefore not modelled.
- `F.logsigmoid` and `F.softmax` are parameters of the loss functions. The L3 norms of the
  two tables are real inputs, so their numerics are not modelled.
- The scores that feed `train_step` and `test_step` are inputs, and so are the subsampling
  weights and filter biases. Batch sampling, `TestDataset` and the construction of the
  filter bias (in `dataloader.py`, which is not part of this model) are left out, as are
  `DataLoader`, `.cuda()` transfers and `logging`. This includes the `step %
  args.test_log_steps` progress counter.
- The sort is the parameter `argsort`. Lemmas assume only that it returns a permutation of
  the row's ids with non-increasing scores. Tie order is not modelled.
- Evaluation.WellShaped: the score and filter-bias rows of a batch are required to have
  equal shapes; broadcasting between unequal shapes is not modelled.
- Forward.Forward: `sample_tem` and the negative ids are required to have one row per
  example and rectangular shape, as tensors do. Broadcasting between batch sizes is not
  modelled.
- Training.UnitWeightsNegateUniLoss: stated for unit weights only; the same sign flip holds
  for any non-zero common weight, but that general form is not proved here.
- Training.Losses: requires a non-empty batch and equal batch sizes of scores and weights. It
  also requires a non-zero weight sum in the weighted branch and at least one negative per
  example in the plain branch, since those inputs produce NaN or infinity in the source.
- Evaluation.TestStep: models the evaluation the call at `codes/model.py:469` was meant to
  feed. The failure of that call as written (an AttributeError at `codes/model.py:95` on
  the first batch) is not modelled, because the score rows are inputs here.
- Config.Construct: reports `DivisionByZero` at `hidden_dim == 0`. Whether the encoder
  built at `codes/model.py:33` rejects a zero width first is not modelled, because
  `LSTMLinear.py` is not part of this model.
- Scorers.TransE, Scorers.DistMult and Scorers.ComplEx: stated for head, relation and tail
  rows of one width. Width-1 broadcasting is modelled only for the two temporal scorers,
  because `forward` never reaches these three (it fails with `ArgumentCount` first).
