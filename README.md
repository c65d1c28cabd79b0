# fairseq search strategies: a verified model

This project models the candidate-selection step of fairseq's sequence
generators (`fairseq/fairseq/search.py`). Each search strategy's `step`
receives one decoding step's log-probabilities `lprobs` (batch × beam ×
vocabulary) and the score history of every hypothesis. It returns three
rows per batch element: the chosen scores, the chosen token ids and the
beams those tokens extend.

Modules (one file each):

- `Scores`: a score is a finite real or the `-inf` sentinel that masking writes.
  - `Le` is torch's order.
  - `Plus` is addition, where `-inf` absorbs.
- `Results`: `Result`/`Option` and the errors a step raises.
- `Indexing`: flattening a grid row-major (`view(bsz, -1)`), div/mod decoding of
  flat positions, strided slices (`x[g::G]`) and interleaving (`torch.stack(dim=2)`).
- `Ranking`: `torch.topk` as a specification predicate `IsTopK`. The k
  positions are distinct and in range, their scores never increase, and no
  unselected position scores above the last one. `TopK` is one implementation
  (a selection sort). The order among ties is left open.
- `Beam`: `BeamSearch.step`.
- `LengthConstrained`: `LengthConstrainedBeamSearch.step`, which masks the EOS
  column by length and then runs BeamSearch.
- `DiverseBeam`: `DiverseBeamSearch.step` with the Hamming diversity penalty. It
  - splits the beam into G groups;
  - penalizes group g by how often groups 0..g-1 chose each token in this step;
  - renames each group's beams to global beams;
  - interleaves the groups' outputs.
- `DiverseSiblings`: `DiverseSiblingsSearch.step`. It
  - ranks each beam's siblings;
  - penalizes the i-th sibling by (i+1)·rate;
  - pools all beams' siblings and takes the top k;
  - decodes the beam as `position div k`.
- `TopP`: the nucleus (top-p) mask of `Sampling._sample_topp`. It covers the
  sorted prefix whose running mass stays below p, plus one more position,
  clamped to the vocabulary.
- `SamplingSearch`: `Sampling.step` without its rescoring branch. It covers
  - the three truncation modes;
  - the remapping of drawn positions to vocabulary ids;
  - the beam and cumulative-score bookkeeping.

  The draws made by `torch.multinomial` are a parameter.

Each strategy has two layers:

- **Specification functions:** a function on one batch element (`BeamStepRow`,
  `MaskRow`, `DiverseRow`, `SiblingsRow`, `SampleRow`) and one on the batch
  (`DiverseStep`, `SiblingsStep`, `SamplingStep`).
- **A class:** its `Step` changes what the source changes in place. That covers
  the caller's `lprobs` array (`add_`, the EOS writes), the output buffers and
  DiverseBeamSearch's `diversity_buf`. Each `Step` is proved equal to its
  specification function.

Lemmas then prove the properties of those functions.

## Model

| member | source | states |
|---|---|---|
| Ranking.TopK | fairseq/fairseq/search.py:77-85 | the positions torch.topk returns: k distinct in-range positions, scores non-increasing, no unselected position above the last selected one |
| Ranking.TopKDominates | fairseq/fairseq/search.py:77-85 | every unselected position scores at most every selected one |
| Ranking.ScoresDetermined | fairseq/fairseq/search.py:77-85 | any two valid top-k selections of a row give the same score sequence, so the unspecified tie order never changes the scores |
| Beam.Candidates | fairseq/fairseq/search.py:69-78 | the flat row topk ranks has V entries at step 0 (beam 0 only) and K·V entries afterwards |
| Beam.CandidateAt | fairseq/fairseq/search.py:69-78 | flat position b·V+v holds lprobs[b][v], plus scores[b][step-1] after step 0 |
| Beam.SelectFlat | fairseq/fairseq/search.py:77-89 | min(2K, width-1) results with their scores best first and every index below V |
| Beam.BeamStepRow | fairseq/fairseq/search.py:66-89 | BeamSearch.step on one batch element: min(2K, width-1) candidates, scores best first, every token a vocabulary id |
| Beam.SelectFlatAt | fairseq/fairseq/search.py:77-89 | each result names its top-k position: beams·V + indices is the flat position, the index is below V and the score is that position's |
| Beam.BeamStepShape | fairseq/fairseq/search.py:77-89 | exactly min(2K, width-1) candidates; every index lies in [0,V), every beam in [0,K), every beam is 0 at step 0 |
| Beam.BeamStepPositions | fairseq/fairseq/search.py:77-89 | the (beam, index) pairs decode the positions of a valid top-k of the flattened candidates, with their scores |
| Beam.BeamStepAt | fairseq/fairseq/search.py:69-89 | slot j's score is lprobs[b][v] at step 0 and lprobs[b][v] + scores[b][step-1] afterwards, for its own beam b and token v |
| Beam.BeamStepScores | fairseq/fairseq/search.py:69-89 | the same for all slots at once, with beams below K and tokens below V |
| Beam.BeamStepOrdered | fairseq/fairseq/search.py:77-87 | the chosen (beam, token) pairs are pairwise distinct and the scores never increase |
| Beam.BeamStepBest | fairseq/fairseq/search.py:77-87 | no (beam, token) pair left out scores strictly above the last chosen one |
| Beam.PairUnique | fairseq/fairseq/search.py:88-89 | div/mod decoding is injective: b·V+v determines b and v when v < V |
| Beam.BeamStepScoresUnique | fairseq/fairseq/search.py:77-87 | any other valid top-k of the candidates has exactly the chosen scores |
| Beam.BeamSearch.constructor | fairseq/fairseq/search.py:14-24 | the buffers start empty |
| Beam.BeamSearch.Step | fairseq/fairseq/search.py:64-90 | after step 0 the caller's lprobs become cumulative in place; the results and the three buffers are BeamStepRow of every batch element |
| Beam.BeamSearch.TakeTop | fairseq/fairseq/search.py:77-89 | the buffers hold each row's top-k scores, positions mod V and positions div V |
| LengthConstrained.MaskedEos | fairseq/fairseq/search.py:106-108 | the EOS entry after the writes: -inf past max_len, 0 at max_len even below min_len, -inf below min_len, otherwise unchanged |
| LengthConstrained.MaskRow | fairseq/fairseq/search.py:104-108 | masking keeps every beam row's width |
| LengthConstrained.ThreeWrites | fairseq/fairseq/search.py:106-108 | the three masked assignments, in source order, produce MaskRow |
| LengthConstrained.MaskRowEffect | fairseq/fairseq/search.py:104-108 | only the EOS column changes: -inf if step > max_len, else 0 if step == max_len, else -inf if step < min_len, else unchanged |
| LengthConstrained.NoEarlyEos | fairseq/fairseq/search.py:106-109 | below min_len (and off max_len) every EOS the beam search selects scores -inf |
| LengthConstrained.EosAtMaxLen | fairseq/fairseq/search.py:107-109 | at max_len the EOS candidate of every beam scores 0 plus the beam's history |
| LengthConstrained.LengthConstrainedBeamSearch.constructor | fairseq/fairseq/search.py:95-101 | stores the length coefficients; source lengths are unset |
| LengthConstrained.LengthConstrainedBeamSearch.SetSrcLengths | fairseq/fairseq/search.py:56-57 | records the source lengths |
| LengthConstrained.LengthConstrainedBeamSearch.MaskEos | fairseq/fairseq/search.py:104-108 | masks each batch element in place with its own min_len = a·src_len + b and max_len |
| LengthConstrained.LengthConstrainedBeamSearch.Step | fairseq/fairseq/search.py:103-109 | the caller's lprobs become the masked lprobs, plus the history after step 0; the result and BeamSearch's buffers are BeamSearch's step on each masked batch element |
| DiverseBeam.Counts | fairseq/fairseq/search.py:138-165 | one count per vocabulary id: how many times the given groups chose it |
| DiverseBeam.GroupInput | fairseq/fairseq/search.py:144-151 | group g's slice has K/G beams of V entries each |
| DiverseBeam.SliceOk | fairseq/fairseq/search.py:144-145 | group g's slices `lprobs[:, g::G]` and `scores[:, g::G]` are well-formed K/G-beam inputs |
| DiverseBeam.GroupInputAt | fairseq/fairseq/search.py:144-151 | group g's entry (b, v) is lprobs[b·G+g][v] shifted by the diversity penalty, none for group 0 |
| DiverseBeam.PenalizeZero | fairseq/fairseq/search.py:148-151 | a zero strength leaves lprobs unchanged |
| DiverseBeam.GroupSearchIs | fairseq/fairseq/search.py:153 | each group runs BeamSearch on its penalized slice and its slice of the history |
| DiverseBeam.NextGroupSlot | fairseq/fairseq/search.py:153-154 | a global beam is b·G+g for a local beam b (0 at step 0) |
| DiverseBeam.NextGroupBeam | fairseq/fairseq/search.py:154 | every global beam of group g lies in [0,K), is congruent to g mod G, and is g at step 0 |
| DiverseBeam.GroupCandidate | fairseq/fairseq/search.py:144-153 | the score group g ranks for (b', v) is the base score of beam b'·G+g shifted by the penalty |
| DiverseBeam.NextGroupAt | fairseq/fairseq/search.py:144-165 | each result of group g has a token below V and the score of its global beam and token minus strength·(times earlier groups chose that token) |
| DiverseBeam.CountsEmpty | fairseq/fairseq/search.py:140 | diversity counts start at zero |
| DiverseBeam.CountsAtStart | fairseq/fairseq/search.py:138-140 | at every step, before group 0, every batch element's counts are zero |
| DiverseBeam.CountsSnoc | fairseq/fairseq/search.py:161-165 | counting one more group is scatter_add of its indices |
| DiverseBeam.CountsNext | fairseq/fairseq/search.py:161-165 | the counts after group n+1 are the counts after group n plus group n's chosen tokens |
| DiverseBeam.GroupIsBeamSearch | fairseq/fairseq/search.py:148-153 | group 0 (and every group when the strength is 0) chooses exactly what plain BeamSearch chooses on its slice |
| DiverseBeam.NextGroupDescending | fairseq/fairseq/search.py:153 | within a group the scores never increase |
| DiverseBeam.NextGroupDistinct | fairseq/fairseq/search.py:153-154 | within a group the (beam, token) pairs are distinct |
| DiverseBeam.StackAt | fairseq/fairseq/search.py:168-170 | output position j·G+g holds group g's j-th score, token and beam |
| DiverseBeam.DiverseRow | fairseq/fairseq/search.py:142-170 | DiverseBeamSearch.step on one batch element returns G times one group's width |
| DiverseBeam.DiverseRowIs | fairseq/fairseq/search.py:142-170 | the row is the interleaving of the G groups, each of width min(2K/G, width-1) |
| DiverseBeam.DiverseRowSlot | fairseq/fairseq/search.py:168-170 | output position j·G+g is group g's j-th result |
| DiverseBeam.DiverseRowAt | fairseq/fairseq/search.py:142-170 | output position j·G+g has a beam in [0,K) congruent to g, a token below V and the penalized cumulative score of that pair |
| DiverseBeam.DiverseRowGroupOrder | fairseq/fairseq/search.py:153-170 | scores at stride G (one group's results) never increase |
| DiverseBeam.StackOrder | fairseq/fairseq/search.py:168-170 | interleaving keeps each group's order at stride G |
| DiverseBeam.StackDistinct | fairseq/fairseq/search.py:154-170 | groups whose beams are congruent to their group number interleave into distinct (beam, token) pairs |
| DiverseBeam.DiverseRowDistinct | fairseq/fairseq/search.py:154-170 | the whole row's (beam, token) pairs are pairwise distinct |
| DiverseBeam.GroupPass | fairseq/fairseq/search.py:144-165 | one pass of the group loop over the batch yields group g's results and the counts after group g |
| DiverseBeam.StackRowsIsStep | fairseq/fairseq/search.py:167-170 | stacking the G groups' batch results gives DiverseStep |
| DiverseBeam.DiverseStep | fairseq/fairseq/search.py:132-135 | the step fails with the ValueError exactly when K mod G ≠ 0 and otherwise returns one row per batch element |
| DiverseBeam.AfterStep | fairseq/fairseq/search.py:144-153 | the caller's lprobs after a successful step keep the batch shape; they equal the input at step 0 or when group 0's slice is a copy |
| DiverseBeam.AfterStepAt | fairseq/fairseq/search.py:144-153 | entry by entry: a beam of group 0 gains its history when group 0's slice shares storage (one group, or one sentence with K = G) after step 0; every other entry is the input's |
| DiverseBeam.AfterStepSlices | fairseq/fairseq/search.py:144-148 | the slices of groups g > 0 read the same entries before and after group 0's in-place add |
| DiverseBeam.SharedSliceAdd | fairseq/fairseq/search.py:144-153 | with one sentence and K = G, adding group 0's history to its one-beam slice writes exactly what AfterStep gives |
| DiverseBeam.DiverseBeamSearch.constructor | fairseq/fairseq/search.py:122-127 | stores the group count and the negated strength |
| DiverseBeam.DiverseBeamSearch.GroupInputs | fairseq/fairseq/search.py:144-151 | builds group g's penalized slice and history slice for every batch element |
| DiverseBeam.DiverseBeamSearch.RecordGroup | fairseq/fairseq/search.py:154-165 | renames the beams in place and adds the group's tokens to diversity_buf |
| DiverseBeam.DiverseBeamSearch.SearchGroup | fairseq/fairseq/search.py:144-153 | runs BeamSearch on group g's inputs; for group 0 the caller's lprobs become AfterStep (the in-place add through a shared slice), for other groups they are unchanged |
| DiverseBeam.DiverseBeamSearch.RunGroup | fairseq/fairseq/search.py:143-165 | one loop iteration: group g's results, diversity_buf advanced from the counts after g groups to those after g+1, and lprobs left as AfterStep |
| DiverseBeam.DiverseBeamSearch.RunGroups | fairseq/fairseq/search.py:137-166 | the group loop: diversity_buf reset, then every group's results, the final counts and lprobs as AfterStep |
| DiverseBeam.DiverseBeamSearch.StackGroups | fairseq/fairseq/search.py:142-170 | the group loop and the interleaving give DiverseStep's rows, which are left in the buffers; lprobs end as AfterStep |
| DiverseBeam.DiverseBeamSearch.Step | fairseq/fairseq/search.py:129-171 | the result is DiverseStep; on the error nothing changes; on success the buffers and diversity_buf are set and the caller's lprobs are AfterStep |
| DiverseSiblings.SiblingAt | fairseq/fairseq/search.py:430-435 | a beam's j-th sibling is its j-th top-k token, scored by its cumulative score minus (j+1)·rate |
| DiverseSiblings.Pool | fairseq/fairseq/search.py:443-452 | the pooled top-k returns k answers, scores best first |
| DiverseSiblings.SiblingsRow | fairseq/fairseq/search.py:427-452 | steps 1 to 4 on one batch element return k answers, each naming a beam in [0,K) |
| DiverseSiblings.SiblingsAt | fairseq/fairseq/search.py:427-452 | each answer has a beam in [0,K), a token below V that is that beam's sibling of some rank, and that token's cumulative score minus the rank's penalty |
| DiverseSiblings.PoolDecode | fairseq/fairseq/search.py:449-452 | a pooled position b·k+i decodes to beam b and that beam's i-th sibling |
| DiverseSiblings.SiblingsOrdered | fairseq/fairseq/search.py:443-447 | the answers' scores never increase and their (beam, token) pairs are distinct |
| DiverseSiblings.SiblingsBest | fairseq/fairseq/search.py:443-447 | a sibling left out of the answers scores (after its penalty) no higher than the last answer |
| DiverseSiblings.NoPenalty | fairseq/fairseq/search.py:404-435 | with rate 0 a sibling keeps its raw cumulative score |
| DiverseSiblings.RateZeroTopK | fairseq/fairseq/search.py:404 | with rate 0 the answers' (beam, token) pairs are a valid top-k of the flattened cumulative grid |
| DiverseSiblings.RateZeroBelow | fairseq/fairseq/search.py:404 | with rate 0 no (beam, token) pair left out scores above the last answer |
| DiverseSiblings.SiblingsRateZero | fairseq/fairseq/search.py:404-452 | with rate 0 after step 0, DiverseSiblingsSearch returns BeamSearch's scores, and its pairs are a valid top-k of BeamSearch's candidates |
| DiverseSiblings.SiblingsStep | fairseq/fairseq/search.py:415-427 | at step 0 the result is BeamSearch's; afterwards it fails exactly when k = min(2K, K·V-1) exceeds V |
| DiverseSiblings.StackColumns | fairseq/fairseq/search.py:438-444 | stacking s_list and i_list per batch element gives that element's sibling score and token grids |
| DiverseSiblings.StackBatch | fairseq/fairseq/search.py:438-444 | the stacked score and token rows of every batch element are its flattened sibling grids, with at least k entries |
| DiverseSiblings.AddScores | fairseq/fairseq/search.py:427 | lprobs become cumulative in place |
| DiverseSiblings.ReadTokens | fairseq/fairseq/search.py:451-452 | final_indices[i] = indices[i][final_indices[i]] for every batch element |
| DiverseSiblings.DiverseSiblingsSearch.constructor | fairseq/fairseq/search.py:407-410 | stores the diversity rate |
| DiverseSiblings.DiverseSiblingsSearch.RankSiblings | fairseq/fairseq/search.py:430-435 | the per-beam loop fills s_list and i_list with every beam's penalized sibling scores and tokens |
| DiverseSiblings.DiverseSiblingsSearch.PoolBatch | fairseq/fairseq/search.py:438-452 | pools every batch element's siblings into its answers |
| DiverseSiblings.DiverseSiblingsSearch.Step | fairseq/fairseq/search.py:412-454 | the result is SiblingsStep; after step 0 lprobs are made cumulative in place and BeamSearch is untouched; at step 0 BeamSearch's buffers hold the result |
| TopP.SortDesc | fairseq/fairseq/search.py:201 | the sort is a permutation of the positions in descending order of probability |
| TopP.SumMonotone | fairseq/fairseq/search.py:204 | with non-negative probabilities the running sums never decrease |
| TopP.BelowIsPrefix | fairseq/fairseq/search.py:204-205 | the `lt` mask is a prefix of the sorted row |
| TopP.CountPrefix | fairseq/fairseq/search.py:209-210 | a prefix mask is set exactly below its count |
| TopP.LastIncluded | fairseq/fairseq/search.py:209-211 | the clamped last_included lies in [0, V) |
| TopP.Kept | fairseq/fairseq/search.py:209-212 | the nucleus keeps between 1 and V positions |
| TopP.Nucleus | fairseq/fairseq/search.py:204-212 | one flag per sorted position, and position last_included is always set, so every row keeps a token |
| TopP.NucleusIsPrefix | fairseq/fairseq/search.py:204-212 | after the scatter the mask is set exactly on the first Kept sorted positions |
| TopP.NucleusKeeps | fairseq/fairseq/search.py:204-212 | sorted position j is kept exactly when j = 0 or the mass of positions before j is below p |
| TopP.NucleusMass | fairseq/fairseq/search.py:204-212 | the kept mass reaches p unless the whole row is kept, and dropping the last kept position would leave it below p |
| TopP.NucleusMostProbable | fairseq/fairseq/search.py:201-212 | no token outside the nucleus is more probable than a token inside it |
| TopP.MaxOf | fairseq/fairseq/search.py:215 | the largest entry: bounds every entry and is one of them |
| TopP.Width | fairseq/fairseq/search.py:215-218 | max_dim + 1 is at most V and at least every row's kept count |
| TopP.WidthReached | fairseq/fairseq/search.py:215 | some row keeps exactly max_dim + 1 positions |
| TopP.TrimRowAt | fairseq/fairseq/search.py:216-223 | a trimmed entry is the sorted probability inside the nucleus and 0 outside it |
| TopP.SampleTopP | fairseq/fairseq/search.py:198-224 | one trimmed row per input row, each max_dim + 1 wide in probabilities and indices |
| TopP.SampleTopPAt | fairseq/fairseq/search.py:198-224 | every returned row has width max_dim + 1, holds the sorted vocabulary ids, and holds probabilities zeroed outside its own nucleus |
| SamplingSearch.SampledRows | fairseq/fairseq/search.py:243-246 | step 0 samples from beam 0's row only, later steps from every beam's row; slot i's source row (beam 0 at step 0, beam i afterwards) is kept unchanged |
| SamplingSearch.NucleusWidth | fairseq/fairseq/search.py:215 | the trimmed width over the whole batch is at most V and covers every row's nucleus |
| SamplingSearch.Pick | fairseq/fairseq/search.py:359-374 | a drawn position maps to a vocabulary id; its score is that token's, or -inf only under top-p; under top-k the token is one of the row's k best |
| SamplingSearch.PickAt | fairseq/fairseq/search.py:359-374 | a drawn position maps to a vocabulary id; its score is that token's log-probability, or -inf where top-p zeroed it |
| SamplingSearch.PickReadsTopP | fairseq/fairseq/search.py:198-374 | under top-p the drawn token is the `_sample_topp` index at the drawn position of the slot's source row, and the trimmed probability there is the exp of the returned score (0 when the score is -inf) |
| SamplingSearch.SampleRow | fairseq/fairseq/search.py:339-387 | K slots per batch element, each with a token below V and a beam below K |
| SamplingSearch.SampleRowAt | fairseq/fairseq/search.py:339-387 | slot i's beam is 0 at step 0 and i afterwards; its token is below V; its score is the token's log-probability plus the beam's previous cumulative score (-inf if trimmed) |
| SamplingSearch.ByCountBest | fairseq/fairseq/search.py:251-374 | with top-k a sampled token is among its row's k best, and no token outside them scores above it |
| SamplingSearch.ByMassBest | fairseq/fairseq/search.py:248-374 | with top-p a token drawn inside the nucleus is at least as probable as every token outside it |
| SamplingSearch.SamplingStep | fairseq/fairseq/search.py:251-253 | the step fails exactly when top-k asks for more entries than the vocabulary holds |
| SamplingSearch.SamplingStepAt | fairseq/fairseq/search.py:339-389 | when the step succeeds, every batch element is SampleRow of its own rows, history and draws |
| SamplingSearch.SamplingStepAsWritten | fairseq/fairseq/search.py:248-259 | as written the step succeeds exactly under top-k with k at most V; otherwise it fails, with topk's error or with the clone of None |
| SamplingSearch.AsWrittenOnlyByCount | fairseq/fairseq/search.py:248-259 | as written, the step agrees with the corrected step under top-k and fails under top-p or no truncation, where the corrected step succeeds |
| SamplingSearch.DefaultConfigurationFails | fairseq/fairseq/search.py:176-259 | with the default sampling_topk = -1 and sampling_topp = -1.0, a one-beam, one-token batch fails as written but yields that token under the corrected step |
| SamplingSearch.Sampling.constructor | fairseq/fairseq/search.py:176-179 | stores sampling_topk and sampling_topp with empty buffers |
| SamplingSearch.Sampling.Step | fairseq/fairseq/search.py:226-389 | the result is SamplingStep; on success the three buffers hold its rows; on failure nothing changes |

## Left out

- Random draws (`torch.multinomial`, search.py:340-353) are a parameter: a position in range for each slot.
  - multinomial never draws a zero-probability position. The model also admits such draws and scores them -inf, as the gather and log would.
  - multinomial raises on a row whose probabilities sum to 0 (every entry -inf). The model has no such error: a draw is always given.
- The rescoring and coefficient-learning branch of `Sampling.step` (search.py:263-337) is not part of this model:
  - it makes foreign scorer and trainer calls;
  - it uses numpy;
  - it hard-codes batch size 1.

  Without kwargs `rescore` defaults to the string "False" (search.py:233), which Python treats as true (search.py:263). With the default empty `scorers`, `np.stack([])` at search.py:313 then raises, so as written every sampling step after step 0 fails, top-k included. The model behaves as if rescoring were off. `SamplingSearch.SamplingStepAsWritten` models only the failure at search.py:259.
- Floating point:
  - Scores are reals with a `-inf` sentinel, and cumulative sums are exact.
  - `exp` is a parameter, only assumed non-negative. `log` is taken as its inverse, so a gathered score is read straight from `lprobs`.
  - `Sampling.step` applying `exp_` in place to the caller's lprobs (search.py:198, 255, 257) is not modelled. `Sampling.Step` takes lprobs as a value.
- The tie order of `torch.topk` and `sort` is implementation-defined:
  - The specification (`IsTopK`) allows any order. The model's `TopK` picks the lowest position first.
  - `ScoresDetermined` shows that the order never changes the returned scores, but tokens and beams among ties may differ.
- `DiverseSiblings.SiblingsRateZero`: the doc comment calls rate 0 "equivalent to BeamSearch". The lemma proves equal scores and a valid top-k, because the (beam, token) pairs among ties may legitimately differ.
- Torch plumbing is left out: `nn.Module`, `_init_buffers`, `out=` buffer reuse, `torch.jit.export`, devices, and the unused `pad`/`unk` fields (search.py:14-31).
  - `.contiguous()` (search.py:151) is modelled only by its effect: `DiverseBeam.AfterStep` says when group 0's slice shares the caller's storage. The model copies the added row back instead of aliasing it. The caller's lprobs are taken to be a packed (contiguous) tensor.
  - The default `src_lengths = -1` is `None` in the model. `LengthConstrainedBeamSearch.Step` requires `set_src_lengths` to have been called.
  - Aliasing between BeamSearch's buffers and the tensors it returns is not modelled. Buffers and results are values.
- `DiverseBeam.DiverseBeamSearch.Step` does not state what its own BeamSearch's buffers hold afterwards: the last group's output, with renamed beams, which nothing reads. `RecordGroup` states them for each group.
- `DiverseBeam.DiverseBeamSearch.constructor` takes `num_groups` ≥ 1. With `num_groups = 0`, `beam_size % 0` raises ZeroDivisionError (search.py:132); the model has no such search.
- Integer widths: indices are unbounded naturals. `torch.div` on the non-negative long positions (search.py:88, 449) is integer division.

## Findings

| source | as written | input that shows it | evidently intended | confidence | as-written member | corrected member |
|---|---|---|---|---|---|---|
| fairseq/fairseq/search.py:259 | `lprobs = logprob.clone()` runs on every path, but `logprob` is only assigned in the top-k branch (line 254), so top-p and untruncated sampling raise AttributeError on None | the default `Sampling(tgt_dict)` (sampling_topk = -1, sampling_topp = -1.0), one batch element, one beam, a one-token vocabulary, step 0 | sampling continues with the (possibly truncated) log-probabilities in every mode | not executed | SamplingSearch.SamplingStepAsWritten, SamplingSearch.DefaultConfigurationFails | SamplingSearch.SamplingStep |

Two more places where the code and its comments disagree. The model follows the code in both:

- **The top-p mask** (search.py:205-212) keeps positions while the running mass is below p, plus one more. The kept mass therefore reaches p (`>= p`), where the doc comment says it "exceeds" p. `TopP.NucleusMass` states what the code does.
- **DiverseSiblingsSearch** asks every beam's `topk` for k = min(2K, K·V-1) entries out of V. Torch refuses this when k > V, for example with K = 2 and V = 2. The model returns `TopKOutOfRange` there (`DiverseSiblings.SiblingsStep`).
