# Fast-dLLM block decoding and layer reuse in Dafny

This project models the bookkeeping of a block-parallel masked-diffusion
decoder, Fast-dLLM's `batch_sample`, and its two layer-output reuse
mechanisms.

`batch_sample` works as follows:
- It pads a batch of prompts with mask ids up to a whole number of blocks.
- It then decodes one block at a time. Inside each block it walks the small
  blocks in order. For each small block it repeats a gated unmasking step
  until no mask id is left:
  - every masked position whose sampled token is confident enough is
    committed;
  - so is the row's most probable masked position.
- Rows that commit the stop token are flagged. After the block, each flagged
  row is cut after its stop token. Unless every row finished, a correction
  pass appends one token.
- The block is written back into `input_ids`. Finished rows are then saved
  under their original index and dropped from every per-sample array and
  from the KV cache, in each of its layouts.
- When the last block is done, every original index has exactly one sample.

Layer reuse lets a decoder layer return an earlier output instead of
recomputing it. It comes in two forms:
- `LayerReuseController` is a class. It wraps the `forward` of a subset of
  layers. It recomputes every `reuse_k`-th pass and keys cached outputs by
  layer and sequence length.
- The older closure-based patch helper wraps layers the same way. Its
  wrapper slices a cached block output down to the small block asked for.

Modules, one per concern:

| file | module | what it holds |
|---|---|---|
| common.dfy | Common | `Option`, `Result`, Python's exceptions, `range`, occurrence counts |
| block_layout.dfy | BlockLayout | slice bounds, mask padding, small-block spans, the logit shift |
| gating.dfy | Gating | the confidence gate with its forced-progress argmax and the commit of one row |
| small_block.dfy | SmallBlock | one unmasking step, the small-block `while` loop, the loop over small blocks, the block-cache recompute rule |
| compaction.dfy | Compaction | boolean-mask filtering, the three KV-cache layouts, saving and dropping finished rows |
| batch_sample.dfy | BatchSample | prefill, one block, the write-back into `input_ids`, the block loop, the collection of samples |
| patch_helper.dfy | PatchHelper | `_patch_layers_helper`, its wrapper closure (a class with the closure's private cache) and `_unpatch_layers_helper` |
| layer_reuse.dfy | LayerReuse | `_get_seq_len_from_args`, subset selection and the `LayerReuseController` class |

Modelling conventions:
- **Tensors.** A batched tensor is a sequence of rows (`seq<seq<int>>`) with
  an explicit width. Boolean masks are `seq<bool>`. Probabilities are `real`.
- **Model and sampler.** The model's forward pass and the top-p sampler are
  the opaque `Oracles`, passed as parameters. A forward pass is described by
  the `EvalRequest` it receives, which includes the shared `reuse_state` the
  patched layers read.
- **Exceptions.** A Python exception is a `Failure` carrying a `PyError`.
- **Mutated `forward` attributes.** These are a sequence of `Forward` slots:
  - `Own(i)` is layer `i`'s own method;
  - `Wrapped(f, key)` is the wrapper installed over `f` under dictionary key
    `key`.

The two reuse mechanisms disagree about "first":
- the controller includes layer 0;
- the patch helper starts at layer 1.

`LayerReuse.FirstDisagreesOnLayerZero` states this difference, and the model
keeps it as written.

## Model

| member | source | states |
|---|---|---|
| BlockLayout.Normalize | v2/generation_functions.py:258-263 | a slice bound is clamped into `[0, len]`; a non-negative bound is kept and a negative one counts from the end |
| BlockLayout.SliceBounds | v2/generation_functions.py:258-263 | `s[start:stop]` selects positions `lo <= hi <= len`; an absent start is 0 and an absent stop is `len` |
| BlockLayout.AlignUp | v2/generation_functions.py:198-204 | between 1 and `block_size` mask ids are appended, and the padded length is the next multiple of `block_size` |
| BlockLayout.PadRow | v2/generation_functions.py:198-204 | a padded row is strictly longer, by at most `block_size`; its length is a multiple of `block_size`; the prompt is its prefix and only mask ids follow |
| BlockLayout.PadBatch | v2/generation_functions.py:198-204 | every row of the batch receives the same padding, so the batch stays rectangular |
| BlockLayout.SmallBlockSpanInWindow | v2/generation_functions.py:255-263 | the `start:end` slice, with `end` `None` for the last small block, selects exactly window positions `[start_idx, end_idx)` of the last `block_size` positions |
| BlockLayout.NegativeZeroEndIsEmpty | v2/generation_functions.py:259-263 | writing the last small block's end as `-0` rather than `None` would select nothing, which is why the source special-cases it |
| BlockLayout.ShiftRight | v2/generation_functions.py:304-306 | the realigned logits have the same length, `out[0] == in[0]` and `out[i] == in[i - 1]` for `i >= 1` |
| Gating.MaskedScores | v2/generation_functions.py:352 | masked positions keep their probability and unmasked ones become `-inf` |
| Gating.ArgMax | v2/generation_functions.py:354 | the index is in range and holds a maximal score; every earlier score is strictly smaller, so it is the first maximum |
| Gating.Gate | v2/generation_functions.py:352-356 | only masked positions are committed; every masked position above the threshold is committed; any other committed position is the argmax |
| Gating.GateCommitsBestMasked | v2/generation_functions.py:352-356 | when some position is masked, the argmax is masked, is the first masked position of maximal probability, and is committed whatever the threshold |
| Gating.Commit | v2/generation_functions.py:357 | committed positions receive their sampled token and every other position is unchanged |
| Gating.SpanMask | v2/generation_functions.py:265 | position `j` is flagged exactly when the row holds the mask id at `lo + j` |
| Gating.UnmaskRowSpec | v2/generation_functions.py:352-357 | only masked span positions change, each to its sampled token; confident masked positions are written; with a sampler that never proposes the mask id, the span's mask count drops whenever it was positive |
| Gating.StopCommittedIff | v2/generation_functions.py:357-360 | a row's `finished_row_flags` entry is set exactly when some masked span position now holds the stop token |
| SmallBlock.SpanMasksZero | v2/generation_functions.py:265-267 | `mask_idx[:, start:end].sum() == 0` exactly when no row holds the mask id in the span |
| SmallBlock.SpanMasksShrink | v2/generation_functions.py:264-267 | row-wise shrinking mask counts shrink the batch total, strictly when it was positive |
| SmallBlock.Window | v2/generation_functions.py:265 | `x_t[:, -block_size:]` holds the last `block_size` positions of every row |
| SmallBlock.StepRequest | v2/generation_functions.py:269-341 | without the block cache a full-block pass runs with layer reuse disabled; with it, the reuse pass at `replace_position = start` runs exactly when none of the recompute reasons at lines 280-288 holds (cache absent, `reuse_k <= 1`, `reuse_step % reuse_k == 0`, a mask id at the small block's first position), and `reuse_state["count"]` is `reuse_step` |
| SmallBlock.SpanLogitsShift | v2/generation_functions.py:304-323 | each small-block position reads the logit one position earlier in the forward's output, the forward's first position its own; on the reuse path the small block's first position reads its own logit |
| SmallBlock.StepRows | v2/generation_functions.py:357 | every row, and no other state, receives its gated commit in the current small block |
| SmallBlock.StepFlagVec | v2/generation_functions.py:358-361 | a row's flag after the step is its old flag or'd with `finished_row_flags` |
| SmallBlock.Step | v2/generation_functions.py:264-362 | one iteration: the forward pass asked for, the committed rows, the accumulated flags; `reuse_step` grows by one exactly when the block cache is used; a block cache, once present, stays |
| SmallBlock.StepChangesOnlyMasks | v2/generation_functions.py:352-357 | over the batch, only masked positions of the small block change, each to its sampled token, and every confident masked position is committed |
| SmallBlock.RowChangesOnlyMasks | v2/generation_functions.py:352-357 | the same for one row |
| SmallBlock.StepFlags | v2/generation_functions.py:358-361 | with a stop token other than the mask id, a flag is set after a step exactly when it was set before or the row committed a stop token |
| SmallBlock.RowProgress | v2/generation_functions.py:352-357 | a row changes only mask ids of the small block, into non-mask tokens, and its span mask count shrinks |
| SmallBlock.StepProgress | v2/generation_functions.py:264-267 | a step only resolves mask ids of the small block, and strictly lowers the small block's mask count while it is positive: the termination measure of the `while True` loop |
| SmallBlock.RowsProgress | v2/generation_functions.py:352-357 | every row's mask count shrinks and the batch evolves only by resolving masks |
| SmallBlock.EvolvesTrans | v2/generation_functions.py:264-361 | two steps compose; a stop commit over both is a stop commit of one of them |
| SmallBlock.SmallStep | v2/generation_functions.py:264-362 | one pass keeps the loop invariant and removes at least one mask id from the small block |
| SmallBlock.ResolveSmallBlock | v2/generation_functions.py:264-361 | the loop ends with no mask id in the small block, after at most as many passes as it held mask ids; it changed only mask ids inside the small block; flags are only set, and exactly for rows that committed a stop token; `reuse_step` counts the passes when the block cache is on |
| SmallBlock.SmallBlocksTile | v2/generation_functions.py:189 | `num_small_blocks` small blocks cover the block exactly, each inside it |
| SmallBlock.ResolveBlock | v2/generation_functions.py:248-361 | after the loop over small blocks the block's window holds no mask id; only mask ids in the window changed; flags are only set, and, with a stop token other than the mask id, exactly for the rows that committed one; reuse is enabled when the block cache is used |
| Compaction.Kept | v2/generation_functions.py:394 | the positions a keep mask keeps, strictly increasing, each kept and every kept position present |
| Compaction.Filter | v2/generation_functions.py:394-398 | `xs[keep]` holds exactly the kept rows, in their original order |
| Compaction.Not | v2/generation_functions.py:394 | `~finished_flag` negates every flag |
| Compaction.FilterSplits | v2/generation_functions.py:386-394 | filtering distinct original indices keeps them distinct, and a value survives exactly when it sat at a kept position |
| Compaction.FilterLayer | v2/generation_functions.py:436-449 | a `caches` entry keeps its kind, and its `k_cache`/`v_cache` or `kv_cache` tensors keep exactly the kept rows |
| Compaction.FilterPair | v2/generation_functions.py:417-420 | both tensors of a legacy `(k, v)` pair keep exactly the kept rows |
| Compaction.FilterEachPair | v2/generation_functions.py:415-421 | the pair list keeps its length and each pair is filtered, in order |
| Compaction.FilterPairs | v2/generation_functions.py:411-421 | case A fails exactly when some tensor does not have one row per sample; otherwise every pair's tensors keep exactly the kept rows |
| Compaction.FilterEach | v2/generation_functions.py:426-433 | every tensor of a list is filtered, in order |
| Compaction.FilterLists | v2/generation_functions.py:423-433 | case B fails exactly when a key or value layer is missing or of the wrong size; otherwise the first `len(key_cache)` layers of both lists are filtered and later value layers are left alone |
| Compaction.FilterCaches | v2/generation_functions.py:434-449 | case C fails exactly when an entry does not fit the batch; otherwise each entry is filtered by its kind |
| Compaction.FilterKV | v2/generation_functions.py:410-449 | the trim keeps the cache's layout, and its only error is IndexError |
| Compaction.TrimPairs | v2/generation_functions.py:414-421 | the loop building `new_past` gives the case A filter |
| Compaction.TrimLists | v2/generation_functions.py:423-433 | the in-place loop over `key_cache`/`value_cache` gives the case B filter, including its failure |
| Compaction.ListsJoin | v2/generation_functions.py:426-433 | layers filtered one by one, with later value layers untouched, equal the case B filter |
| Compaction.TrimCaches | v2/generation_functions.py:434-449 | the in-place loop over `caches` gives the case C filter |
| Compaction.TrimKV | v2/generation_functions.py:410-449 | the trim computes `FilterKV`, dispatching on the layout: a legacy tuple or list, key and value lists, a list of caches; any other object is left alone |
| Compaction.SaveRows | v2/generation_functions.py:385-391 | the keys grow by the original indices of the flagged rows; a flagged row's value is stored unless a later flagged row shares its index; other entries are kept |
| Compaction.FilterBatch | v2/generation_functions.py:393-398 | `sample_indices`, `input_ids`, `seq_block_idx`, `seq_len`, `x_t` and the flags are all filtered by the same mask, so they stay aligned; filtered by `~flags`, no flag is left set |
| Compaction.Compact | v2/generation_functions.py:382-452 | with no finished row nothing changes; otherwise the trim fails, with IndexError, exactly when the KV cache does not fit; on success the finished rows are saved under their original indices, saved samples are kept, and every per-sample array and the KV cache are filtered by `~finished_flag` |
| Compaction.FilterKVFits | v2/generation_functions.py:410-449 | a KV cache with one row per sample is trimmed without error, and the result has one row per surviving sample |
| BatchSample.Prefix | v2/generation_functions.py:206 | `rows[:, :n]` keeps the first `n` positions of every row |
| BatchSample.MaxOf | v2/generation_functions.py:153 | `seq_len.max()` bounds every entry and is attained |
| BatchSample.PrefillRequest | v2/generation_functions.py:166-171 | the prefill runs without a KV cache over the first `min_len // block_size * block_size` positions of every row, clipped to the width of `input_ids`: a block-aligned length within one block below `min_len` |
| BatchSample.AppendColumn | v2/generation_functions.py:244 | one more column: old rows as prefix, the new token last |
| BatchSample.SetColumn | v2/generation_functions.py:181 | `rows[sel, at] = col[sel]` writes position `at` of selected rows and nothing else |
| BatchSample.PrefillTokens | v2/generation_functions.py:176-177 | the argmax at the last prefilled position of every row |
| BatchSample.EqualTo | v2/generation_functions.py:175 | `seq_len == min_len` as a selection vector |
| BatchSample.RunPrefill | v2/generation_functions.py:166-183 | the prefill fails, with a shape mismatch, exactly when `min_len` is block-aligned, above one block, no narrower than `input_ids`, and some prompt's length differs from `min_len`; otherwise `input_ids` grows by at most one column |
| BatchSample.PrefillWrites | v2/generation_functions.py:166-181 | the prefill changes only position `min_len`, and only in rows whose prompt is exactly `min_len` long, which receive the predicted token; the KV cache is the prefill's, or `None` below one block |
| BatchSample.PrefillSucceeds | v2/generation_functions.py:178-181 | with `min_len` the shortest prompt and `input_ids` as wide as the longest, the prefill cannot fail |
| BatchSample.FirstFrom | v2/generation_functions.py:222-224 | the offset of the first stop token at or after the prompt end, or none when there is none |
| BatchSample.TruncateRow | v2/generation_functions.py:217-227 | the row is cut after its first stop token at or after the prompt end: everything up to it is kept and everything after it is padding; it fails exactly when no stop token follows the prompt |
| BatchSample.TruncateIdempotent | v2/generation_functions.py:217-227 | with a padding id other than the stop token, cutting a cut row changes nothing |
| BatchSample.TruncateFinished | v2/generation_functions.py:217-227 | the loop raises IndexError exactly when a finished row ending before the block end has no stop token after its prompt; otherwise exactly those rows are cut and the others kept |
| BatchSample.PaddedStart | v2/generation_functions.py:198-204 | the padded buffer keeps `input_ids` and appends mask ids up to the next multiple of `block_size` |
| BatchSample.PaddedWidth | v2/generation_functions.py:198-204 | the padded width is a multiple of `block_size`, at least one block, strictly above the old width and at most one block above it |
| BatchSample.BlockStart | v2/generation_functions.py:197-206 | `x_init` is the padded buffer when every row is in this block, and `input_ids` cut after the block otherwise; either way it agrees with `input_ids` where both are defined |
| BatchSample.CorrectionRequest | v2/generation_functions.py:232-240 | the correction pass reads the block's window with the KV cache and with layer reuse disabled |
| BatchSample.AppendNext | v2/generation_functions.py:242-244 | every row gets the predicted next token, and finished rows get padding |
| BatchSample.Correct | v2/generation_functions.py:231-245 | the corrected `x_t` is the old one plus one column, from the correction pass, with the pass's KV cache |
| BatchSample.CutRow | v2/generation_functions.py:217-227 | a resolved row cut at its stop token keeps that token and pads after it |
| BatchSample.BlockResolved | v2/generation_functions.py:209-227 | after the small-block loop and the cut, every row of `x_t` relates to `x_init` as `RowResolved` says |
| BatchSample.ResolvedAppend | v2/generation_functions.py:242-244 | appending the correction column keeps every row's resolution |
| BatchSample.StartUnmasked | v2/generation_functions.py:197-206 | `x_init` holds the prompts where `input_ids` does, so prompts without mask ids stay without them |
| BatchSample.FlaggedRowsHaveStop | v2/generation_functions.py:217-227 | when no prompt holds the mask id, a flagged row committed its stop token after its prompt, so the cut finds one |
| BatchSample.ResolveWindow | v2/generation_functions.py:209-212 | when the window holds a mask id the small-block loop resolves all of them, flagging exactly the rows that committed a stop token; otherwise nothing changes |
| BatchSample.ResolveAndCut | v2/generation_functions.py:209-227 | after the small-block loop and the cut, every row is resolved; the only error is IndexError, which cannot occur when no prompt holds the mask id |
| BatchSample.DecodeBlock | v2/generation_functions.py:197-246 | one block raises only IndexError, and cannot when the stop token differs from the mask id and no prompt holds it; on success it yields the new `input_ids` and an `x_t` resolved against `x_init`, gaining a correction column exactly when some row is unfinished, with the KV cache unchanged when no correction ran |
| BatchSample.CorrectUnlessFinished | v2/generation_functions.py:228-245 | when every row finished, `x_t` is kept; otherwise one correction column is appended, keeping each row's resolution |
| BatchSample.Column | v2/generation_functions.py:370 | `x_t[:, i]` picks position `i` of every row |
| BatchSample.Overlay | v2/generation_functions.py:368 | `input_ids[:, :m] = x_t[:, :m]` overwrites the first `m` positions and keeps the rest |
| BatchSample.MergeTail | v2/generation_functions.py:368-379 | the write-back raises RuntimeError exactly when `x_t[:, :-1]` and `input_ids[:, :(b + 1) * block_size]` differ in width; otherwise the decoded prefix is copied, and rows still in later blocks keep their tokens after the block |
| BatchSample.MergeAsWritten | v2/generation_functions.py:365-379 | as written, equally wide `input_ids` is replaced by `x_t` wholesale |
| BatchSample.MergeOverwritesPrompt | v2/generation_functions.py:365-366 | a concrete batch where the as-written write-back replaces a later row's prompt token |
| BatchSample.KeepLaterPrompts | v2/generation_functions.py:375-379 | rows not in this block keep their own tokens from the block end on |
| BatchSample.Merge | v2/generation_functions.py:365-379 | the corrected write-back fails exactly as the original does |
| BatchSample.MergeWrites | v2/generation_functions.py:365-379 | the corrected write-back copies the decoded prefix; it takes `x_t` whole when `input_ids` ended inside the block; otherwise rows in this block get the token after it and later rows keep their own tokens |
| BatchSample.MergePreservesPrompts | v2/generation_functions.py:365-379 | when `x_t` agrees with `input_ids` on the prompts up to the block end, and the prompts of the rows in this block end there, the corrected write-back leaves every prompt position of `input_ids` unchanged |
| BatchSample.MergeKeepsPrompt | v2/generation_functions.py:365-379 | on the batch of `MergeOverwritesPrompt` the corrected write-back keeps the prompt token |
| BatchSample.AdvanceBlock | v2/generation_functions.py:380 | rows at block `b` move to `b + 1` and the others stay |
| BatchSample.BlockFits | v2/generation_functions.py:197-206 | when not every row is in this block, `input_ids` reaches past its end, so the cut at line 206 is full width |
| BatchSample.AdvanceKeepsAhead | v2/generation_functions.py:380 | after line 380 no row is behind the next block |
| BatchSample.SurvivorNotFlagged | v2/generation_functions.py:386-394 | an original index that survives the trim was not flagged |
| BatchSample.LiveFlaggedOrKept | v2/generation_functions.py:386-394 | a live original index is either saved or survives the trim |
| BatchSample.PartitionStep | v2/generation_functions.py:385-398 | saving and dropping the finished rows keeps every original index either saved or live, never both |
| BatchSample.Indices | v2/generation_functions.py:454-465 | the set of original indices `0 .. batch_size - 1` |
| BatchSample.FullIndexSet | v2/generation_functions.py:454-465 | a set of indices below `batch_size` with `batch_size` members holds all of them |
| BatchSample.StartStateTracks | v2/generation_functions.py:185-192 | every fresh row holds its own prompt, and prompts without the mask id stay without it |
| BatchSample.StartStateInv | v2/generation_functions.py:185-192 | the state before the first block satisfies the block loop's invariant, and every row's prompt length is its own |
| BatchSample.PrefillKeepsPrompts | v2/generation_functions.py:166-181 | with prompts between `min_len` and the width of `input_ids`, the prefill succeeds and leaves every prompt position as it was |
| BatchSample.PrefillWidens | v2/generation_functions.py:166-183 | the prefill widens `input_ids` only when every prompt is exactly `min_len` long, `min_len` is block-aligned and `input_ids` is no wider |
| BatchSample.StartPast | v2/generation_functions.py:166-183 | with a model whose KV caches have one row per input row, the prefill's KV cache fits the batch |
| BatchSample.PrefillUnmasked | v2/generation_functions.py:166-183 | prompts without the mask id still have none after the prefill |
| BatchSample.StartWide | v2/generation_functions.py:166-188 | when `input_ids` is as wide as the longest prompt, after the prefill it still ends before the end of that prompt's block |
| BatchSample.StartStateOnTrack | v2/generation_functions.py:185-192 | a fresh state with unmasked prompts, a fitting KV cache and some prompt block reaching past `input_ids` is one in which no block raises |
| BatchSample.StartOnTrack | v2/generation_functions.py:153-192 | under sound settings, with `input_ids` as wide as the longest prompt and no prompt holding the mask id, the state before the first block is one in which no block raises |
| BatchSample.StartBatch | v2/generation_functions.py:166-192 | prefill and setup leave every row live at the block of its prompt's end, none behind the start block, nothing saved and no `x_t`; each row holds its own prompt and prompt length; under sound settings the state is one in which no block raises |
| BatchSample.AdvancePlaced | v2/generation_functions.py:380 | moving the rows of block `b` to `b + 1` keeps every prompt inside its row's block, and rows ahead of the next block are past their prompt's start |
| BatchSample.MergeAllAt | v2/generation_functions.py:365-372 | when every row is in this block, the padded buffer and `x_t` merge without error, and `input_ids` ends before the end of the next block |
| BatchSample.MergeAhead | v2/generation_functions.py:365-379 | when some row is past this block, that row is unflagged, the write-back cannot fail and `input_ids` stays inside that row's block |
| BatchSample.BlockMerges | v2/generation_functions.py:365-379 | in a state in which no block raises, the block's write-back never raises RuntimeError and `input_ids` ends before the farthest row's block end |
| BatchSample.BlockAgreesOnPrompts | v2/generation_functions.py:197-227 | the new `input_ids` and `x_t` agree with the old `input_ids` on every prompt position |
| BatchSample.BlockKeepsPrompts | v2/generation_functions.py:197-379 | after the corrected write-back every prompt position holds its old token |
| BatchSample.Survivors | v2/generation_functions.py:393-398 | dropping the finished rows keeps the per-sample arrays aligned and leaves no flag set; with none finished nothing changes |
| BatchSample.SurvivorOrigin | v2/generation_functions.py:393-398 | every surviving row comes from an unflagged row with the same index, prompt, prompt length and block |
| BatchSample.SurvivorsTrackLen | v2/generation_functions.py:393-398 | surviving rows keep the prompt length of their original index |
| BatchSample.SurvivorsUnmasked | v2/generation_functions.py:393-398 | surviving rows keep their width, and their prompts stay without the mask id |
| BatchSample.SurvivorsTrackPrompts | v2/generation_functions.py:393-398 | surviving rows keep the prompt of their original index |
| BatchSample.SurvivorsKeepUnflagged | v2/generation_functions.py:393-398 | every unflagged row's block index survives |
| BatchSample.SurvivorsAt | v2/generation_functions.py:393-398 | when every row is at one block, so is every survivor |
| BatchSample.DecodeAndMerge | v2/generation_functions.py:197-380 | one block and its write-back: the only errors are IndexError and RuntimeError; every row keeps its prompt; the rows move to the next block; in a state in which no block raises, the block succeeds with a fitting KV cache |
| BatchSample.HealthyMerge | v2/generation_functions.py:197-379 | in a state in which no block raises, the write-back succeeds and the correction's KV cache fits the batch |
| BatchSample.MergeKeepsPrompts | v2/generation_functions.py:197-379 | prompts without the mask id are kept, unmasked, through the block and its corrected write-back |
| BatchSample.PromptsCarry | v2/generation_functions.py:365-379 | a wider grid that agrees with the old one on every prompt position keeps the prompts unmasked and tracked |
| BatchSample.StepWide | v2/generation_functions.py:380-398 | after the rows advance and the finished rows are dropped, `input_ids` still ends before the farthest survivor's block end |
| BatchSample.StepWideAll | v2/generation_functions.py:380-398 | when every row was in this block, every survivor is at the next block, whose end lies past `input_ids` |
| BatchSample.StepWideAhead | v2/generation_functions.py:380-398 | an unfinished row ahead of this block survives with its block, whose end lies past `input_ids` |
| BatchSample.AdvanceFitsCorrection | v2/generation_functions.py:229-245 | with a model whose KV caches have one row per input row, the correction pass's KV cache fits the batch |
| BatchSample.FilterPlaced | v2/generation_functions.py:393-398 | dropping rows keeps every survivor's prompt inside its block |
| BatchSample.BlockStep | v2/generation_functions.py:194-452 | one block raises only IndexError or RuntimeError; on success it keeps the loop invariant for the next block, `input_ids` only grows, `x_t` exists, no saved sample changes, and every live row keeps its original index, prompt and prompt length; in a state in which no block raises it succeeds and the next state is one too |
| BatchSample.DropFinished | v2/generation_functions.py:382-452 | the trim fails, with IndexError, exactly when some row finished and the KV cache does not fit; otherwise the finished rows are saved, the live arrays are the survivors, the loop invariant holds and every saved sample is kept; a fitting KV cache stays fitting |
| BatchSample.DecodeBlocks | v2/generation_functions.py:194-452 | the block loop raises only IndexError or RuntimeError; with no block to run or no live row it changes nothing; after it every original index is saved or live exactly once, `x_t` exists once a block ran, saved samples are kept, and live rows keep their prompts and lengths; in a state in which no block raises it succeeds |
| BatchSample.MaxBlock | v2/generation_functions.py:153 | every prompt's block is at most the longest prompt's block |
| BatchSample.NumBlocks | v2/generation_functions.py:153 | `num_blocks` bounds every prompt's block, strictly when `max_new_tokens` is at least one block |
| BatchSample.NumBlocksBound | v2/generation_functions.py:153 | `max_new_tokens // block_size + seq_len.max() // block_size` reaches every prompt's block, and passes it once one block of new tokens is asked for |
| BatchSample.Collect | v2/generation_functions.py:454-460 | NameError exactly when rows remain but no block ran; otherwise every original index below `batch_size` and no other has a sample, saved ones unchanged and live ones from `x_t` |
| BatchSample.Generate | v2/generation_functions.py:153-460 | a zero small block size raises ZeroDivisionError; NameError comes exactly when no block runs; the only other errors are IndexError and RuntimeError, and under sound settings with `input_ids` as wide as the longest prompt and no prompt holding the mask id no error occurs once a block runs; a result has exactly the keys `0 .. batch_size - 1` |
| BatchSample.BatchSample | v2/generation_functions.py:153-466 | a zero block size or an empty batch fails before any layer is patched; NameError comes exactly when no block runs; the only other errors are ZeroDivisionError, IndexError and RuntimeError, none of which occurs under sound settings; a result has exactly `batch_size` samples, one per original index, so the assertion at line 465 holds, and the layers are back as they were |
| PatchHelper.TargetIndices | v2/generation_functions.py:22-38 | nothing when the subset is falsy or `reuse_k <= 1`; "first" gives `1 .. min(n, 12) - 1`; "middle" gives 12 indices from `max(0, n // 2 - 6)`; "last" gives `n - 12 .. n - 1`; any other value gives nothing |
| PatchHelper.ClampedTargetIndices | v2/generation_functions.py:22-38 | the corrected selection names distinct existing layers in increasing order |
| PatchHelper.ClampedAgreesFromTwelveLayers | v2/generation_functions.py:22-38 | from 12 layers on, the corrected selection is the original one |
| PatchHelper.PyIndex | v2/generation_functions.py:117 | `layers[idx]` exists exactly for `-n <= idx < n`, a negative index counting from the end |
| PatchHelper.Put | v2/generation_functions.py:117 | storing a new key appends it to the insertion-ordered dict |
| PatchHelper.PatchFrom | v2/generation_functions.py:116-120 | patching keeps the number of layers |
| PatchHelper.UnpatchFrom | v2/generation_functions.py:125-129 | restoring keeps the number of layers |
| PatchHelper.PatchLayers | v2/generation_functions.py:116-122 | the imperative patch loop computes `PatchFrom` |
| PatchHelper.UnpatchLayers | v2/generation_functions.py:125-129 | the imperative restore loop computes `UnpatchFrom` |
| PatchHelper.PatchAppends | v2/generation_functions.py:116-122 | patching distinct existing layers never raises and appends one entry per target, keyed by it, in order |
| PatchHelper.PatchThenUnpatchRestores | v2/generation_functions.py:116-129 | patching distinct existing layers and then unpatching gives back the original layer list |
| PatchHelper.ClampedPatchRestores | v2/generation_functions.py:116-129 | with the corrected selection, patching never raises and unpatching restores every layer |
| PatchHelper.PatchRaisesOnMissingLayer | v2/generation_functions.py:116-120 | patching raises IndexError when some target names no layer |
| PatchHelper.MiddleRaisesBelowTwelveLayers | v2/generation_functions.py:34-36 | as written, "middle" on fewer than 12 layers raises IndexError part-way through patching |
| PatchHelper.PatchConcat | v2/generation_functions.py:116-120 | patching `t1 + t2` is patching `t1` and then, unless it raised, `t2` |
| PatchHelper.UnpatchConcat | v2/generation_functions.py:128-129 | restoring `d1 + d2` is restoring `d1` and then, unless it raised, `d2` |
| PatchHelper.PatchRange | v2/generation_functions.py:116-120 | patching a range of fresh keys that name distinct layers wraps each once and appends its original forward |
| PatchHelper.UnpatchRange | v2/generation_functions.py:128-129 | restoring consecutive keys writes their saved forwards back over the positions they name |
| PatchHelper.RestoreCovering | v2/generation_functions.py:128-129 | restoring a run of entries that names every layer gives back the list they were saved from |
| PatchHelper.LastIsTwoRuns | v2/generation_functions.py:37-38 | on six layers "last" is `range(-6, 6)`: every layer's negative alias, then its own index |
| PatchHelper.LastPatchesTwice | v2/generation_functions.py:116-120 | on six layers "last" wraps every layer twice and saves twelve entries |
| PatchHelper.LastRestoresOnce | v2/generation_functions.py:125-129 | restoring those twelve entries in insertion order leaves every layer wrapped once |
| PatchHelper.LastLeavesSixLayersWrapped | v2/generation_functions.py:37-38 | as written, "last" on six layers does not raise, but unpatching leaves every layer wrapped |
| PatchHelper.Decide | v2/generation_functions.py:49-111 | the wrapper runs the original when reuse is disabled; it recomputes and stores exactly when `count % reuse_k == 0` or the KV cache is being updated; otherwise, with an entry, it serves the whole entry exactly when the lengths agree, whatever `replace_position` is, the slice `[replace_pos, replace_pos + len)` exactly when the lengths differ and it fits, and falls back to the original exactly when it does not fit or nothing is cached |
| PatchHelper.ReuseSliceIsSmallBlock | v2/generation_functions.py:85-97 | in the block-cache reuse pass the slice always fits and is exactly small block `idx` |
| PatchHelper.ReuseWrapper.constructor | v2/generation_functions.py:43-45 | a wrapper starts with an empty `layer_cache` |
| PatchHelper.ReuseWrapper.Call | v2/generation_functions.py:47-111 | one call returns what `Decide` chooses, re-wrapped in a tuple when the original returns one; `last_output` changes only on a recompute, to `output[0]` or the output itself |
| LayerReuse.ShapeOf | v2/layer_reuse.py:6-13 | a tensor's shape, and `None` for anything else |
| LayerReuse.SeqLenFromArgs | v2/layer_reuse.py:16-32 | dimension 1 of `args[0]` when that is a tensor of rank at least 2; else of `hidden_states` under the same condition; else unknown |
| LayerReuse.SelectReuseLayers | v2/layer_reuse.py:62-78 | `None` selects all `n` layers; "first", "middle" and "last" select `min(12, n)` consecutive existing layers starting at 0, at `n // 2 - min(12, n) // 2`, or ending at `n - 1`; a list is kept as given |
| LayerReuse.FirstDisagreesOnLayerZero | v2/layer_reuse.py:70-71 | the controller's "first" includes layer 0, and the patch helper's does not |
| LayerReuse.LayerReuseController.constructor | v2/layer_reuse.py:41-78 | `reuse_k` is clamped to at least 1; the subset is selected from the layer count; the controller starts disabled, with counter 0 and empty dictionaries |
| LayerReuse.LayerReuseController.Call | v2/layer_reuse.py:88-147 | a cached output is returned only when the controller is enabled, the layer is in the subset, `reuse_k > 1`, `counter % reuse_k != 0`, the call is not stateful, the recorded length equals the known current one, and an entry exists; it was then stored fewer than `reuse_k` passes ago; otherwise the computed output is returned and stored, with its length, exactly when enabled, in the subset and not stateful; with `reuse_k == 1` nothing is ever reused |
| LayerReuse.LayerReuseController.EnableReuse | v2/layer_reuse.py:154-167 | a no-op when already enabled; otherwise it enables, resets the counter and empties the cache; it wraps exactly the subset layers that exist, and unwrapping gives back the old `forward`s |
| LayerReuse.LayerReuseController.DisableReuse | v2/layer_reuse.py:169-179 | a no-op when already disabled; otherwise it restores every original `forward`, empties both dictionaries, disables and resets the counter |
| LayerReuse.LayerReuseController.Step | v2/layer_reuse.py:181-196 | a no-op when disabled; otherwise the counter grows by exactly one, and the cache is emptied exactly when the counter lands on a multiple of `reuse_k` |
| LayerReuse.EnableThenDisable | v2/layer_reuse.py:154-179 | enabling and then disabling gives every layer back its `forward` and leaves the controller disabled, with counter 0 and an empty cache |

## Left out

- The model's forward pass, top-p sampling, temperature and argmax over logits are floating-point numerics. They are the opaque `Oracles`: a forward pass is known only by its request, and the sampler only by the token and probability it returns.
- `v2/log_utils.py` is not part of this model; it does file, clock and JSON I/O only.
- `mdm_sample_with_visualization` and the model setup after line 468 are not part of this model. They are presentation code.
- Devices, dtypes, `torch.no_grad`, `int()` conversions, `.item()` and `.clone()` are left out. Values are plain integers, and a clone is a value copy.
- BatchSample.BatchSample, BatchSample.Generate, BatchSample.DecodeBlocks, BatchSample.BlockStep and BatchSample.DecodeBlock require small blocks that tile a block and a sampler that never proposes the mask id. Without these the source's `while True` loops need not terminate: a masked tail past the last small block, or a sampled mask id, is never resolved. The model covers only the terminating case.
- BatchSample.BatchSample and BatchSample.Generate require every prompt length to lie between `min_len` and the width of `input_ids`. This is the contract of `batch_sample`'s callers (`min_len` the shortest prompt, `input_ids` as wide as the longest). Under it the prefill's concatenation at line 179 cannot fail. `RunPrefill` itself also models that failure.
- BatchSample.BlockStep writes each block back with the corrected `Merge`, not with `MergeAsWritten` (see Findings). As written, a row whose prompt runs past the block can lose prompt tokens, and its prompt-keeping guarantee would not hold.
- BatchSample.DecodeAndMerge, BatchSample.DecodeBlocks, BatchSample.Generate and BatchSample.BatchSample rely on that same corrected write-back, through `BlockStep`.
- BatchSample.BatchSample, BatchSample.Generate, BatchSample.DecodeBlocks and BatchSample.BlockStep promise that no block raises only under `Sound` settings: blocks of at least two positions, a stop token other than the mask id, and a model whose KV caches have one row per input row. They also need `input_ids` exactly as wide as the longest prompt and no prompt holding the mask id. With a block size of 1 every width is block-aligned, so the padding at line 199 always appends a whole block. Once `input_ids` already covers the block being decoded, that padding goes one position past it. This happens at the block after any write-back that takes the concatenation at line 369, which leaves `input_ids` `b + 2` wide when block `b + 1` comes next. It also happens at the first block after the prefill's extra column. Then `x_t[:, :-1]` is wider than `input_ids[:, :(b + 1) * bs]`, and the write-back at line 368 raises RuntimeError. Outside these settings the model states only which errors can occur.
- BatchSample.MergeTail: `torch` would broadcast a one-column `x_t` into `input_ids` at line 368. The model treats every width mismatch as a RuntimeError.
- BatchSample.BatchSample patches layers with the corrected `ClampedTargetIndices` (see Findings). On the error paths after patching, the layers are left patched, as in the source. The patching itself is a call into `PatchHelper`, not a pass over shared objects, so aliasing of the layer list between the model and the helper is not captured.
- The branch at v2/generation_functions.py:401-408 trims `reuse_state["caches"]`, but `reuse_state` only ever holds `count` and `enabled`, so the branch is dead. It is not modelled. The wrappers' private caches are therefore not trimmed when rows are dropped.
- PatchHelper.ReuseWrapper.Call uses the original `forward`'s result at line 106 only to decide whether to re-wrap the reused tensor in a tuple. Any side effect of that extra call is not modelled.
- `types.MethodType` and attribute assignment on layer objects are modelled as the `Forward` slot values `Own`/`Wrapped`. A bound versus unbound `orig_forward` (v2/layer_reuse.py:84-86, 130-134) is not distinguished: the wrapper's computed output is the parameter `computed`.
- The controller's detection of `.model.layers` versus `.layers` (v2/layer_reuse.py:49-54) is left out; the constructor receives the layer list.
- LayerReuse.LayerReuseController.Call keeps the `("meta", idx)` entries of the single `cache` dictionary as a separate map `meta`. `storedAt` is a proof-only field recording when each output was stored.
- The `step` counter of `batch_sample` (lines 210, 245, 362) is never read and is left out.

## Findings

| source | as written | input that shows it | evidently intended | confidence | as-written member | corrected member |
|---|---|---|---|---|---|---|
| v2/generation_functions.py:34-36 | "middle" always selects 12 consecutive indices starting at `max(0, n // 2 - 6)` | a model with 6 layers and `reuse_k = 2`: indices `0 .. 11`; patching wraps layers 0-5 and then raises IndexError at index 6, leaving them wrapped | the subset size is clamped to `min(12, n)`, as v2/layer_reuse.py:63 does | not executed; high | PatchHelper.MiddleRaisesBelowTwelveLayers | PatchHelper.ClampedPatchRestores |
| v2/generation_functions.py:37-38 | "last" selects `range(n - 12, n)` | a model with 6 layers: `range(-6, 6)` names every layer twice; the second patch wraps the wrapper, and unpatching in insertion order leaves every layer wrapped once | the subset size is clamped to `min(12, n)`, so that each layer is patched once and unpatching restores it | not executed; high | PatchHelper.LastLeavesSixLayersWrapped | PatchHelper.ClampedPatchRestores |
| v2/generation_functions.py:365-366 | when `input_ids` and `x_t` are equally wide, `input_ids` is replaced by `x_t` wholesale | block size 2, block 0, `input_ids = [[7,0,0],[7,8,9]]`, `seq_block_idx = [0,1]`, `x_t = [[7,4,5],[7,8,6]]`: the second row's prompt token 9 at position 2 becomes the predicted 6 | a row whose prompt runs past the block keeps its own tokens after the block, as the in-place branch at lines 375-379 does | not executed; medium | BatchSample.MergeOverwritesPrompt | BatchSample.MergePreservesPrompts, BatchSample.MergeKeepsPrompt |
