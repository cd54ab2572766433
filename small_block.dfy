/**
 * The small-block loop of `batch_sample` (v2/generation_functions.py:248-361):
 * one gated unmasking step over the whole batch, the `while True` loop that
 * repeats it until a small block holds no mask id, and the loop over the
 * small blocks of one block, together with the block-cache recompute rule.
 */
module SmallBlock {
  import opened Common
  import opened BlockLayout
  import opened Gating
  import opened PatchHelper

  /** The arguments of `batch_sample` that the bookkeeping reads. */
  datatype Params = Params(
    blockSize: nat, smallBlockSize: nat, reuseK: int,
    maskId: int, stopToken: int, padId: int,
    threshold: real, useBlockCache: bool)

  /** Small blocks tile a block exactly: without this the loop at line 214 never ends on a masked tail. */
  predicate Tiles(p: Params)
  {
    0 < p.smallBlockSize && 0 < p.blockSize && p.blockSize % p.smallBlockSize == 0
  }

  /** Which forward pass is asked for. */
  datatype EvalMode =
    | Prefill                              // lines 167-172
    | FullBlock                            // lines 332-337: no block cache
    | BlockCacheRecompute                  // lines 292-300
    | BlockCacheReuse(replacePosition: nat) // lines 311-320
    | Correction                           // lines 234-240

  /**
   * Everything a forward pass can depend on: its input tokens, the mode, the
   * KV cache, the block cache (represented by the window it was computed
   * from) and the shared reuse state the patched layers read.
   */
  datatype EvalRequest<K> = EvalRequest(
    tokens: seq<seq<int>>, mode: EvalMode, past: K,
    blockCache: Option<seq<seq<int>>>, reuse: ReuseState)

  /**
   * The model and the sampler: `logit(req, r, q)` is row `r`, position `q` of
   * the logits; `sample` is the top-p sampler on one position, returning the
   * token and the probability gathered at it; `nextToken(req, r)` is the argmax
   * at the last position; `advance(req)` is the KV cache after an updating pass.
   */
  datatype Oracles<!K, !L> = Oracles(
    logit: (EvalRequest<K>, nat, nat) -> L,
    sample: L -> (int, real),
    nextToken: (EvalRequest<K>, nat) -> int,
    advance: EvalRequest<K> -> K)

  /** The sampler never proposes the mask id (it is an added special token, not a word). */
  ghost predicate SamplerAvoidsMask<K, L(!new)>(o: Oracles<K, L>, maskId: int)
  {
    forall l :: o.sample(l).0 != maskId
  }

  /** State carried across iterations within one block. */
  datatype LoopState = LoopState(reuseStep: nat, blockCache: Option<seq<seq<int>>>, reuse: ReuseState)

  /** Every row is at least `n` wide. */
  predicate AtLeast(rows: seq<seq<int>>, n: nat)
  {
    forall r :: 0 <= r < |rows| ==> n <= |rows[r]|
  }

  /** `mask_idx[:, start:end].sum()`: mask ids in positions `[lo, hi)` over all rows. */
  function SpanMasks(rows: seq<seq<int>>, lo: nat, hi: nat, maskId: int): nat
    requires lo <= hi && AtLeast(rows, hi)
  {
    if rows == [] then 0 else Count(rows[0][lo..hi], maskId) + SpanMasks(rows[1..], lo, hi, maskId)
  }

  lemma {:induction false} SpanMasksZero(rows: seq<seq<int>>, lo: nat, hi: nat, maskId: int)
    requires lo <= hi && AtLeast(rows, hi)
    ensures SpanMasks(rows, lo, hi, maskId) == 0 <==>
      forall r, i :: 0 <= r < |rows| && lo <= i < hi ==> rows[r][i] != maskId
  {
    if rows != [] {
      SpanMasksZero(rows[1..], lo, hi, maskId);
      CountZero(rows[0][lo..hi], maskId);
      assert forall i :: lo <= i < hi ==> rows[0][lo..hi][i - lo] == rows[0][i];
      assert forall r :: 1 <= r < |rows| ==> rows[r] == rows[1..][r - 1];
    }
  }

  /** Row-wise shrinking mask counts shrink the total, strictly when the total was positive. */
  lemma {:induction false} SpanMasksShrink(a: seq<seq<int>>, b: seq<seq<int>>, lo: nat, hi: nat, maskId: int)
    requires |a| == |b| && lo <= hi && AtLeast(a, hi) && AtLeast(b, hi)
    requires forall r :: 0 <= r < |a| ==> RowShrinks(a[r], b[r], lo, hi, maskId)
    ensures SpanMasks(b, lo, hi, maskId) <= SpanMasks(a, lo, hi, maskId)
    ensures SpanMasks(a, lo, hi, maskId) > 0 ==> SpanMasks(b, lo, hi, maskId) < SpanMasks(a, lo, hi, maskId)
  {
    if a != [] {
      assert RowShrinks(a[0], b[0], lo, hi, maskId);
      assert forall r :: 0 <= r < |a| - 1 ==> a[1..][r] == a[r + 1] && b[1..][r] == b[r + 1];
      SpanMasksShrink(a[1..], b[1..], lo, hi, maskId);
    }
  }

  /** The last `bs` positions of every row: `x_t[:, -block_size:]`. */
  function Window(rows: seq<seq<int>>, w: nat, bs: nat): (win: seq<seq<int>>)
    requires Rect(rows, w) && bs <= w
    ensures |win| == |rows| && Rect(win, bs)
    ensures forall r, i :: 0 <= r < |rows| && 0 <= i < bs ==> win[r][i] == rows[r][w - bs + i]
  {
    seq(|rows|, r requires 0 <= r < |rows| => rows[r][w - bs..])
  }

  /** Lines 280-288: recompute unless every reason to recompute is absent. */
  predicate ShouldRecompute(p: Params, st: LoopState, rows: seq<seq<int>>, pos: nat)
    requires AtLeast(rows, pos + 1)
  {
    st.blockCache.None? || p.reuseK <= 1 || st.reuseStep % p.reuseK == 0
    || exists r :: 0 <= r < |rows| && rows[r][pos] == p.maskId
  }

  /**
   * The forward pass one inner iteration asks for (lines 269-334), with the
   * reuse state the patched layers see during it.
   */
  function StepRequest<K>(p: Params, past: K, rows: seq<seq<int>>, w: nat, st: LoopState, start: nat): (req: EvalRequest<K>)
    requires Tiles(p) && Rect(rows, w) && p.blockSize <= w && start + p.smallBlockSize <= p.blockSize
    ensures req.mode.FullBlock? <==> !p.useBlockCache
    ensures req.mode.FullBlock? || req.mode.BlockCacheRecompute? || req.mode.BlockCacheReuse?
    ensures req.mode.BlockCacheReuse? <==>
      && p.useBlockCache && st.blockCache.Some? && p.reuseK > 1 && st.reuseStep % p.reuseK != 0
      && forall r :: 0 <= r < |rows| ==> rows[r][w - p.blockSize + start] != p.maskId
    ensures req.mode.BlockCacheReuse? ==>
      && req.mode.replacePosition == start && req.blockCache == st.blockCache
      && |req.tokens| == |rows| && Rect(req.tokens, p.smallBlockSize)
      && forall r, j :: 0 <= r < |rows| && 0 <= j < p.smallBlockSize ==>
           req.tokens[r][j] == rows[r][w - p.blockSize + start + j]
    ensures !req.mode.BlockCacheReuse? ==> req.tokens == Window(rows, w, p.blockSize) && req.blockCache.None?
    ensures req.past == past
    ensures p.useBlockCache ==> req.reuse == ReuseState(st.reuseStep, st.reuse.enabled)
    ensures !p.useBlockCache ==> req.reuse == ReuseState(st.reuse.count, false)
  {
    var bs, sbs := p.blockSize, p.smallBlockSize;
    var lo := w - bs + start;
    if !p.useBlockCache then
      EvalRequest(Window(rows, w, bs), FullBlock, past, None, ReuseState(st.reuse.count, false))
    else
      var reuse := ReuseState(st.reuseStep, st.reuse.enabled);
      if ShouldRecompute(p, st, rows, lo) then
        EvalRequest(Window(rows, w, bs), BlockCacheRecompute, past, None, reuse)
      else
        SmallBlockSpanInWindow(w, bs, start, start + sbs);
        var span := SmallBlockSpan(w, bs, start, start + sbs);
        EvalRequest(seq(|rows|, r requires 0 <= r < |rows| => rows[r][span.0..span.1]),
                    BlockCacheReuse(start), past, st.blockCache, reuse)
  }

  /** The logits of row `r` from a forward over `width` positions, realigned by one (lines 304-306, 321-323). */
  function ShiftedLogits<K, L>(o: Oracles<K, L>, req: EvalRequest<K>, r: nat, width: nat): (l: seq<L>)
    ensures |l| == width
  {
    ShiftRight(seq(width, q requires 0 <= q < width => o.logit(req, r, q)))
  }

  /** The logits of the small block: a slice of the realigned block logits, or the realigned small-block logits on the reuse path. */
  function SpanLogits<K, L>(p: Params, o: Oracles<K, L>, req: EvalRequest<K>, r: nat, start: nat): (l: seq<L>)
    requires Tiles(p) && start + p.smallBlockSize <= p.blockSize
    ensures |l| == p.smallBlockSize
  {
    if req.mode.BlockCacheReuse? then ShiftedLogits(o, req, r, p.smallBlockSize)
    else
      SmallBlockSpanInWindow(p.blockSize, p.blockSize, start, start + p.smallBlockSize);
      var span := SmallBlockSpan(p.blockSize, p.blockSize, start, start + p.smallBlockSize);
      ShiftedLogits(o, req, r, p.blockSize)[span.0..span.1]
  }

  /**
   * Position `j` of the small block reads the logit one position earlier in
   * the forward's output, except the forward's first position, which reads
   * its own: on the reuse path the forward starts at the small block, and
   * otherwise at the window.
   */
  lemma SpanLogitsShift<K, L>(p: Params, o: Oracles<K, L>, req: EvalRequest<K>, r: nat, start: nat, j: nat)
    requires Tiles(p) && start + p.smallBlockSize <= p.blockSize && j < p.smallBlockSize
    ensures var l := SpanLogits(p, o, req, r, start);
      && (req.mode.BlockCacheReuse? ==> l[j] == o.logit(req, r, if j == 0 then 0 else j - 1))
      && (!req.mode.BlockCacheReuse? ==> l[j] == o.logit(req, r, if start + j == 0 then 0 else start + j - 1))
  {
  }

  /** `x_1`: the sampled token at each small-block position of row `r`. */
  function Sampled<K, L>(p: Params, o: Oracles<K, L>, req: EvalRequest<K>, r: nat, start: nat): (t: seq<int>)
    requires Tiles(p) && start + p.smallBlockSize <= p.blockSize
    ensures |t| == p.smallBlockSize
  {
    var l := SpanLogits(p, o, req, r, start);
    seq(|l|, j requires 0 <= j < |l| => o.sample(l[j]).0)
  }

  /** `x1_p` before masking: the probability of each sampled token of row `r`. */
  function SampledProbs<K, L>(p: Params, o: Oracles<K, L>, req: EvalRequest<K>, r: nat, start: nat): (s: seq<real>)
    requires Tiles(p) && start + p.smallBlockSize <= p.blockSize
    ensures |s| == p.smallBlockSize
  {
    var l := SpanLogits(p, o, req, r, start);
    seq(|l|, j requires 0 <= j < |l| => o.sample(l[j]).1)
  }

  datatype StepOut<K> = StepOut(rows: seq<seq<int>>, flags: seq<bool>, st: LoopState, req: EvalRequest<K>)

  /** Row `r` after the commit of line 357. */
  function RowAfterStep<K, L>(p: Params, o: Oracles<K, L>, req: EvalRequest<K>, row: seq<int>, r: nat, lo: nat, start: nat): (row': seq<int>)
    requires Tiles(p) && start + p.smallBlockSize <= p.blockSize && lo + p.smallBlockSize <= |row|
    ensures |row'| == |row|
  {
    UnmaskRow(row, lo, lo + p.smallBlockSize, Sampled(p, o, req, r, start), SampledProbs(p, o, req, r, start), p.threshold, p.maskId)
  }

  /** `finished_row_flags` of row `r` (lines 358-360). */
  predicate RowStopped<K, L>(p: Params, o: Oracles<K, L>, req: EvalRequest<K>, row: seq<int>, r: nat, lo: nat, start: nat)
    requires Tiles(p) && start + p.smallBlockSize <= p.blockSize && lo + p.smallBlockSize <= |row|
  {
    StopCommitted(Sampled(p, o, req, r, start),
                  Gate(SampledProbs(p, o, req, r, start), SpanMask(row, lo, lo + p.smallBlockSize, p.maskId), p.threshold),
                  p.stopToken)
  }

  /** Line 357 over the batch: every row gets its gated commit. */
  function StepRows<K, L>(p: Params, o: Oracles<K, L>, req: EvalRequest<K>, rows: seq<seq<int>>, w: nat, start: nat)
    : (rows': seq<seq<int>>)
    requires Tiles(p) && Rect(rows, w) && p.blockSize <= w && start + p.smallBlockSize <= p.blockSize
    ensures |rows'| == |rows| && Rect(rows', w)
    ensures forall r :: 0 <= r < |rows| ==> rows'[r] == RowAfterStep(p, o, req, rows[r], r, w - p.blockSize + start, start)
  {
    seq(|rows|, r requires 0 <= r < |rows| => RowAfterStep(p, o, req, rows[r], r, w - p.blockSize + start, start))
  }

  /** Line 361 over the batch: `finished_flag | finished_row_flags`. */
  function StepFlagVec<K, L>(p: Params, o: Oracles<K, L>, req: EvalRequest<K>, rows: seq<seq<int>>, w: nat,
                             flags: seq<bool>, start: nat): (flags': seq<bool>)
    requires Tiles(p) && Rect(rows, w) && p.blockSize <= w && start + p.smallBlockSize <= p.blockSize
    requires |flags| == |rows|
    ensures |flags'| == |rows|
    ensures forall r :: 0 <= r < |rows| ==>
      flags'[r] == (flags[r] || RowStopped(p, o, req, rows[r], r, w - p.blockSize + start, start))
  {
    seq(|rows|, r requires 0 <= r < |rows| => flags[r] || RowStopped(p, o, req, rows[r], r, w - p.blockSize + start, start))
  }

  /** One iteration of the loop at lines 264-361 over the whole batch. */
  function Step<K, L>(p: Params, o: Oracles<K, L>, past: K, rows: seq<seq<int>>, w: nat, flags: seq<bool>,
                      st: LoopState, start: nat): (out: StepOut<K>)
    requires Tiles(p) && Rect(rows, w) && p.blockSize <= w && start + p.smallBlockSize <= p.blockSize
    requires |flags| == |rows|
    ensures out.req == StepRequest(p, past, rows, w, st, start)
    ensures out.rows == StepRows(p, o, out.req, rows, w, start)
    ensures out.flags == StepFlagVec(p, o, out.req, rows, w, flags, start)
    ensures out.st.reuseStep == (if p.useBlockCache then st.reuseStep + 1 else st.reuseStep)
    ensures out.st.reuse == out.req.reuse
    ensures p.useBlockCache || st.blockCache.Some? ==> out.st.blockCache.Some?
  {
    var req := StepRequest(p, past, rows, w, st, start);
    var newSt := LoopState(
      if p.useBlockCache then st.reuseStep + 1 else st.reuseStep,
      if req.mode.BlockCacheRecompute? then Some(Window(rows, w, p.blockSize)) else st.blockCache,
      req.reuse);
    StepOut(StepRows(p, o, req, rows, w, start), StepFlagVec(p, o, req, rows, w, flags, start), newSt, req)
  }

  /**
   * Only masked positions of the small block change, each to the token
   * sampled for it, and every masked position whose probability clears the
   * threshold is committed.
   */
  lemma StepChangesOnlyMasks<K, L>(p: Params, o: Oracles<K, L>, req: EvalRequest<K>, rows: seq<seq<int>>, w: nat, start: nat,
                                   rows': seq<seq<int>>, lo: nat, hi: nat)
    requires Tiles(p) && Rect(rows, w) && p.blockSize <= w && start + p.smallBlockSize <= p.blockSize
    requires rows' == StepRows(p, o, req, rows, w, start) && lo == w - p.blockSize + start && hi == lo + p.smallBlockSize
    ensures forall r, i :: 0 <= r < |rows| && 0 <= i < w && rows'[r][i] != rows[r][i] ==>
              && lo <= i < hi && rows[r][i] == p.maskId
              && rows'[r][i] == Sampled(p, o, req, r, start)[i - lo]
    ensures forall r, j :: (0 <= r < |rows| && 0 <= j < p.smallBlockSize && rows[r][lo + j] == p.maskId
                            && SampledProbs(p, o, req, r, start)[j] > p.threshold) ==>
              rows'[r][lo + j] == Sampled(p, o, req, r, start)[j]
  {
    forall r | 0 <= r < |rows|
      ensures forall i :: 0 <= i < w && rows'[r][i] != rows[r][i] ==>
              lo <= i < hi && rows[r][i] == p.maskId && rows'[r][i] == Sampled(p, o, req, r, start)[i - lo]
      ensures forall j :: 0 <= j < p.smallBlockSize && rows[r][lo + j] == p.maskId && SampledProbs(p, o, req, r, start)[j] > p.threshold ==>
              rows'[r][lo + j] == Sampled(p, o, req, r, start)[j]
    {
      RowChangesOnlyMasks(p, o, req, rows, w, start, rows', lo, hi, r);
    }
  }

  /** Row `r`'s share of `StepChangesOnlyMasks`, for `rows'` the rows after the step and `[lo, hi)` the small block. */
  lemma RowChangesOnlyMasks<K, L>(p: Params, o: Oracles<K, L>, req: EvalRequest<K>, rows: seq<seq<int>>, w: nat, start: nat,
                                  rows': seq<seq<int>>, lo: nat, hi: nat, r: nat)
    requires Tiles(p) && Rect(rows, w) && p.blockSize <= w && start + p.smallBlockSize <= p.blockSize && r < |rows|
    requires rows' == StepRows(p, o, req, rows, w, start) && lo == w - p.blockSize + start && hi == lo + p.smallBlockSize
    ensures forall i :: 0 <= i < w && rows'[r][i] != rows[r][i] ==>
              lo <= i < hi && rows[r][i] == p.maskId && rows'[r][i] == Sampled(p, o, req, r, start)[i - lo]
    ensures forall j :: 0 <= j < p.smallBlockSize && rows[r][lo + j] == p.maskId && SampledProbs(p, o, req, r, start)[j] > p.threshold ==>
              rows'[r][lo + j] == Sampled(p, o, req, r, start)[j]
  {
    var s, pr := Sampled(p, o, req, r, start), SampledProbs(p, o, req, r, start);
    UnmaskRowSpec(rows[r], lo, hi, s, pr, p.threshold, p.maskId);
    assert rows'[r] == UnmaskRow(rows[r], lo, hi, s, pr, p.threshold, p.maskId);
  }

  /** `b` arose from `a` by turning mask ids inside `[lo, hi)` into other tokens, and nothing else. */
  predicate Evolves(a: seq<seq<int>>, b: seq<seq<int>>, w: nat, lo: nat, hi: nat, maskId: int)
  {
    && Rect(a, w) && Rect(b, w) && |a| == |b|
    && forall r, i :: 0 <= r < |a| && 0 <= i < w && b[r][i] != a[r][i] ==>
         lo <= i < hi && a[r][i] == maskId && b[r][i] != maskId
  }

  /** Row `r` went from a mask id to the stop token somewhere in `[lo, hi)`. */
  predicate Committed(a: seq<seq<int>>, b: seq<seq<int>>, r: nat, lo: nat, hi: nat, maskId: int, stop: int)
    requires r < |a| && r < |b| && AtLeast(a, hi) && AtLeast(b, hi)
  {
    exists i :: lo <= i < hi && a[r][i] == maskId && b[r][i] == stop
  }

  /** With a stop token distinct from the mask id, a row's flag is set after a step exactly when it was set before or the row committed a stop token. */
  lemma StepFlags<K, L>(p: Params, o: Oracles<K, L>, req: EvalRequest<K>, rows: seq<seq<int>>, w: nat, flags: seq<bool>, start: nat)
    requires Tiles(p) && Rect(rows, w) && p.blockSize <= w && start + p.smallBlockSize <= p.blockSize
    requires |flags| == |rows| && p.stopToken != p.maskId
    ensures var lo := w - p.blockSize + start;
      var rows' := StepRows(p, o, req, rows, w, start);
      var flags' := StepFlagVec(p, o, req, rows, w, flags, start);
      forall r :: 0 <= r < |rows| ==>
        (flags'[r] <==> flags[r] || Committed(rows, rows', r, lo, lo + p.smallBlockSize, p.maskId, p.stopToken))
  {
    var lo := w - p.blockSize + start;
    var hi := lo + p.smallBlockSize;
    var rows' := StepRows(p, o, req, rows, w, start);
    var flags' := StepFlagVec(p, o, req, rows, w, flags, start);
    forall r | 0 <= r < |rows|
      ensures flags'[r] <==> flags[r] || Committed(rows, rows', r, lo, hi, p.maskId, p.stopToken)
    {
      StopCommittedIff(rows[r], lo, hi, Sampled(p, o, req, r, start), SampledProbs(p, o, req, r, start), p.threshold, p.maskId, p.stopToken);
    }
  }

  /** A sampler that never proposes the mask id never yields it at any small-block position. */
  lemma SampledAvoidsMask<K, L(!new)>(p: Params, o: Oracles<K, L>, req: EvalRequest<K>, r: nat, start: nat)
    requires Tiles(p) && start + p.smallBlockSize <= p.blockSize && SamplerAvoidsMask(o, p.maskId)
    ensures forall j :: 0 <= j < p.smallBlockSize ==> Sampled(p, o, req, r, start)[j] != p.maskId
  {
    var l := SpanLogits(p, o, req, r, start);
    forall j | 0 <= j < p.smallBlockSize
      ensures Sampled(p, o, req, r, start)[j] != p.maskId
    {
      assert Sampled(p, o, req, r, start)[j] == o.sample(l[j]).0;
    }
  }

  /** Row `r`'s share of a step's progress, for `rows'` the rows after the step and `[lo, hi)` the small block. */
  lemma RowProgress<K, L(!new)>(p: Params, o: Oracles<K, L>, req: EvalRequest<K>, rows: seq<seq<int>>, w: nat, start: nat,
                                rows': seq<seq<int>>, lo: nat, hi: nat, r: nat)
    requires Tiles(p) && Rect(rows, w) && p.blockSize <= w && start + p.smallBlockSize <= p.blockSize
    requires SamplerAvoidsMask(o, p.maskId) && r < |rows|
    requires rows' == StepRows(p, o, req, rows, w, start) && lo == w - p.blockSize + start && hi == lo + p.smallBlockSize
    ensures forall i :: 0 <= i < w && rows'[r][i] != rows[r][i] ==> lo <= i < hi && rows[r][i] == p.maskId && rows'[r][i] != p.maskId
    ensures RowShrinks(rows[r], rows'[r], lo, hi, p.maskId)
  {
    var s, pr := Sampled(p, o, req, r, start), SampledProbs(p, o, req, r, start);
    SampledAvoidsMask(p, o, req, r, start);
    UnmaskRowSpec(rows[r], lo, hi, s, pr, p.threshold, p.maskId);
    assert rows'[r] == UnmaskRow(rows[r], lo, hi, s, pr, p.threshold, p.maskId);
  }

  /**
   * With a sampler that never proposes the mask id, a step only turns mask
   * ids of the small block into other tokens, and strictly lowers the small
   * block's mask count while it is positive.
   */
  lemma StepProgress<K, L(!new)>(p: Params, o: Oracles<K, L>, req: EvalRequest<K>, rows: seq<seq<int>>, w: nat, start: nat,
                                 rows': seq<seq<int>>, lo: nat, hi: nat)
    requires Tiles(p) && Rect(rows, w) && p.blockSize <= w && start + p.smallBlockSize <= p.blockSize
    requires SamplerAvoidsMask(o, p.maskId)
    requires rows' == StepRows(p, o, req, rows, w, start) && lo == w - p.blockSize + start && hi == lo + p.smallBlockSize
    ensures Evolves(rows, rows', w, lo, hi, p.maskId)
    ensures SpanMasks(rows', lo, hi, p.maskId) <= SpanMasks(rows, lo, hi, p.maskId)
    ensures SpanMasks(rows, lo, hi, p.maskId) > 0 ==> SpanMasks(rows', lo, hi, p.maskId) < SpanMasks(rows, lo, hi, p.maskId)
  {
    RowsProgress(p, o, req, rows, w, start, rows', lo, hi);
    SpanMasksShrink(rows, rows', lo, hi, p.maskId);
  }

  /** Every row's share of a step's progress. */
  lemma RowsProgress<K, L(!new)>(p: Params, o: Oracles<K, L>, req: EvalRequest<K>, rows: seq<seq<int>>, w: nat, start: nat,
                                 rows': seq<seq<int>>, lo: nat, hi: nat)
    requires Tiles(p) && Rect(rows, w) && p.blockSize <= w && start + p.smallBlockSize <= p.blockSize
    requires SamplerAvoidsMask(o, p.maskId)
    requires rows' == StepRows(p, o, req, rows, w, start) && lo == w - p.blockSize + start && hi == lo + p.smallBlockSize
    ensures Evolves(rows, rows', w, lo, hi, p.maskId)
    ensures forall r :: 0 <= r < |rows| ==> RowShrinks(rows[r], rows'[r], lo, hi, p.maskId)
  {
    forall r | 0 <= r < |rows|
      ensures forall i :: 0 <= i < w && rows'[r][i] != rows[r][i] ==> lo <= i < hi && rows[r][i] == p.maskId && rows'[r][i] != p.maskId
      ensures RowShrinks(rows[r], rows'[r], lo, hi, p.maskId)
    {
      RowProgress(p, o, req, rows, w, start, rows', lo, hi, r);
    }
  }

  /** Two evolutions compose, and a stop commit of the composition is a stop commit of one of the two. */
  lemma EvolvesTrans(a: seq<seq<int>>, b: seq<seq<int>>, c: seq<seq<int>>, w: nat, lo: nat, hi: nat, maskId: int, stop: int)
    requires hi <= w && Evolves(a, b, w, lo, hi, maskId) && Evolves(b, c, w, lo, hi, maskId)
    ensures Evolves(a, c, w, lo, hi, maskId)
    ensures stop != maskId ==> forall r :: 0 <= r < |a| ==>
      (Committed(a, c, r, lo, hi, maskId, stop) <==> Committed(a, b, r, lo, hi, maskId, stop) || Committed(b, c, r, lo, hi, maskId, stop))
  {
    if stop != maskId {
      forall r | 0 <= r < |a|
        ensures Committed(a, c, r, lo, hi, maskId, stop) <==> Committed(a, b, r, lo, hi, maskId, stop) || Committed(b, c, r, lo, hi, maskId, stop)
      {
        if Committed(a, b, r, lo, hi, maskId, stop) {
          var i :| lo <= i < hi && a[r][i] == maskId && b[r][i] == stop;
          assert c[r][i] == stop;
        }
        if Committed(b, c, r, lo, hi, maskId, stop) {
          var i :| lo <= i < hi && b[r][i] == maskId && c[r][i] == stop;
          assert a[r][i] == maskId;
        }
        if Committed(a, c, r, lo, hi, maskId, stop) {
          var i :| lo <= i < hi && a[r][i] == maskId && c[r][i] == stop;
          if b[r][i] == maskId {
            assert Committed(b, c, r, lo, hi, maskId, stop);
          } else {
            assert Committed(a, b, r, lo, hi, maskId, stop);
          }
        }
      }
    }
  }

  /** An evolution confined to `[lo, hi)` commits a stop token inside `[lo, hi)` exactly when it commits one inside any wider range. */
  lemma CommittedWiden(a: seq<seq<int>>, b: seq<seq<int>>, w: nat, lo: nat, hi: nat, lo2: nat, hi2: nat, maskId: int, stop: int)
    requires lo2 <= lo && hi <= hi2 <= w && Evolves(a, b, w, lo, hi, maskId) && stop != maskId
    ensures Evolves(a, b, w, lo2, hi2, maskId)
    ensures forall r :: 0 <= r < |a| ==>
      (Committed(a, b, r, lo, hi, maskId, stop) <==> Committed(a, b, r, lo2, hi2, maskId, stop))
  {
    forall r | 0 <= r < |a| && Committed(a, b, r, lo2, hi2, maskId, stop)
      ensures Committed(a, b, r, lo, hi, maskId, stop)
    {
      var i :| lo2 <= i < hi2 && a[r][i] == maskId && b[r][i] == stop;
      assert lo <= i < hi;
    }
  }

  /**
   * What holds after `iters` passes of the small-block loop over `[lo, hi)`:
   * only mask ids inside the window changed, each pass removed at least one,
   * flags were only ever set, and exactly for the rows that committed a stop
   * token; the reuse step counts the passes when the block cache is on.
   */
  ghost predicate SmallInv(p: Params, rows0: seq<seq<int>>, w: nat, flags0: seq<bool>, st0: LoopState, lo: nat, hi: nat,
                           rows: seq<seq<int>>, flags: seq<bool>, st: LoopState, iters: nat)
  {
    && lo <= hi <= w && Evolves(rows0, rows, w, lo, hi, p.maskId)
    && iters + SpanMasks(rows, lo, hi, p.maskId) <= SpanMasks(rows0, lo, hi, p.maskId)
    && |flags0| == |rows0| && |flags| == |rows0| && (forall r :: 0 <= r < |rows0| && flags0[r] ==> flags[r])
    && (p.stopToken != p.maskId ==> forall r :: 0 <= r < |rows0| ==>
          (flags[r] <==> flags0[r] || Committed(rows0, rows, r, lo, hi, p.maskId, p.stopToken)))
    && st.reuseStep == st0.reuseStep + (if p.useBlockCache then iters else 0)
    && (p.useBlockCache ==> st.reuse.enabled == st0.reuse.enabled && (iters > 0 ==> st.blockCache.Some?))
    && (!p.useBlockCache && iters > 0 ==> !st.reuse.enabled)
    && (iters == 0 ==> st == st0)
    && (st0.blockCache.Some? ==> st.blockCache.Some?)
  }

  /** One pass of the small-block loop keeps `SmallInv` and removes at least one mask id from the window. */
  lemma SmallStep<K, L(!new)>(p: Params, o: Oracles<K, L>, past: K, rows0: seq<seq<int>>, w: nat, flags0: seq<bool>,
                              st0: LoopState, start: nat, lo: nat, hi: nat,
                              rows: seq<seq<int>>, flags: seq<bool>, st: LoopState, iters: nat)
    requires Tiles(p) && p.blockSize <= w && start + p.smallBlockSize <= p.blockSize && SamplerAvoidsMask(o, p.maskId)
    requires lo == w - p.blockSize + start && hi == lo + p.smallBlockSize
    requires SmallInv(p, rows0, w, flags0, st0, lo, hi, rows, flags, st, iters)
    requires SpanMasks(rows, lo, hi, p.maskId) != 0
    ensures var out := Step(p, o, past, rows, w, flags, st, start);
      && SmallInv(p, rows0, w, flags0, st0, lo, hi, out.rows, out.flags, out.st, iters + 1)
      && SpanMasks(out.rows, lo, hi, p.maskId) < SpanMasks(rows, lo, hi, p.maskId)
  {
    var out := Step(p, o, past, rows, w, flags, st, start);
    StepProgress(p, o, out.req, rows, w, start, out.rows, lo, hi);
    if p.stopToken != p.maskId {
      StepFlags(p, o, out.req, rows, w, flags, start);
    }
    EvolvesTrans(rows0, rows, out.rows, w, lo, hi, p.maskId, p.stopToken);
  }

  /**
   * The `while True` loop of lines 264-361 for the small block starting at
   * window position `start`: it runs
   * until the small block holds no mask id, at most once per mask id it held,
   * changes only mask ids inside the small block, and sets exactly the flags
   * of rows that committed a stop token there.
   */
  method ResolveSmallBlock<K, L(!new)>(p: Params, o: Oracles<K, L>, past: K, rows0: seq<seq<int>>, w: nat,
                                 flags0: seq<bool>, st0: LoopState, start: nat)
    returns (rows: seq<seq<int>>, flags: seq<bool>, st: LoopState, iters: nat)
    requires Tiles(p) && Rect(rows0, w) && p.blockSize <= w && start + p.smallBlockSize <= p.blockSize
    requires |flags0| == |rows0| && SamplerAvoidsMask(o, p.maskId)
    ensures var lo := w - p.blockSize + start;
      && lo + p.smallBlockSize <= w
      && Evolves(rows0, rows, w, lo, lo + p.smallBlockSize, p.maskId)
      && (forall r, i :: 0 <= r < |rows| && lo <= i < lo + p.smallBlockSize ==> rows[r][i] != p.maskId)
      && iters <= SpanMasks(rows0, lo, lo + p.smallBlockSize, p.maskId)
      && |flags| == |rows0| && (forall r :: 0 <= r < |rows0| && flags0[r] ==> flags[r])
      && (p.stopToken != p.maskId ==> forall r :: 0 <= r < |rows0| ==>
            (flags[r] <==> flags0[r] || Committed(rows0, rows, r, lo, lo + p.smallBlockSize, p.maskId, p.stopToken)))
    ensures st.reuseStep == st0.reuseStep + (if p.useBlockCache then iters else 0)
    ensures p.useBlockCache ==> st.reuse.enabled == st0.reuse.enabled && (iters > 0 ==> st.blockCache.Some?)
    ensures !p.useBlockCache && iters > 0 ==> !st.reuse.enabled
    ensures iters == 0 ==> st == st0
    ensures st0.blockCache.Some? ==> st.blockCache.Some?
  {
    var bs, sbs := p.blockSize, p.smallBlockSize;
    var lo := w - bs + start;
    var hi := lo + sbs;
    rows, flags, st, iters := rows0, flags0, st0, 0;
    while SpanMasks(rows, lo, hi, p.maskId) != 0
      invariant SmallInv(p, rows0, w, flags0, st0, lo, hi, rows, flags, st, iters)
      decreases SpanMasks(rows, lo, hi, p.maskId)
    {
      SmallStep(p, o, past, rows0, w, flags0, st0, start, lo, hi, rows, flags, st, iters);
      var out := Step(p, o, past, rows, w, flags, st, start);
      rows, flags, st, iters := out.rows, out.flags, out.st, iters + 1;
    }
    SpanMasksZero(rows, lo, hi, p.maskId);
  }

  /** Number of small blocks per block (line 189) and the fact that they tile it. */
  lemma SmallBlocksTile(p: Params, idx: nat)
    requires Tiles(p)
    ensures (p.blockSize / p.smallBlockSize) * p.smallBlockSize == p.blockSize
    ensures idx < p.blockSize / p.smallBlockSize ==> idx * p.smallBlockSize + p.smallBlockSize <= p.blockSize
  {
    var n := p.blockSize / p.smallBlockSize;
    assert n * p.smallBlockSize == p.blockSize;
    if idx < n {
      assert idx + 1 <= n;
      assert (idx + 1) * p.smallBlockSize <= n * p.smallBlockSize;
    }
  }

  /**
   * The small-block loop of lines 248-361 over one block: it resets the
   * block-cache step counter, enables layer reuse, and leaves the block's
   * window without a single mask id, having changed only mask ids in the
   * window and flagged exactly the rows that committed a stop token there.
   */
  method ResolveBlock<K, L(!new)>(p: Params, o: Oracles<K, L>, past: K, rows0: seq<seq<int>>, w: nat,
                            flags0: seq<bool>, blockCache: Option<seq<seq<int>>>, reuse: ReuseState)
    returns (rows: seq<seq<int>>, flags: seq<bool>, st: LoopState)
    requires Tiles(p) && Rect(rows0, w) && p.blockSize <= w
    requires |flags0| == |rows0| && SamplerAvoidsMask(o, p.maskId)
    ensures Evolves(rows0, rows, w, w - p.blockSize, w, p.maskId)
    ensures forall r, i :: 0 <= r < |rows| && w - p.blockSize <= i < w ==> rows[r][i] != p.maskId
    ensures |flags| == |rows0| && forall r :: 0 <= r < |rows0| && flags0[r] ==> flags[r]
    ensures p.stopToken != p.maskId ==> forall r :: 0 <= r < |rows0| ==>
      (flags[r] <==> flags0[r] || Committed(rows0, rows, r, w - p.blockSize, w, p.maskId, p.stopToken))
    ensures p.useBlockCache ==> st.reuse.enabled
    ensures blockCache.Some? ==> st.blockCache.Some?
  {
    var bs, sbs := p.blockSize, p.smallBlockSize;
    var n := bs / sbs;
    SmallBlocksTile(p, 0);
    rows, flags := rows0, flags0;
    st := LoopState(0, blockCache, ReuseState(reuse.count, true));
    var start := 0;
    for idx := 0 to n
      invariant start == idx * sbs
      invariant Evolves(rows0, rows, w, w - bs, w, p.maskId)
      invariant forall r, i :: 0 <= r < |rows| && w - bs <= i < w - bs + start ==> rows[r][i] != p.maskId
      invariant |flags| == |rows0| && forall r :: 0 <= r < |rows0| && flags0[r] ==> flags[r]
      invariant p.stopToken != p.maskId ==> forall r :: 0 <= r < |rows0| ==>
        (flags[r] <==> flags0[r] || Committed(rows0, rows, r, w - bs, w, p.maskId, p.stopToken))
      invariant p.useBlockCache ==> st.reuse.enabled
      invariant blockCache.Some? ==> st.blockCache.Some?
    {
      SmallBlocksTile(p, idx);
      var lo := w - bs + start;
      var rows1, flags1, st1, _ := ResolveSmallBlock(p, o, past, rows, w, flags, st, start);
      if p.stopToken != p.maskId {
        CommittedWiden(rows, rows1, w, lo, lo + sbs, w - bs, w, p.maskId, p.stopToken);
      }
      EvolvesTrans(rows0, rows, rows1, w, w - bs, w, p.maskId, p.stopToken);
      rows, flags, st := rows1, flags1, st1;
      start := start + sbs;
    }
  }
}
