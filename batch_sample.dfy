/**
 * The outer bookkeeping of `batch_sample` (v2/generation_functions.py:135-466):
 * the optional prefill, one block of decoding (padding, the small-block loop,
 * truncation of finished rows and the correction step), the merge of the
 * decoded block back into `input_ids`, the per-block compaction, and the
 * final collection of every sample under its original index.
 */
module BatchSample {
  import opened Common
  import opened BlockLayout
  import opened PatchHelper
  import opened SmallBlock
  import opened Compaction

  /** The first `n` positions of every row: `rows[:, :n]`. */
  function Prefix(rows: seq<seq<int>>, w: nat, n: nat): (pre: seq<seq<int>>)
    requires Rect(rows, w) && n <= w
    ensures |pre| == |rows| && Rect(pre, n)
    ensures forall r, i :: 0 <= r < |rows| && 0 <= i < n ==> pre[r][i] == rows[r][i]
  {
    seq(|rows|, r requires 0 <= r < |rows| => rows[r][..n])
  }

  /** `seq_len.max()` of a non-empty batch. */
  function MaxOf(s: seq<nat>): (m: nat)
    requires |s| > 0
    ensures forall i :: 0 <= i < |s| ==> s[i] <= m
    ensures exists i :: 0 <= i < |s| && s[i] == m
  {
    if |s| == 1 then s[0]
    else
      var m := MaxOf(s[1..]);
      assert forall i :: 1 <= i < |s| ==> s[i] == s[1..][i - 1];
      if s[0] >= m then s[0] else m
  }

  // ---------------------------------------------------------------------
  // Prefill (lines 166-181)
  // ---------------------------------------------------------------------

  /** The prefill pass over the whole blocks below `min_len` (lines 167-172). */
  function PrefillRequest<T>(ids: seq<seq<int>>, w: nat, minLen: nat, bs: nat, reuse: ReuseState)
    : (req: EvalRequest<Option<PastKV<T>>>)
    requires Rect(ids, w) && bs > 0
    ensures req.mode == Prefill && req.past.None? && req.blockCache.None? && req.reuse == reuse
    ensures var k := minLen / bs * bs; k <= minLen < k + bs && k % bs == 0
    ensures var m := Min(minLen / bs * bs, w);
      |req.tokens| == |ids| && Rect(req.tokens, m) &&
      forall r, i :: 0 <= r < |ids| && 0 <= i < m ==> req.tokens[r][i] == ids[r][i]
  {
    DivModUnique(minLen / bs * bs, bs, minLen / bs, 0);
    EvalRequest(Prefix(ids, w, Min(minLen / bs * bs, w)), Prefill, None, None, reuse)
  }

  /** `torch.cat([rows, col], dim=1)`: one more column. */
  function AppendColumn(rows: seq<seq<int>>, w: nat, col: seq<int>): (rows': seq<seq<int>>)
    requires Rect(rows, w) && |col| == |rows|
    ensures |rows'| == |rows| && Rect(rows', w + 1)
    ensures forall r :: 0 <= r < |rows| ==> rows'[r][..w] == rows[r] && rows'[r][w] == col[r]
  {
    seq(|rows|, r requires 0 <= r < |rows| => rows[r] + [col[r]])
  }

  /** `rows[sel, at] = col[sel]`: one position overwritten in the selected rows. */
  function SetColumn(rows: seq<seq<int>>, w: nat, at: nat, sel: seq<bool>, col: seq<int>): (rows': seq<seq<int>>)
    requires Rect(rows, w) && at < w && |sel| == |rows| && |col| == |rows|
    ensures |rows'| == |rows| && Rect(rows', w)
    ensures forall r, i :: 0 <= r < |rows| && 0 <= i < w && i != at ==> rows'[r][i] == rows[r][i]
    ensures forall r :: 0 <= r < |rows| ==> rows'[r][at] == if sel[r] then col[r] else rows[r][at]
  {
    seq(|rows|, r requires 0 <= r < |rows| => if sel[r] then rows[r][at := col[r]] else rows[r])
  }

  /** The argmax at the last prefilled position of every row. */
  function PrefillTokens<T, L>(o: Oracles<Option<PastKV<T>>, L>, req: EvalRequest<Option<PastKV<T>>>, n: nat): (col: seq<int>)
    ensures |col| == n && forall r :: 0 <= r < n ==> col[r] == o.nextToken(req, r)
  {
    seq(n, r requires 0 <= r < n => o.nextToken(req, r))
  }

  /** `s == v` on a vector: `seq_len == min_len`, `seq_block_idx == block_idx`. */
  function EqualTo(s: seq<nat>, v: nat): (sel: seq<bool>)
    ensures |sel| == |s| && forall r :: 0 <= r < |s| ==> (sel[r] <==> s[r] == v)
  {
    seq(|s|, r requires 0 <= r < |s| => s[r] == v)
  }

  /** What the prefill produces: the new `input_ids`, its width and the KV cache. */
  datatype Prefilled<T> = Prefilled(ids: seq<seq<int>>, w: nat, past: Option<PastKV<T>>)

  /**
   * Lines 166-181. Below one block nothing happens. Otherwise the whole blocks
   * of the shortest prompt are run once to fill the KV cache, and when
   * `min_len` is block-aligned the argmax at the last prefilled position is
   * written at position `min_len` of every row whose prompt is exactly that
   * long: appended as a new column when `input_ids` ends there, which fails
   * unless every row is such a row, and written in place otherwise.
   */
  function RunPrefill<T, L>(p: Params, o: Oracles<Option<PastKV<T>>, L>, ids: seq<seq<int>>, w: nat, minLen: nat,
                            seqLen: seq<nat>, reuse: ReuseState): (res: Result<Prefilled<T>, PyError>)
    requires p.blockSize > 0 && Rect(ids, w) && |seqLen| == |ids|
    ensures res.Failure? <==>
      && minLen > p.blockSize && minLen % p.blockSize == 0 && w <= minLen
      && exists r :: 0 <= r < |ids| && seqLen[r] != minLen
    ensures res.Failure? ==> res.error == RuntimeError
    ensures res.Success? ==> |res.value.ids| == |ids| && Rect(res.value.ids, res.value.w) && w <= res.value.w <= w + 1
  {
    var bs := p.blockSize;
    if minLen <= bs then Success(Prefilled(ids, w, None))
    else
      var req := PrefillRequest(ids, w, minLen, bs, reuse);
      var past := o.advance(req);
      var col := PrefillTokens(o, req, |ids|);
      if minLen % bs != 0 then Success(Prefilled(ids, w, past))
      else if w <= minLen then
        if forall r :: 0 <= r < |ids| ==> seqLen[r] == minLen then Success(Prefilled(AppendColumn(ids, w, col), w + 1, past))
        else Failure(RuntimeError)
      else Success(Prefilled(SetColumn(ids, w, minLen, EqualTo(seqLen, minLen), col), w, past))
  }

  /**
   * What the prefill writes: the prompt positions other than `min_len` are
   * kept, a row whose prompt is longer than `min_len` (or any row when no token
   * is predicted) is kept whole, and a row whose prompt is exactly `min_len`
   * long receives the prefill's argmax at position `min_len`, or at the new
   * last column when `input_ids` is no wider than `min_len`.
   */
  lemma PrefillWrites<T, L>(p: Params, o: Oracles<Option<PastKV<T>>, L>, ids: seq<seq<int>>, w: nat, minLen: nat,
                            seqLen: seq<nat>, reuse: ReuseState)
    requires p.blockSize > 0 && Rect(ids, w) && |seqLen| == |ids|
    requires RunPrefill(p, o, ids, w, minLen, seqLen, reuse).Success?
    ensures var res := RunPrefill(p, o, ids, w, minLen, seqLen, reuse).value;
      var predicts := minLen > p.blockSize && minLen % p.blockSize == 0;
      && (forall r, i :: 0 <= r < |ids| && 0 <= i < w && i != minLen ==> res.ids[r][i] == ids[r][i])
      && (forall r :: 0 <= r < |ids| && (!predicts || seqLen[r] != minLen) ==> res.ids[r][..w] == ids[r])
      && (predicts ==> forall r :: 0 <= r < |ids| && seqLen[r] == minLen ==>
            Min(minLen, w) < res.w
            && res.ids[r][Min(minLen, w)] == o.nextToken(PrefillRequest(ids, w, minLen, p.blockSize, reuse), r))
      && res.past == (if minLen <= p.blockSize then None else o.advance(PrefillRequest(ids, w, minLen, p.blockSize, reuse)))
  {
    var bs := p.blockSize;
    if minLen > bs {
      var req := PrefillRequest(ids, w, minLen, bs, reuse);
      var col := PrefillTokens(o, req, |ids|);
      if minLen % bs == 0 && w <= minLen {
        assert forall r :: 0 <= r < |ids| ==> seqLen[r] == minLen;
        var ids' := AppendColumn(ids, w, col);
        assert forall r :: 0 <= r < |ids| ==> ids'[r][..w] == ids[r] && ids'[r][w] == col[r];
      } else if minLen % bs == 0 {
        var ids' := SetColumn(ids, w, minLen, EqualTo(seqLen, minLen), col);
        forall r | 0 <= r < |ids| && seqLen[r] != minLen
          ensures ids'[r][..w] == ids[r]
        {
          assert forall i :: 0 <= i < w ==> ids'[r][i] == ids[r][i];
        }
      }
    }
  }

  // ---------------------------------------------------------------------
  // Truncation of finished rows (lines 217-227)
  // ---------------------------------------------------------------------

  /** `(row[from:] == x).nonzero()[0]`: the offset of the first `x` at or after `from`, if any. */
  function FirstFrom(row: seq<int>, from: nat, x: int): (j: Option<nat>)
    ensures j.Some? ==> from + j.value < |row| && row[from + j.value] == x
    ensures j.Some? ==> forall i :: from <= i < from + j.value ==> row[i] != x
    ensures j.None? <==> forall i :: from <= i < |row| ==> row[i] != x
    decreases |row| - from
  {
    if from >= |row| then None
    else if row[from] == x then Some(0)
    else match FirstFrom(row, from + 1, x)
      case None => None
      case Some(k) => Some(k + 1)
  }

  /**
   * One finished row: everything after the first stop token at or after the
   * prompt end becomes padding; `None` stands for the IndexError of line 223
   * when no stop token follows the prompt.
   */
  function TruncateRow(row: seq<int>, seqLen: nat, stop: int, pad: int): (t: Option<seq<int>>)
    ensures t.None? <==> forall i :: seqLen <= i < |row| ==> row[i] != stop
    ensures t.Some? ==> var k := seqLen + FirstFrom(row, seqLen, stop).value;
      && |t.value| == |row| && k < |row| && row[k] == stop
      && (forall i :: seqLen <= i < k ==> row[i] != stop)
      && t.value[..k + 1] == row[..k + 1]
      && (forall i :: k < i < |row| ==> t.value[i] == pad)
  {
    match FirstFrom(row, seqLen, stop)
    case None => None
    case Some(j) => Some(row[..seqLen + j + 1] + seq(|row| - (seqLen + j + 1), _ => pad))
  }

  /** With a padding id distinct from the stop token, truncating a truncated row changes nothing. */
  lemma TruncateIdempotent(row: seq<int>, seqLen: nat, stop: int, pad: int)
    requires pad != stop && TruncateRow(row, seqLen, stop, pad).Some?
    ensures TruncateRow(TruncateRow(row, seqLen, stop, pad).value, seqLen, stop, pad) == TruncateRow(row, seqLen, stop, pad)
  {
    var t := TruncateRow(row, seqLen, stop, pad).value;
    var k := seqLen + FirstFrom(row, seqLen, stop).value;
    assert forall i :: seqLen <= i < k ==> t[i] == row[i];
    assert t[k] == stop;
    assert FirstFrom(t, seqLen, stop) == FirstFrom(row, seqLen, stop) by {
      FirstFromAgrees(row, t, seqLen, k, stop);
    }
    var t2 := TruncateRow(t, seqLen, stop, pad).value;
    assert t2[..k + 1] == t[..k + 1];
    assert forall i :: k < i < |t| ==> t2[i] == t[i];
    assert t2 == t;
  }

  /** Two rows that agree up to and including a position holding `x` have the same first `x` from `from`. */
  lemma {:induction false} FirstFromAgrees(a: seq<int>, b: seq<int>, from: nat, k: nat, x: int)
    requires from <= k < |a| && k < |b| && a[k] == x && a[..k + 1] == b[..k + 1]
    ensures FirstFrom(a, from, x) == FirstFrom(b, from, x)
    decreases k - from
  {
    assert a[from] == a[..k + 1][from] == b[..k + 1][from] == b[from];
    if a[from] != x {
      FirstFromAgrees(a, b, from + 1, k, x);
    }
  }

  /** A row is cut at its stop token when it finished inside the current block's prompt horizon. */
  predicate Cut(flag: bool, seqLen: nat, limit: nat)
  {
    flag && seqLen < limit
  }

  /** Row `r` of the cut raises: it is cut and holds no stop token after its prompt. */
  predicate CutFails(row: seq<int>, flag: bool, seqLen: nat, limit: nat, stop: int, pad: int)
  {
    Cut(flag, seqLen, limit) && TruncateRow(row, seqLen, stop, pad).None?
  }

  /** Row `r` after the cut: truncated when it is cut, unchanged otherwise. */
  function AfterCut(row: seq<int>, flag: bool, seqLen: nat, limit: nat, stop: int, pad: int): seq<int>
    requires !CutFails(row, flag, seqLen, limit, stop, pad)
  {
    if Cut(flag, seqLen, limit) then TruncateRow(row, seqLen, stop, pad).value else row
  }

  /**
   * The loop of lines 217-227: every finished row whose prompt ends before
   * `limit` is truncated after its first stop token; the loop raises
   * IndexError exactly when such a row holds no stop token after its prompt.
   */
  method TruncateFinished(rows: seq<seq<int>>, flags: seq<bool>, seqLen: seq<nat>, limit: nat, stop: int, pad: int)
    returns (res: Result<seq<seq<int>>, PyError>)
    requires |flags| == |rows| && |seqLen| == |rows|
    ensures res.Failure? <==>
      exists r :: 0 <= r < |rows| && CutFails(rows[r], flags[r], seqLen[r], limit, stop, pad)
    ensures res.Failure? ==> res.error == IndexError
    ensures res.Success? ==> |res.value| == |rows| && forall r :: 0 <= r < |rows| ==>
      res.value[r] == AfterCut(rows[r], flags[r], seqLen[r], limit, stop, pad)
  {
    var out := rows;
    for r := 0 to |rows|
      invariant |out| == |rows|
      invariant forall q :: 0 <= q < r ==> !CutFails(rows[q], flags[q], seqLen[q], limit, stop, pad)
      invariant forall q :: r <= q < |rows| ==> out[q] == rows[q]
      invariant forall q :: 0 <= q < r ==> out[q] == AfterCut(rows[q], flags[q], seqLen[q], limit, stop, pad)
    {
      if CutFails(rows[r], flags[r], seqLen[r], limit, stop, pad) {
        return Failure(IndexError);
      }
      out := out[r := AfterCut(rows[r], flags[r], seqLen[r], limit, stop, pad)];
    }
    return Success(out);
  }

  // ---------------------------------------------------------------------
  // One block (lines 194-246)
  // ---------------------------------------------------------------------

  /** `(seq_block_idx == block_idx).all()`. */
  predicate AllAt(sbi: seq<nat>, b: nat)
  {
    forall r :: 0 <= r < |sbi| ==> sbi[r] == b
  }

  /** A batch of rows of one width: `input_ids`, `x_init` or `x_t`. */
  datatype Grid = Grid(rows: seq<seq<int>>, w: nat)

  /** The end `(b + 1) * bs` of block `b` is a positive multiple of the block size. */
  lemma BlockEnd(b: nat, bs: nat)
    requires bs > 0
    ensures bs <= (b + 1) * bs && ((b + 1) * bs) % bs == 0 && b * bs + bs == (b + 1) * bs
  {
    MulBounds(bs, b + 1);
    DivModUnique((b + 1) * bs, bs, b + 1, 0);
  }

  /** A buffer narrower than the end of block `b` is padded to at most that end. */
  lemma PadFits(w: nat, b: nat, bs: nat)
    requires bs > 0 && w < (b + 1) * bs
    ensures w + PadCount(w, bs) <= (b + 1) * bs
  {
    AlignUp(w, bs);
    var q := w / bs;
    assert w == bs * q + w % bs;
    if q > b {
      MulMono(b + 1, q, bs);
      assert false;
    }
    DivModUnique(w + PadCount(w, bs), bs, q + 1, 0) by {
      assert bs * (q + 1) == bs * q + bs;
    }
    MulMono(q + 1, b + 1, bs);
  }

  /** The padded width is the next multiple of `block_size` strictly above `w`, so at least one block. */
  lemma PaddedWidth(w: nat, bs: nat)
    requires bs > 0
    ensures var g := w + PadCount(w, bs); bs <= g && g % bs == 0 && w < g <= w + bs
  {
    AlignUp(w, bs);
    var g := w + PadCount(w, bs);
    assert g == bs * (g / bs) + g % bs;
    MulBounds(bs, g / bs);
  }

  /** Lines 198-204: `cat([input_ids, mask_id * ones(...)])`, aligned to a whole number of blocks. */
  function PaddedStart(ids: seq<seq<int>>, w: nat, bs: nat, maskId: int): (g: Grid)
    requires bs > 0 && Rect(ids, w)
    ensures |g.rows| == |ids| && Rect(g.rows, g.w) && bs <= g.w && g.w % bs == 0 && w < g.w <= w + bs
    ensures forall r, i :: 0 <= r < |ids| && w <= i < g.w ==> g.rows[r][i] == maskId
    ensures forall r, i :: 0 <= r < |ids| && 0 <= i < w ==> g.rows[r][i] == ids[r][i]
  {
    PaddedWidth(w, bs);
    var padded := PadBatch(ids, w, bs, maskId);
    assert forall r, i :: 0 <= r < |ids| && 0 <= i < w ==> padded[r][i] == padded[r][..w][i];
    Grid(padded, w + PadCount(w, bs))
  }

  /**
   * Lines 197-205. When every row's prompt ends in this block, `input_ids` is
   * padded with mask ids up to the next multiple of the block size, and the
   * padded buffer is both the new `input_ids` and `x_init`; otherwise `x_init`
   * is `input_ids` cut after this block.
   */
  function BlockStart(ids: seq<seq<int>>, w: nat, sbi: seq<nat>, b: nat, bs: nat, maskId: int): (g: Grid)
    requires bs > 0 && Rect(ids, w) && |sbi| == |ids| && (AllAt(sbi, b) || (b + 1) * bs <= w)
    ensures |g.rows| == |ids| && Rect(g.rows, g.w) && bs <= g.w && g.w % bs == 0
    ensures AllAt(sbi, b) ==> g == PaddedStart(ids, w, bs, maskId)
    ensures !AllAt(sbi, b) ==> g.w == (b + 1) * bs
    ensures forall r, i :: 0 <= r < |ids| && 0 <= i < w && i < g.w ==> g.rows[r][i] == ids[r][i]
  {
    if AllAt(sbi, b) then PaddedStart(ids, w, bs, maskId)
    else
      var e := (b + 1) * bs;
      BlockEnd(b, bs);
      Grid(Prefix(ids, w, e), e)
  }

  /** Some row holds the mask id in the last `bs` positions (`mask_idx.sum() != 0`, lines 211-212). */
  predicate WindowHasMask(rows: seq<seq<int>>, w: nat, bs: nat, maskId: int)
    requires Rect(rows, w) && bs <= w
  {
    exists r, i :: 0 <= r < |rows| && w - bs <= i < w && rows[r][i] == maskId
  }

  /** The correction pass of lines 234-240 over the block's window, with layer reuse switched off (line 232). */
  function CorrectionRequest<K>(rows: seq<seq<int>>, w: nat, bs: nat, past: K, reuse: ReuseState): (req: EvalRequest<K>)
    requires Rect(rows, w) && bs <= w
    ensures req.mode == Correction && !req.reuse.enabled && req.reuse.count == reuse.count
    ensures req.tokens == Window(rows, w, bs) && req.past == past && req.blockCache.None?
  {
    EvalRequest(Window(rows, w, bs), Correction, past, None, ReuseState(reuse.count, false))
  }

  /** Lines 242-245: every row gets the token predicted after the block, finished rows get padding. */
  function AppendNext<K, L>(o: Oracles<K, L>, req: EvalRequest<K>, rows: seq<seq<int>>, w: nat, flags: seq<bool>, pad: int)
    : (rows': seq<seq<int>>)
    requires Rect(rows, w) && |flags| == |rows|
    ensures |rows'| == |rows| && Rect(rows', w + 1)
    ensures forall r :: 0 <= r < |rows| ==>
      rows'[r][..w] == rows[r] && rows'[r][w] == if flags[r] then pad else o.nextToken(req, r)
  {
    AppendColumn(rows, w, seq(|rows|, r requires 0 <= r < |rows| => if flags[r] then pad else o.nextToken(req, r)))
  }

  /**
   * `xt` is `rows` with one more column from the correction pass over the
   * window of `rows` (lines 233-245): layer reuse is off, the KV cache is the
   * one that pass returns, and each row's new token is the pass's prediction,
   * or padding for a finished row.
   */
  ghost predicate CorrectedBy<K, L>(o: Oracles<K, L>, rows: seq<seq<int>>, xt: seq<seq<int>>, e: nat, bs: nat, flags: seq<bool>,
                              past: K, past': K, reuse': ReuseState, pad: int)
    requires Rect(rows, e) && bs <= e && |xt| == |rows| && |flags| == |rows| && AtLeast(xt, e + 1)
  {
    var req := CorrectionRequest(rows, e, bs, past, reuse');
    && !reuse'.enabled && past' == o.advance(req)
    && forall r :: 0 <= r < |rows| ==> xt[r][..e] == rows[r] && xt[r][e] == if flags[r] then pad else o.nextToken(req, r)
  }

  /** The block after the correction pass: `x_t`, the KV cache and the reuse state. */
  datatype Corrected<K> = Corrected(xt: seq<seq<int>>, past: K, reuse: ReuseState)

  /** Lines 233-245. */
  function Correct<K, L>(o: Oracles<K, L>, rows: seq<seq<int>>, e: nat, bs: nat, flags: seq<bool>, past: K,
                         reuse: ReuseState, pad: int): (c: Corrected<K>)
    requires Rect(rows, e) && bs <= e && |flags| == |rows|
    ensures |c.xt| == |rows| && Rect(c.xt, e + 1) && Prefix(c.xt, e + 1, e) == rows
    ensures c.reuse.count == reuse.count
    ensures CorrectedBy(o, rows, c.xt, e, bs, flags, past, c.past, c.reuse, pad)
  {
    var reuse' := ReuseState(reuse.count, false);
    var req := CorrectionRequest(rows, e, bs, past, reuse');
    var xt := AppendNext(o, req, rows, e, flags, pad);
    assert Prefix(xt, e + 1, e) == rows by {
      forall r | 0 <= r < |rows| ensures Prefix(xt, e + 1, e)[r] == rows[r] {
        assert xt[r][..e] == rows[r];
      }
    }
    Corrected(xt, o.advance(req), reuse')
  }

  /** Row `b` arose from row `a` by turning mask ids at positions in `[lo, hi)` into other tokens, and nothing else. */
  predicate RowEvolves(a: seq<int>, b: seq<int>, lo: nat, hi: nat, maskId: int)
    requires hi <= |a| && hi <= |b|
  {
    forall i :: 0 <= i < hi && b[i] != a[i] ==> lo <= i && a[i] == maskId && b[i] != maskId
  }

  /** A row cut after its first stop token at or after `from`: position `k` holds it, padding follows up to `hi`. */
  predicate CutAtStop(row: seq<int>, from: nat, k: nat, hi: nat, stop: int, pad: int)
    requires hi <= |row|
  {
    && from <= k < hi && row[k] == stop
    && (forall i :: from <= i < k ==> row[i] != stop)
    && (forall i :: k < i < hi ==> row[i] == pad)
  }

  /**
   * How one row of `x_t` relates to its row of `x_init` after lines 209-227,
   * with the window at `[hi - bs, hi)`: a finished row cut at its stop token
   * holds that stop token, padding after it, and before it only the mask ids
   * the small-block loop resolved; any other row only had mask ids of the
   * window resolved, and its window holds no mask id.
   */
  predicate RowResolved(a: seq<int>, x: seq<int>, cut: bool, seqLen: nat, hi: nat, bs: nat, p: Params)
    requires bs <= hi <= |a| && hi <= |x|
  {
    if cut then
      exists k: nat :: k < hi && CutAtStop(x, seqLen, k, hi, p.stopToken, p.padId)
                       && forall i :: 0 <= i <= k && x[i] != a[i] ==> hi - bs <= i && a[i] == p.maskId
    else
      RowEvolves(a, x, hi - bs, hi, p.maskId) && forall i :: hi - bs <= i < hi ==> x[i] != p.maskId
  }

  /** Every prompt lies inside `input_ids` and holds no mask id. */
  predicate PromptsUnmasked(ids: seq<seq<int>>, w: nat, seqLen: seq<nat>, maskId: int)
    requires Rect(ids, w) && |seqLen| == |ids|
  {
    && (forall r :: 0 <= r < |ids| ==> seqLen[r] <= w)
    && forall r, i :: 0 <= r < |ids| && 0 <= i < seqLen[r] ==> ids[r][i] != maskId
  }

  /** A row resolved by the small-block loop and then cut after its stop token satisfies `RowResolved`. */
  lemma CutRow(a: seq<int>, row: seq<int>, seqLen: nat, e: nat, bs: nat, p: Params)
    requires bs <= e && |a| == e && |row| == e && RowEvolves(a, row, e - bs, e, p.maskId)
    requires TruncateRow(row, seqLen, p.stopToken, p.padId).Some?
    ensures RowResolved(a, TruncateRow(row, seqLen, p.stopToken, p.padId).value, true, seqLen, e, bs, p)
  {
    var t := TruncateRow(row, seqLen, p.stopToken, p.padId).value;
    var k := seqLen + FirstFrom(row, seqLen, p.stopToken).value;
    assert forall i :: 0 <= i <= k ==> t[i] == t[..k + 1][i] == row[..k + 1][i] == row[i];
    assert CutAtStop(t, seqLen, k, e, p.stopToken, p.padId);
  }

  /** `RowResolved` for every row, with rows cut when `Cut(flag, seq_len, limit)` holds. */
  predicate BatchResolved(init: seq<seq<int>>, xt: seq<seq<int>>, flags: seq<bool>, seqLen: seq<nat>,
                          limit: nat, e: nat, bs: nat, p: Params)
    requires |xt| == |init| && |flags| == |init| && |seqLen| == |init| && bs <= e && AtLeast(init, e) && AtLeast(xt, e)
  {
    forall r :: 0 <= r < |init| ==> RowResolved(init[r], xt[r], Cut(flags[r], seqLen[r], limit), seqLen[r], e, bs, p)
  }

  /** Every row of a batch after the small-block loop and the cut of finished rows satisfies `RowResolved`. */
  lemma BlockResolved(init: seq<seq<int>>, rows: seq<seq<int>>, xt: seq<seq<int>>, flags: seq<bool>, seqLen: seq<nat>,
                      e: nat, limit: nat, p: Params)
    requires p.blockSize <= e && |rows| == |init| && |xt| == |init| && |flags| == |init| && |seqLen| == |init|
    requires Evolves(init, rows, e, e - p.blockSize, e, p.maskId)
    requires forall r, i :: 0 <= r < |rows| && e - p.blockSize <= i < e ==> rows[r][i] != p.maskId
    requires forall r :: 0 <= r < |init| ==>
      if Cut(flags[r], seqLen[r], limit) then TruncateRow(rows[r], seqLen[r], p.stopToken, p.padId) == Some(xt[r]) else xt[r] == rows[r]
    ensures Rect(xt, e)
    ensures BatchResolved(init, xt, flags, seqLen, limit, e, p.blockSize, p)
  {
    forall r | 0 <= r < |init|
      ensures |xt[r]| == e && RowResolved(init[r], xt[r], Cut(flags[r], seqLen[r], limit), seqLen[r], e, p.blockSize, p)
    {
      assert RowEvolves(init[r], rows[r], e - p.blockSize, e, p.maskId);
      if Cut(flags[r], seqLen[r], limit) {
        CutRow(init[r], rows[r], seqLen[r], e, p.blockSize, p);
      }
    }
  }

  /** The small-block loop and the cut leave every prompt position that holds no mask id as it was. */
  lemma ResolvedKeepsPrompts(init: seq<seq<int>>, xt: seq<seq<int>>, flags: seq<bool>, seqLen: seq<nat>,
                             limit: nat, e: nat, bs: nat, p: Params)
    requires |xt| == |init| && |flags| == |init| && |seqLen| == |init| && bs <= e && Rect(init, e) && AtLeast(xt, e)
    requires BatchResolved(init, xt, flags, seqLen, limit, e, bs, p)
    requires NoMaskBefore(init, e, seqLen, p.maskId)
    ensures forall r, i :: 0 <= r < |init| && 0 <= i < seqLen[r] && i < e ==> xt[r][i] == init[r][i]
  {
    forall r, i | 0 <= r < |init| && 0 <= i < seqLen[r] && i < e ensures xt[r][i] == init[r][i] {
      assert RowResolved(init[r], xt[r], Cut(flags[r], seqLen[r], limit), seqLen[r], e, bs, p);
      assert init[r][i] != p.maskId;
    }
  }

  /** `RowResolved` only reads the first `e` positions, so appending a column keeps it. */
  lemma ResolvedAppend(init: seq<seq<int>>, xt: seq<seq<int>>, xt': seq<seq<int>>, flags: seq<bool>, seqLen: seq<nat>,
                       limit: nat, e: nat, bs: nat, p: Params)
    requires |xt| == |init| && |xt'| == |init| && |flags| == |init| && |seqLen| == |init| && bs <= e
    requires Rect(init, e) && Rect(xt, e) && Rect(xt', e + 1)
    requires forall r :: 0 <= r < |init| ==> xt'[r][..e] == xt[r]
    requires BatchResolved(init, xt, flags, seqLen, limit, e, bs, p)
    ensures BatchResolved(init, xt', flags, seqLen, limit, e, bs, p)
  {
    forall r | 0 <= r < |init|
      ensures RowResolved(init[r], xt'[r], Cut(flags[r], seqLen[r], limit), seqLen[r], e, bs, p)
    {
      assert forall i :: 0 <= i < e ==> xt'[r][i] == xt'[r][..e][i] == xt[r][i];
      if Cut(flags[r], seqLen[r], limit) {
        var k: nat :| k < e && CutAtStop(xt[r], seqLen[r], k, e, p.stopToken, p.padId)
                       && forall i :: 0 <= i <= k && xt[r][i] != init[r][i] ==> e - bs <= i && init[r][i] == p.maskId;
        assert CutAtStop(xt'[r], seqLen[r], k, e, p.stopToken, p.padId);
      }
    }
  }

  /** No row of `rows` holds the mask id before its prompt end, within the first `e` positions. */
  predicate NoMaskBefore(rows: seq<seq<int>>, e: nat, seqLen: seq<nat>, maskId: int)
    requires Rect(rows, e) && |seqLen| == |rows|
  {
    forall r, i :: 0 <= r < |rows| && 0 <= i < e && i < seqLen[r] ==> rows[r][i] != maskId
  }

  /** `x_init` holds the prompts where `input_ids` does, so a prompt without mask ids stays without them. */
  lemma StartUnmasked(ids: seq<seq<int>>, w: nat, sbi: seq<nat>, b: nat, bs: nat, seqLen: seq<nat>, maskId: int)
    requires bs > 0 && Rect(ids, w) && |sbi| == |ids| && |seqLen| == |ids| && (AllAt(sbi, b) || (b + 1) * bs <= w)
    requires PromptsUnmasked(ids, w, seqLen, maskId)
    ensures var start := BlockStart(ids, w, sbi, b, bs, maskId); NoMaskBefore(start.rows, start.w, seqLen, maskId)
  {
    var start := BlockStart(ids, w, sbi, b, bs, maskId);
    forall r, i | 0 <= r < |ids| && 0 <= i < start.w && i < seqLen[r]
      ensures start.rows[r][i] != maskId
    {
      assert seqLen[r] <= w && ids[r][i] != maskId;
      assert start.rows[r][i] == ids[r][i];
    }
  }

  /**
   * When no prompt holds the mask id, a row flagged by the small-block loop
   * committed its stop token after its prompt, so the cut finds it.
   */
  lemma FlaggedRowsHaveStop(init: seq<seq<int>>, rows: seq<seq<int>>, flags: seq<bool>,
                            seqLen: seq<nat>, e: nat, bs: nat, p: Params)
    requires |rows| == |init| && |flags| == |init| && |seqLen| == |init|
    requires bs <= e && Rect(init, e) && AtLeast(rows, e) && NoMaskBefore(init, e, seqLen, p.maskId)
    requires forall r :: 0 <= r < |init| && flags[r] ==> Committed(init, rows, r, e - bs, e, p.maskId, p.stopToken)
    ensures forall r :: 0 <= r < |init| && flags[r] ==> TruncateRow(rows[r], seqLen[r], p.stopToken, p.padId).Some?
  {
    forall r | 0 <= r < |init| && flags[r]
      ensures TruncateRow(rows[r], seqLen[r], p.stopToken, p.padId).Some?
    {
      var i :| e - bs <= i < e && init[r][i] == p.maskId && rows[r][i] == p.stopToken;
      assert seqLen[r] <= i;
    }
  }

  /** Row `row` holds the mask id somewhere in the window `[e - bs, e)`. */
  predicate RowWindowMasked(row: seq<int>, e: nat, bs: nat, maskId: int)
    requires bs <= e <= |row|
  {
    exists i :: e - bs <= i < e && row[i] == maskId
  }

  /**
   * Lines 209-212 and 248-361: when the window holds a mask id the
   * small-block loop runs, starting with no row flagged (line 208 has nothing
   * to pad) and no block cache (line 211); otherwise nothing changes.
   */
  method ResolveWindow<K, L(!new)>(p: Params, o: Oracles<K, L>, past: K, init: seq<seq<int>>, e: nat, reuse: ReuseState)
    returns (rows: seq<seq<int>>, flags: seq<bool>, reuse': ReuseState)
    requires Tiles(p) && Rect(init, e) && p.blockSize <= e && SamplerAvoidsMask(o, p.maskId)
    ensures Evolves(init, rows, e, e - p.blockSize, e, p.maskId)
    ensures forall r, i :: 0 <= r < |rows| && e - p.blockSize <= i < e ==> rows[r][i] != p.maskId
    ensures |flags| == |init|
    ensures p.stopToken != p.maskId ==> forall r :: 0 <= r < |init| ==>
      (flags[r] <==> Committed(init, rows, r, e - p.blockSize, e, p.maskId, p.stopToken))
    ensures p.stopToken != p.maskId ==> forall r :: 0 <= r < |init| && flags[r] ==>
      RowWindowMasked(init[r], e, p.blockSize, p.maskId)
    ensures !WindowHasMask(init, e, p.blockSize, p.maskId) ==> rows == init && reuse' == reuse
    ensures WindowHasMask(init, e, p.blockSize, p.maskId) && p.useBlockCache ==> reuse'.enabled
  {
    rows, flags, reuse' := init, seq(|init|, _ => false), reuse;
    if WindowHasMask(init, e, p.blockSize, p.maskId) {
      var st;
      rows, flags, st := ResolveBlock(p, o, past, init, e, flags, None, reuse);
      reuse' := st.reuse;
    } else {
      var lo := e - p.blockSize;
      assert forall r :: 0 <= r < |init| ==> !Committed(init, rows, r, lo, e, p.maskId, p.stopToken);
    }
  }

  /** The block after lines 209-227: `x_t`, the finished flags and the reuse state. */
  datatype Resolved = Resolved(xt: seq<seq<int>>, flags: seq<bool>, reuse: ReuseState)

  /**
   * Lines 209-227: the small-block loop when the window holds a mask id, then
   * the cut of the finished rows whose prompt ends before `limit`; the cut
   * raises IndexError only if a finished row holds no stop token after its
   * prompt, which cannot happen when no prompt holds the mask id.
   */
  method ResolveAndCut<K, L(!new)>(p: Params, o: Oracles<K, L>, past: K, init: seq<seq<int>>, e: nat,
                                   seqLen: seq<nat>, limit: nat, reuse: ReuseState)
    returns (res: Result<Resolved, PyError>)
    requires Tiles(p) && Rect(init, e) && p.blockSize <= e && |seqLen| == |init| && SamplerAvoidsMask(o, p.maskId)
    ensures res.Failure? ==> res.error == IndexError
    ensures p.stopToken != p.maskId && NoMaskBefore(init, e, seqLen, p.maskId) ==> res.Success?
    ensures res.Success? ==>
      && |res.value.xt| == |init| && |res.value.flags| == |init| && Rect(res.value.xt, e)
      && BatchResolved(init, res.value.xt, res.value.flags, seqLen, limit, e, p.blockSize, p)
      && (!WindowHasMask(init, e, p.blockSize, p.maskId) ==> res.value.reuse == reuse)
      && (WindowHasMask(init, e, p.blockSize, p.maskId) && p.useBlockCache ==> res.value.reuse.enabled)
      && (p.stopToken != p.maskId ==> forall r :: 0 <= r < |init| && res.value.flags[r] ==>
            RowWindowMasked(init[r], e, p.blockSize, p.maskId))
  {
    var rows, flags, reuse' := ResolveWindow(p, o, past, init, e, reuse);
    if p.stopToken != p.maskId && NoMaskBefore(init, e, seqLen, p.maskId) {
      FlaggedRowsHaveStop(init, rows, flags, seqLen, e, p.blockSize, p);
    }
    var cut := TruncateFinished(rows, flags, seqLen, limit, p.stopToken, p.padId);
    if cut.Failure? {
      return Failure(IndexError);
    }
    BlockResolved(init, rows, cut.value, flags, seqLen, e, limit, p);
    res := Success(Resolved(cut.value, flags, reuse'));
  }

  /** What one block leaves behind: `input_ids`, `x_t`, the finished flags, the KV cache and the reuse state. */
  datatype Decoded<T> = Decoded(ids: Grid, xt: Grid, flags: seq<bool>, past: Option<PastKV<T>>, reuse: ReuseState)

  /**
   * What one block of lines 197-246 produces from `input_ids`: the new
   * `input_ids` (padded when every row is in this block), and an `x_t` that
   * extends `x_init` by the correction column unless every row finished;
   * every row resolved and cut as `BatchResolved` says; a flagged row held the
   * mask id in its window; and the KV cache is the correction pass's, or the
   * old one when every row finished.
   */
  ghost predicate DecodedFrom<T, L>(p: Params, o: Oracles<Option<PastKV<T>>, L>, b: nat, ids: seq<seq<int>>, w: nat,
                                    sbi: seq<nat>, seqLen: seq<nat>, past: Option<PastKV<T>>, d: Decoded<T>)
    requires 0 < p.blockSize && Rect(ids, w) && |sbi| == |ids| && |seqLen| == |ids|
    requires AllAt(sbi, b) || (b + 1) * p.blockSize <= w
  {
    var start := BlockStart(ids, w, sbi, b, p.blockSize, p.maskId);
    && d.ids == (if AllAt(sbi, b) then start else Grid(ids, w))
    && |d.xt.rows| == |ids| && |d.flags| == |ids| && Rect(d.xt.rows, d.xt.w)
    && (d.xt.w == start.w || d.xt.w == start.w + 1)
    && (d.xt.w == start.w <==> forall r :: 0 <= r < |ids| ==> d.flags[r])
    && BatchResolved(start.rows, d.xt.rows, d.flags, seqLen, (b + 1) * p.blockSize, start.w, p.blockSize, p)
    && (p.stopToken != p.maskId ==> forall r :: 0 <= r < |ids| && d.flags[r] ==>
          RowWindowMasked(start.rows[r], start.w, p.blockSize, p.maskId))
    && (d.xt.w == start.w ==> d.past == past)
    && (d.xt.w == start.w + 1 ==> CorrectedBy(o, Prefix(d.xt.rows, d.xt.w, start.w), d.xt.rows, start.w, p.blockSize,
                                              d.flags, past, d.past, d.reuse, p.padId))
  }

  /**
   * Lines 197-246 for one block. `x_init` is built (padded or cut); when its
   * window holds a mask id the small-block loop resolves every mask in the
   * window; finished rows are then cut after their stop token, which raises
   * IndexError when no stop token follows the prompt and cannot when no
   * prompt holds the mask id; unless every row finished, a correction pass
   * over the window appends the next token, padding for finished rows.
   */
  method DecodeBlock<T, L(!new)>(p: Params, o: Oracles<Option<PastKV<T>>, L>, b: nat, ids: seq<seq<int>>, w: nat,
                                 sbi: seq<nat>, seqLen: seq<nat>, past: Option<PastKV<T>>, reuse: ReuseState)
    returns (res: Result<Decoded<T>, PyError>)
    requires Tiles(p) && Rect(ids, w) && |sbi| == |ids| && |seqLen| == |ids|
    requires AllAt(sbi, b) || (b + 1) * p.blockSize <= w
    requires SamplerAvoidsMask(o, p.maskId)
    ensures res.Failure? ==> res.error == IndexError
    ensures p.stopToken != p.maskId && PromptsUnmasked(ids, w, seqLen, p.maskId) ==> res.Success?
    ensures res.Success? ==> DecodedFrom(p, o, b, ids, w, sbi, seqLen, past, res.value)
  {
    var bs := p.blockSize;
    var start := BlockStart(ids, w, sbi, b, bs, p.maskId);
    var e := start.w;
    var ids' := if AllAt(sbi, b) then start else Grid(ids, w);
    // Line 208 pads the window of finished rows, but no row is flagged when a block starts.
    if PromptsUnmasked(ids, w, seqLen, p.maskId) {
      StartUnmasked(ids, w, sbi, b, bs, seqLen, p.maskId);
    }
    var cut := ResolveAndCut(p, o, past, start.rows, e, seqLen, (b + 1) * bs, reuse);
    if cut.Failure? {
      return Failure(IndexError);
    }
    var xt, past', reuse' := CorrectUnlessFinished(p, o, start.rows, e, seqLen, (b + 1) * bs, cut.value, past);
    res := Success(Decoded(ids', xt, cut.value.flags, past', reuse'));
  }

  /**
   * Lines 229-245: unless every row finished, one correction pass over the
   * window appends the next token to every row (padding for finished rows);
   * the appended column leaves each row's resolution as it was.
   */
  method CorrectUnlessFinished<T, L>(p: Params, o: Oracles<Option<PastKV<T>>, L>, init: seq<seq<int>>, e: nat,
                                     seqLen: seq<nat>, limit: nat, cut: Resolved, past: Option<PastKV<T>>)
    returns (xt: Grid, past': Option<PastKV<T>>, reuse': ReuseState)
    requires p.blockSize <= e && Rect(init, e) && |seqLen| == |init|
    requires |cut.xt| == |init| && |cut.flags| == |init| && Rect(cut.xt, e)
    requires BatchResolved(init, cut.xt, cut.flags, seqLen, limit, e, p.blockSize, p)
    ensures |xt.rows| == |init| && Rect(xt.rows, xt.w) && (xt.w == e || xt.w == e + 1)
    ensures xt.w == e <==> forall r :: 0 <= r < |init| ==> cut.flags[r]
    ensures BatchResolved(init, xt.rows, cut.flags, seqLen, limit, e, p.blockSize, p)
    ensures xt.w == e ==> past' == past
    ensures xt.w == e + 1 ==> CorrectedBy(o, Prefix(xt.rows, xt.w, e), xt.rows, e, p.blockSize, cut.flags, past,
                                          past', reuse', p.padId)
  {
    if forall r :: 0 <= r < |init| ==> cut.flags[r] {
      return Grid(cut.xt, e), past, cut.reuse;
    }
    var c := Correct(o, cut.xt, e, p.blockSize, cut.flags, past, cut.reuse, p.padId);
    ResolvedAppend(init, cut.xt, c.xt, cut.flags, seqLen, limit, e, p.blockSize, p);
    xt, past', reuse' := Grid(c.xt, e + 1), c.past, c.reuse;
  }

  // ---------------------------------------------------------------------
  // Writing the block back into input_ids (lines 365-380)
  // ---------------------------------------------------------------------

  /** `x_t[:, i]`. */
  function Column(rows: seq<seq<int>>, w: nat, i: nat): (col: seq<int>)
    requires Rect(rows, w) && i < w
    ensures |col| == |rows| && forall r :: 0 <= r < |rows| ==> col[r] == rows[r][i]
  {
    seq(|rows|, r requires 0 <= r < |rows| => rows[r][i])
  }

  /** `input_ids[:, :m] = x_t[:, :m]`. */
  function Overlay(ids: seq<seq<int>>, w: nat, xt: seq<seq<int>>, wt: nat, m: nat): (rows': seq<seq<int>>)
    requires Rect(ids, w) && Rect(xt, wt) && |xt| == |ids| && m <= w && m <= wt
    ensures |rows'| == |ids| && Rect(rows', w)
    ensures forall r, i :: 0 <= r < |ids| && 0 <= i < w ==> rows'[r][i] == if i < m then xt[r][i] else ids[r][i]
  {
    seq(|ids|, r requires 0 <= r < |ids| => xt[r][..m] + ids[r][m..])
  }

  /**
   * Lines 368-379, once the widths differ: the decoded prefix is copied into
   * `input_ids`, which raises RuntimeError unless `x_t[:, :-1]` is exactly as
   * wide as `input_ids[:, :(b + 1) * bs]`; then the token after the block is
   * appended when every row was in this block, `x_t` is taken whole when
   * `input_ids` ends inside the block, and otherwise it is written at position
   * `(b + 1) * bs` of the rows that were in this block.
   */
  function MergeTail(ids: seq<seq<int>>, w: nat, xt: seq<seq<int>>, wt: nat, sbi: seq<nat>, b: nat, bs: nat)
    : (res: Result<Grid, PyError>)
    requires bs > 0 && Rect(ids, w) && Rect(xt, wt) && |xt| == |ids| && |sbi| == |ids| && 0 < wt
    ensures res.Failure? <==> Min(w, (b + 1) * bs) + 1 != wt
    ensures res.Failure? ==> res.error == RuntimeError
    ensures res.Success? ==> |res.value.rows| == |ids| && Rect(res.value.rows, res.value.w) && w <= res.value.w && wt <= res.value.w
    ensures res.Success? ==> forall r, i :: 0 <= r < |ids| && 0 <= i < wt - 1 ==> res.value.rows[r][i] == xt[r][i]
    ensures res.Success? && w <= (b + 1) * bs ==> res.value == Grid(xt, wt)
    ensures res.Success? && !AllAt(sbi, b) ==> res.value.w == Max(w, wt)
    ensures res.Success? && (b + 1) * bs < w && !AllAt(sbi, b) ==>
      && res.value.w == w && (b + 1) * bs < wt
      && forall r :: 0 <= r < |ids| ==>
           && (sbi[r] == b ==> res.value.rows[r][(b + 1) * bs] == xt[r][(b + 1) * bs])
           && (sbi[r] != b ==> forall i :: (b + 1) * bs <= i < w ==> res.value.rows[r][i] == ids[r][i])
  {
    var e := (b + 1) * bs;
    var m := Min(w, e);
    if m + 1 != wt then Failure(RuntimeError)
    else
      var ids1 := Overlay(ids, w, xt, wt, m);
      if AllAt(sbi, b) then
        var rows' := AppendColumn(ids1, w, Column(xt, wt, wt - 1));
        assert w <= e ==> rows' == xt by {
          if w <= e {
            forall r | 0 <= r < |ids| ensures rows'[r] == xt[r] {
              assert forall i :: 0 <= i < w ==> rows'[r][i] == rows'[r][..w][i] == ids1[r][i];
            }
          }
        }
        Success(Grid(rows', w + 1))
      else if w <= e then Success(Grid(xt, wt))
      else Success(Grid(SetColumn(ids1, w, e, EqualTo(sbi, b), Column(xt, wt, e)), w))
  }

  /**
   * Lines 365-379 as written: when `input_ids` is exactly as wide as `x_t` it
   * is replaced by `x_t`, including the rows whose prompt runs past this
   * block.
   */
  function MergeAsWritten(ids: seq<seq<int>>, w: nat, xt: seq<seq<int>>, wt: nat, sbi: seq<nat>, b: nat, bs: nat)
    : (res: Result<Grid, PyError>)
    requires bs > 0 && Rect(ids, w) && Rect(xt, wt) && |xt| == |ids| && |sbi| == |ids| && 0 < wt
    ensures res.Failure? <==> w != wt && Min(w, (b + 1) * bs) + 1 != wt
    ensures res.Failure? ==> res.error == RuntimeError
    ensures res.Success? ==> |res.value.rows| == |ids| && Rect(res.value.rows, res.value.w) && w <= res.value.w && wt <= res.value.w
    ensures w == wt ==> res == Success(Grid(xt, wt))
  {
    if w == wt then Success(Grid(xt, wt)) else MergeTail(ids, w, xt, wt, sbi, b, bs)
  }

  /**
   * With a row whose prompt runs past block 0 (`seq_block_idx` 1) and
   * `input_ids` exactly one token wider than the block, the write-back as
   * written replaces that row's prompt token at position 2 by the token the
   * correction pass predicted.
   */
  lemma MergeOverwritesPrompt()
    ensures var ids := [[7, 0, 0], [7, 8, 9]];
      var xt := [[7, 4, 5], [7, 8, 6]];
      && MergeAsWritten(ids, 3, xt, 3, [0, 1], 0, 2) == Success(Grid(xt, 3))
      && xt[1][2] != ids[1][2]
  {
  }

  /** `x_t` with the rows that were not in this block keeping their own tokens from `e` on. */
  function KeepLaterPrompts(ids: seq<seq<int>>, w: nat, xt: seq<seq<int>>, sbi: seq<nat>, b: nat, e: nat): (rows': seq<seq<int>>)
    requires Rect(ids, w) && Rect(xt, w) && |xt| == |ids| && |sbi| == |ids|
    ensures |rows'| == |ids| && Rect(rows', w)
    ensures forall r, i :: 0 <= r < |ids| && 0 <= i < w ==>
      rows'[r][i] == if sbi[r] == b || i < e then xt[r][i] else ids[r][i]
  {
    var m := Min(e, w);
    seq(|ids|, r requires 0 <= r < |ids| => if sbi[r] == b then xt[r] else xt[r][..m] + ids[r][m..])
  }

  /**
   * Lines 365-379 as evidently intended: a row whose prompt runs past this
   * block keeps its own tokens after the block, as the in-place branch at
   * lines 375-379 does, also when `input_ids` and `x_t` are equally wide.
   */
  function Merge(ids: seq<seq<int>>, w: nat, xt: seq<seq<int>>, wt: nat, sbi: seq<nat>, b: nat, bs: nat)
    : (res: Result<Grid, PyError>)
    requires bs > 0 && Rect(ids, w) && Rect(xt, wt) && |xt| == |ids| && |sbi| == |ids| && 0 < wt
    ensures res.Failure? <==> w != wt && Min(w, (b + 1) * bs) + 1 != wt
    ensures res.Failure? ==> res.error == RuntimeError
    ensures res.Success? ==> |res.value.rows| == |ids| && Rect(res.value.rows, res.value.w) && w <= res.value.w && wt <= res.value.w
    ensures res.Success? && (w <= (b + 1) * bs || !AllAt(sbi, b)) ==> res.value.w == Max(w, wt)
  {
    if w == wt then Success(Grid(KeepLaterPrompts(ids, w, xt, sbi, b, (b + 1) * bs), wt))
    else MergeTail(ids, w, xt, wt, sbi, b, bs)
  }

  /**
   * The corrected write-back keeps every prompt: when `x_t` agrees with
   * `input_ids` on the prompt positions up to the block end, and the prompts
   * of the rows in this block end by the block end, every prompt position of
   * `input_ids` is unchanged.
   */
  lemma MergePreservesPrompts(ids: seq<seq<int>>, w: nat, xt: seq<seq<int>>, wt: nat, sbi: seq<nat>, b: nat, bs: nat,
                              seqLen: seq<nat>)
    requires bs > 0 && Rect(ids, w) && Rect(xt, wt) && |xt| == |ids| && |sbi| == |ids| && 0 < wt && |seqLen| == |ids|
    requires Merge(ids, w, xt, wt, sbi, b, bs).Success?
    requires forall r :: 0 <= r < |ids| ==> seqLen[r] <= w && (sbi[r] == b ==> seqLen[r] <= (b + 1) * bs)
    requires forall r, i :: 0 <= r < |ids| && 0 <= i < seqLen[r] && i < (b + 1) * bs ==> i < wt && xt[r][i] == ids[r][i]
    ensures var g := Merge(ids, w, xt, wt, sbi, b, bs).value;
      forall r, i :: 0 <= r < |ids| && 0 <= i < seqLen[r] ==> i < |g.rows[r]| && g.rows[r][i] == ids[r][i]
  {
    var e := (b + 1) * bs;
    if w != wt && AllAt(sbi, b) && e < w {
      var g := MergeTail(ids, w, xt, wt, sbi, b, bs).value;
      forall r, i | 0 <= r < |ids| && 0 <= i < seqLen[r] ensures g.rows[r][i] == ids[r][i] {
        assert sbi[r] == b;
      }
    }
  }

  /**
   * What the corrected write-back puts into `input_ids`: the decoded prefix
   * up to the block end; all of `x_t` when `input_ids` ended inside the
   * block; and otherwise the token after the block in the rows that were in
   * this block, while a row whose prompt runs past the block keeps its own
   * tokens from the block end on.
   */
  lemma MergeWrites(ids: seq<seq<int>>, w: nat, xt: seq<seq<int>>, wt: nat, sbi: seq<nat>, b: nat, bs: nat)
    requires bs > 0 && Rect(ids, w) && Rect(xt, wt) && |xt| == |ids| && |sbi| == |ids| && 0 < wt
    requires Merge(ids, w, xt, wt, sbi, b, bs).Success?
    ensures var g := Merge(ids, w, xt, wt, sbi, b, bs).value;
      && (forall r, i :: 0 <= r < |ids| && 0 <= i < wt - 1 && i < (b + 1) * bs ==> g.rows[r][i] == xt[r][i])
      && (w <= (b + 1) * bs ==> g == Grid(xt, wt))
      && ((b + 1) * bs < w && !AllAt(sbi, b) ==>
            && (b + 1) * bs < wt
            && forall r :: 0 <= r < |ids| ==>
                 && (sbi[r] == b ==> g.rows[r][(b + 1) * bs] == xt[r][(b + 1) * bs])
                 && (sbi[r] != b ==> forall i :: (b + 1) * bs <= i < w ==> g.rows[r][i] == ids[r][i]))
  {
    var e := (b + 1) * bs;
    if w == wt {
      var rows' := KeepLaterPrompts(ids, w, xt, sbi, b, e);
      if w <= e {
        forall r | 0 <= r < |ids| ensures rows'[r] == xt[r] {
        }
      }
    }
  }

  /** On the same input the corrected write-back keeps that row's prompt token. */
  lemma MergeKeepsPrompt()
    ensures var ids := [[7, 0, 0], [7, 8, 9]];
      var xt := [[7, 4, 5], [7, 8, 6]];
      Merge(ids, 3, xt, 3, [0, 1], 0, 2) == Success(Grid([[7, 4, 5], [7, 8, 9]], 3))
  {
    var ids := [[7, 0, 0], [7, 8, 9]];
    var xt := [[7, 4, 5], [7, 8, 6]];
    var k := KeepLaterPrompts(ids, 3, xt, [0, 1], 0, 2);
    assert k[0] == [7, 4, 5];
    assert k[1] == [7, 8, 9];
    assert k == [[7, 4, 5], [7, 8, 9]];
    assert Merge(ids, 3, xt, 3, [0, 1], 0, 2) == Success(Grid(k, 3));
  }

  /** `seq_block_idx[seq_block_idx == block_idx] = block_idx + 1` (line 380). */
  function AdvanceBlock(sbi: seq<nat>, b: nat): (sbi': seq<nat>)
    ensures |sbi'| == |sbi|
    ensures forall r :: 0 <= r < |sbi| ==> sbi'[r] == if sbi[r] == b then b + 1 else sbi[r]
  {
    seq(|sbi|, r requires 0 <= r < |sbi| => if sbi[r] == b then b + 1 else sbi[r])
  }

  // ---------------------------------------------------------------------
  // The block loop and the collection of samples (lines 153-466)
  // ---------------------------------------------------------------------

  lemma DivMono(a: nat, x: nat, bs: nat)
    requires a <= x && bs > 0
    ensures a / bs <= x / bs
  {
    if a / bs > x / bs {
      assert a == bs * (a / bs) + a % bs && x == bs * (x / bs) + x % bs;
      assert bs * (a / bs) - bs * (x / bs) == bs * (a / bs - x / bs);
      MulBounds(bs, a / bs - x / bs);
    }
  }

  lemma MulMono(a: nat, c: nat, bs: nat)
    requires a <= c
    ensures a * bs <= c * bs
  {
    if a < c && bs > 0 {
      assert c * bs - a * bs == bs * (c - a);
      MulBounds(bs, c - a);
    }
  }

  lemma FloorBelow(x: nat, bs: nat)
    requires bs > 0
    ensures (x / bs) * bs <= x
  {
    assert x == bs * (x / bs) + x % bs;
  }

  /**
   * Where the rows stand relative to block `b`: none is behind it, and a row
   * ahead of it has its prompt's blocks inside `input_ids`.
   */
  predicate BlocksAhead(sbi: seq<nat>, b: nat, bs: nat, w: nat)
  {
    forall r :: 0 <= r < |sbi| ==> b <= sbi[r] && (b < sbi[r] ==> sbi[r] * bs <= w)
  }

  /** When some row is ahead of block `b`, `input_ids` reaches past the block's end. */
  lemma BlockFits(sbi: seq<nat>, b: nat, bs: nat, w: nat)
    requires BlocksAhead(sbi, b, bs, w)
    ensures AllAt(sbi, b) || (b + 1) * bs <= w
  {
    if !AllAt(sbi, b) {
      var r :| 0 <= r < |sbi| && sbi[r] != b;
      MulMono(b + 1, sbi[r], bs);
    }
  }

  /** Line 380 moves the rows of block `b` to block `b + 1`, and `input_ids` only grows. */
  lemma AdvanceKeepsAhead(sbi: seq<nat>, b: nat, bs: nat, w: nat, w': nat)
    requires BlocksAhead(sbi, b, bs, w) && w <= w'
    ensures BlocksAhead(AdvanceBlock(sbi, b), b + 1, bs, w')
  {
  }

  /** Rows filtered by a keep mask keep their width. */
  lemma FilterRect(xs: seq<seq<int>>, ys: seq<seq<int>>, keep: seq<bool>, w: nat)
    requires |xs| == |keep| && Rect(xs, w) && FilteredBy(ys, xs, keep)
    ensures Rect(ys, w)
  {
  }

  /** Block positions filtered by a keep mask stay ahead. */
  lemma FilterAhead(xs: seq<nat>, ys: seq<nat>, keep: seq<bool>, b: nat, bs: nat, w: nat)
    requires |xs| == |keep| && BlocksAhead(xs, b, bs, w) && FilteredBy(ys, xs, keep)
    ensures BlocksAhead(ys, b, bs, w)
  {
  }

  /**
   * Every original index below `n` is either saved in `finished` or still a
   * live row, never both, and live rows have distinct original indices.
   */
  ghost predicate Partition(n: nat, finished: map<nat, seq<int>>, sidx: seq<nat>)
  {
    && Distinct(sidx)
    && (forall k :: k in sidx ==> k < n && k !in finished)
    && (forall k :: k in finished ==> k < n)
    && (forall k: nat :: k < n ==> k in finished || k in sidx)
  }

  /** Original index `k` belongs to a row whose finished flag is set. */
  predicate FlaggedId(sidx: seq<nat>, flags: seq<bool>, k: nat)
    requires |sidx| == |flags|
  {
    exists i :: 0 <= i < |flags| && flags[i] && sidx[i] == k
  }

  /** A live row that survives the trim was not flagged, so it is not saved. */
  lemma SurvivorNotFlagged(sidx: seq<nat>, flags: seq<bool>, k: nat)
    requires |sidx| == |flags| && Distinct(sidx)
    requires k in Filter(sidx, Not(flags))
    ensures !FlaggedId(sidx, flags, k)
  {
    FilterSplits(sidx, Not(flags));
    var i :| 0 <= i < |sidx| && Not(flags)[i] && sidx[i] == k;
    forall j | 0 <= j < |flags| && flags[j] ensures sidx[j] != k {
      assert i != j;
    }
  }

  /** A live row is either flagged, and saved, or survives the trim. */
  lemma LiveFlaggedOrKept(sidx: seq<nat>, flags: seq<bool>, k: nat)
    requires |sidx| == |flags| && Distinct(sidx) && k in sidx
    ensures FlaggedId(sidx, flags, k) || k in Filter(sidx, Not(flags))
  {
    FilterSplits(sidx, Not(flags));
    var i :| 0 <= i < |sidx| && sidx[i] == k;
    assert flags[i] || Not(flags)[i];
  }

  /** Saving the finished rows and dropping them from the live rows keeps the partition. */
  lemma PartitionStep(n: nat, finished: map<nat, seq<int>>, sidx: seq<nat>, flags: seq<bool>,
                      finished': map<nat, seq<int>>, sidx': seq<nat>)
    requires Partition(n, finished, sidx) && |flags| == |sidx|
    requires sidx' == Filter(sidx, Not(flags))
    requires forall k: nat :: k in finished' <==> k in finished || FlaggedId(sidx, flags, k)
    ensures Partition(n, finished', sidx')
  {
    FilterSplits(sidx, Not(flags));
    forall k | k in sidx' ensures k < n && k !in finished' {
      SurvivorNotFlagged(sidx, flags, k);
    }
    forall k | k in finished' ensures k < n {
      if FlaggedId(sidx, flags, k) {
        var i :| 0 <= i < |flags| && flags[i] && sidx[i] == k;
        assert sidx[i] in sidx;
      }
    }
    forall k: nat | k < n ensures k in finished' || k in sidx' {
      if k in sidx {
        LiveFlaggedOrKept(sidx, flags, k);
      }
    }
  }

  /** The original indices `0 .. n - 1` as a set. */
  function Indices(n: nat): (s: set<nat>)
    ensures |s| == n
    ensures forall k: nat :: k in s <==> k < n
  {
    if n == 0 then {} else Indices(n - 1) + {n - 1}
  }

  /** A set of indices below `n` with at least `n` members holds every index below `n`. */
  lemma FullIndexSet(a: set<nat>, n: nat)
    requires forall k :: k in a ==> k < n
    ensures |a| <= n
    ensures |a| >= n ==> a == Indices(n)
  {
    var full := Indices(n);
    assert a * full == a;
    assert |full - a| == |full| - |a|;
    if |a| >= n {
      assert full - a == {};
    }
  }

  /** The state the block loop carries from one block to the next (lines 185-192). */
  datatype Loop<T> = Loop(sidx: seq<nat>, ids: seq<seq<int>>, w: nat, sbi: seq<nat>, seqLen: seq<nat>,
                          xt: Option<seq<seq<int>>>, finished: map<nat, seq<int>>,
                          past: Option<PastKV<T>>, reuse: ReuseState)

  /**
   * Where each prompt ends relative to its row's block: before the end of the
   * block the row is at, and, for a row ahead of block `b`, not before the
   * start of that block.
   */
  predicate PromptsPlaced(sbi: seq<nat>, seqLen: seq<nat>, b: nat, bs: nat)
  {
    |seqLen| == |sbi| &&
    forall r :: 0 <= r < |sbi| ==> seqLen[r] < (sbi[r] + 1) * bs && (b < sbi[r] ==> sbi[r] * bs <= seqLen[r])
  }

  /**
   * What holds at the head of every block: the per-sample arrays agree in
   * length, no row is behind the block, every prompt lies where its block
   * says, and the original indices are partitioned between saved and live
   * rows.
   */
  ghost predicate LoopInv<T>(n: nat, b: nat, bs: nat, st: Loop<T>)
  {
    && Rect(st.ids, st.w) && |st.ids| == |st.sidx| && |st.sbi| == |st.sidx| && |st.seqLen| == |st.sidx|
    && (st.xt.Some? ==> |st.xt.value| == |st.sidx|)
    && BlocksAhead(st.sbi, b, bs, st.w)
    && PromptsPlaced(st.sbi, st.seqLen, b, bs)
    && Partition(n, st.finished, st.sidx)
  }

  /** Each live row has the prompt length of its original index. */
  ghost predicate TracksLen(seqLen0: seq<nat>, sidx: seq<nat>, seqLen: seq<nat>)
  {
    |seqLen| == |sidx| && forall r :: 0 <= r < |sidx| ==> sidx[r] < |seqLen0| && seqLen[r] == seqLen0[sidx[r]]
  }

  /** Each live row of `input_ids` still starts with the prompt of its original index. */
  ghost predicate TracksPrompts(prompts: seq<seq<int>>, sidx: seq<nat>, ids: seq<seq<int>>, seqLen: seq<nat>)
  {
    && |ids| == |sidx| && |seqLen| == |sidx|
    && (forall r :: 0 <= r < |sidx| ==> sidx[r] < |prompts| && seqLen[r] <= |prompts[sidx[r]]| && seqLen[r] <= |ids[r]|)
    && forall r, i :: 0 <= r < |sidx| && 0 <= i < seqLen[r] ==> ids[r][i] == prompts[sidx[r]][i]
  }

  /** A KV cache, when there is one, that fits a batch of `n` rows. */
  predicate PastFits<T>(past: Option<PastKV<T>>, n: nat)
  {
    past.Some? ==> KVFits(past.value, n)
  }

  /** Every KV cache the model returns has one row per row of its input. */
  ghost predicate AdvanceFits<T(!new), L>(o: Oracles<Option<PastKV<T>>, L>)
  {
    forall req :: PastFits(o.advance(req), |req.tokens|)
  }

  /** Some live row's block ends past the end of `input_ids`. */
  ghost predicate Wide(sbi: seq<nat>, w: nat, bs: nat)
  {
    |sbi| > 0 ==> exists r :: 0 <= r < |sbi| && w < (sbi[r] + 1) * bs
  }

  /**
   * The settings under which no block raises: a stop token distinct from the
   * mask id (the defaults at lines 146-148), blocks of at least two
   * positions, and a model whose KV caches have one row per sample.
   */
  ghost predicate Sound<T(!new), L>(p: Params, o: Oracles<Option<PastKV<T>>, L>)
  {
    p.stopToken != p.maskId && 2 <= p.blockSize && AdvanceFits(o)
  }

  /**
   * The loop state under which no block raises: no prompt holds the mask id,
   * the KV cache fits the live rows, and `input_ids` ends before the end of
   * the farthest row's block.
   */
  ghost predicate OnTrack<T>(p: Params, st: Loop<T>)
  {
    && Rect(st.ids, st.w) && |st.seqLen| == |st.ids|
    && PromptsUnmasked(st.ids, st.w, st.seqLen, p.maskId)
    && PastFits(st.past, |st.sidx|)
    && Wide(st.sbi, st.w, p.blockSize)
  }

  /** Line 380 keeps every prompt placed relative to its row's block. */
  lemma AdvancePlaced(sbi: seq<nat>, seqLen: seq<nat>, b: nat, bs: nat)
    requires PromptsPlaced(sbi, seqLen, b, bs)
    ensures PromptsPlaced(AdvanceBlock(sbi, b), seqLen, b + 1, bs)
  {
    forall r | 0 <= r < |sbi| && sbi[r] == b ensures seqLen[r] < (b + 2) * bs {
      MulMono(b + 1, b + 2, bs);
    }
  }

  /**
   * When every row is in block `b` and `input_ids` ends before the block end,
   * the padded buffer ends at the block end, so the write-back cannot raise
   * and leaves `input_ids` at most one past the block end.
   */
  lemma MergeAllAt(ids: seq<seq<int>>, w: nat, sbi: seq<nat>, b: nat, bs: nat, maskId: int, start: Grid, xt: Grid)
    requires 2 <= bs && Rect(ids, w) && |sbi| == |ids| && AllAt(sbi, b)
    requires |ids| > 0 ==> w < (b + 1) * bs
    requires start == PaddedStart(ids, w, bs, maskId)
    requires |xt.rows| == |ids| && Rect(xt.rows, xt.w) && 0 < xt.w
    requires xt.w == start.w || (|ids| > 0 && xt.w == start.w + 1)
    ensures Merge(start.rows, start.w, xt.rows, xt.w, sbi, b, bs).Success?
    ensures |ids| > 0 ==> Merge(start.rows, start.w, xt.rows, xt.w, sbi, b, bs).value.w < (b + 2) * bs
  {
    if |ids| > 0 {
      PadFits(w, b, bs);
      assert (b + 2) * bs == (b + 1) * bs + bs;
    }
  }

  /**
   * When some row is ahead of block `b` and `input_ids` ends before that
   * row's block end, the row's window lies inside its prompt, so the row is
   * not flagged, the correction column is appended and the write-back cannot
   * raise; `input_ids` again ends before that row's block end.
   */
  lemma MergeAhead(p: Params, b: nat, ids: seq<seq<int>>, w: nat, sbi: seq<nat>, seqLen: seq<nat>, r: nat,
                   start: Grid, xt: Grid, flags: seq<bool>)
    requires 2 <= p.blockSize && Rect(ids, w) && |sbi| == |ids| && |seqLen| == |ids| && !AllAt(sbi, b)
    requires BlocksAhead(sbi, b, p.blockSize, w) && PromptsPlaced(sbi, seqLen, b, p.blockSize)
    requires PromptsUnmasked(ids, w, seqLen, p.maskId)
    requires 0 <= r < |ids| && w < (sbi[r] + 1) * p.blockSize
    requires (b + 1) * p.blockSize <= w
    requires start == BlockStart(ids, w, sbi, b, p.blockSize, p.maskId)
    requires |xt.rows| == |ids| && |flags| == |ids| && Rect(xt.rows, xt.w)
    requires xt.w == start.w || xt.w == start.w + 1
    requires xt.w == start.w <==> forall r :: 0 <= r < |ids| ==> flags[r]
    requires forall r :: 0 <= r < |ids| && flags[r] ==> RowWindowMasked(start.rows[r], start.w, p.blockSize, p.maskId)
    ensures 0 < xt.w && !flags[r] && b < sbi[r]
    ensures Merge(ids, w, xt.rows, xt.w, sbi, b, p.blockSize).Success?
    ensures Merge(ids, w, xt.rows, xt.w, sbi, b, p.blockSize).value.w < (sbi[r] + 1) * p.blockSize
  {
    var bs := p.blockSize;
    var e := (b + 1) * bs;
    if sbi[r] == b {
      assert false;
    }
    MulMono(b + 1, sbi[r], bs);
    MulMono(b + 2, sbi[r] + 1, bs);
    assert (b + 2) * bs == e + bs;
  }

  /**
   * Lines 365-379 cannot raise in a healthy state: when every row is in this
   * block, `input_ids` is padded to at most the block end, so the decoded
   * block fits; otherwise a row ahead of the block holds only prompt tokens in
   * the window, is never flagged, and so the correction column is appended.
   * The merged `input_ids` again ends before some row's block end.
   */
  lemma BlockMerges(p: Params, b: nat, ids: seq<seq<int>>, w: nat, sbi: seq<nat>, seqLen: seq<nat>,
                    start: Grid, idsM: Grid, xt: Grid, flags: seq<bool>)
    requires 2 <= p.blockSize && Rect(ids, w) && |sbi| == |ids| && |seqLen| == |ids|
    requires BlocksAhead(sbi, b, p.blockSize, w) && PromptsPlaced(sbi, seqLen, b, p.blockSize)
    requires PromptsUnmasked(ids, w, seqLen, p.maskId) && Wide(sbi, w, p.blockSize)
    requires AllAt(sbi, b) || (b + 1) * p.blockSize <= w
    requires start == BlockStart(ids, w, sbi, b, p.blockSize, p.maskId)
    requires idsM == (if AllAt(sbi, b) then start else Grid(ids, w))
    requires |xt.rows| == |ids| && |flags| == |ids| && Rect(xt.rows, xt.w)
    requires xt.w == start.w || xt.w == start.w + 1
    requires xt.w == start.w <==> forall r :: 0 <= r < |ids| ==> flags[r]
    requires forall r :: 0 <= r < |ids| && flags[r] ==> RowWindowMasked(start.rows[r], start.w, p.blockSize, p.maskId)
    ensures 0 < xt.w && Merge(idsM.rows, idsM.w, xt.rows, xt.w, sbi, b, p.blockSize).Success?
    ensures StaysWide(b, p.blockSize, sbi, flags, Merge(idsM.rows, idsM.w, xt.rows, xt.w, sbi, b, p.blockSize).value.w)
  {
    if AllAt(sbi, b) {
      if |ids| > 0 {
        var r :| 0 <= r < |sbi| && w < (sbi[r] + 1) * p.blockSize;
        assert sbi[r] == b;
      }
      assert idsM == start;
      MergeAllAt(ids, w, sbi, b, p.blockSize, p.maskId, start, xt);
    } else {
      assert idsM == Grid(ids, w);
      var r :| 0 <= r < |sbi| && w < (sbi[r] + 1) * p.blockSize;
      BlockFits(sbi, b, p.blockSize, w);
      MergeAhead(p, b, ids, w, sbi, seqLen, r, start, xt, flags);
    }
  }

  /**
   * `x_t` agrees with the buffer it is written back into on every prompt
   * position before the block end: the window holds no prompt mask id, so
   * neither the small-block loop nor the cut touches a prompt position.
   */
  lemma BlockAgreesOnPrompts(p: Params, b: nat, ids: seq<seq<int>>, w: nat, sbi: seq<nat>, seqLen: seq<nat>,
                             start: Grid, idsM: Grid, xt: Grid, flags: seq<bool>)
    requires 0 < p.blockSize && Rect(ids, w) && |sbi| == |ids| && |seqLen| == |ids|
    requires AllAt(sbi, b) || (b + 1) * p.blockSize <= w
    requires PromptsUnmasked(ids, w, seqLen, p.maskId)
    requires start == BlockStart(ids, w, sbi, b, p.blockSize, p.maskId)
    requires idsM == (if AllAt(sbi, b) then start else Grid(ids, w))
    requires |xt.rows| == |ids| && |flags| == |ids| && Rect(xt.rows, xt.w) && start.w <= xt.w
    requires BatchResolved(start.rows, xt.rows, flags, seqLen, (b + 1) * p.blockSize, start.w, p.blockSize, p)
    ensures Rect(idsM.rows, idsM.w) && |idsM.rows| == |ids| && w <= idsM.w
    ensures forall r, i :: 0 <= r < |ids| && 0 <= i < seqLen[r] ==> i < w && i < idsM.w && idsM.rows[r][i] == ids[r][i]
    ensures forall r, i :: 0 <= r < |ids| && 0 <= i < seqLen[r] && i < (b + 1) * p.blockSize ==>
      i < xt.w && xt.rows[r][i] == idsM.rows[r][i]
    ensures forall r :: 0 <= r < |ids| ==> seqLen[r] <= idsM.w
  {
    StartUnmasked(ids, w, sbi, b, p.blockSize, seqLen, p.maskId);
    ResolvedKeepsPrompts(start.rows, xt.rows, flags, seqLen, (b + 1) * p.blockSize, start.w, p.blockSize, p);
    forall r, i | 0 <= r < |ids| && 0 <= i < seqLen[r]
      ensures i < w && i < idsM.w && idsM.rows[r][i] == ids[r][i]
      ensures i < (b + 1) * p.blockSize ==> i < xt.w && xt.rows[r][i] == idsM.rows[r][i]
    {
      if i < (b + 1) * p.blockSize {
        assert start.rows[r][i] == ids[r][i];
      }
    }
  }

  /**
   * The decoded block keeps every prompt: positions of a prompt without mask
   * ids are not touched by the small-block loop or the cut, and the corrected
   * write-back copies them back unchanged.
   */
  lemma BlockKeepsPrompts(p: Params, b: nat, ids: seq<seq<int>>, w: nat, sbi: seq<nat>, seqLen: seq<nat>,
                          idsM: Grid, xt: Grid, flags: seq<bool>)
    requires 0 < p.blockSize && Rect(ids, w) && |sbi| == |ids| && |seqLen| == |ids|
    requires BlocksAhead(sbi, b, p.blockSize, w) && PromptsPlaced(sbi, seqLen, b, p.blockSize)
    requires PromptsUnmasked(ids, w, seqLen, p.maskId)
    requires var start := BlockStart(ids, w, sbi, b, p.blockSize, p.maskId);
      && idsM == (if AllAt(sbi, b) then start else Grid(ids, w))
      && |xt.rows| == |ids| && |flags| == |ids| && Rect(xt.rows, xt.w) && start.w <= xt.w && 0 < xt.w
      && BatchResolved(start.rows, xt.rows, flags, seqLen, (b + 1) * p.blockSize, start.w, p.blockSize, p)
    requires Merge(idsM.rows, idsM.w, xt.rows, xt.w, sbi, b, p.blockSize).Success?
    ensures var g := Merge(idsM.rows, idsM.w, xt.rows, xt.w, sbi, b, p.blockSize).value;
      forall r, i :: 0 <= r < |ids| && 0 <= i < seqLen[r] ==> i < w && i < |g.rows[r]| && g.rows[r][i] == ids[r][i]
  {
    BlockFits(sbi, b, p.blockSize, w);
    var start := BlockStart(ids, w, sbi, b, p.blockSize, p.maskId);
    BlockAgreesOnPrompts(p, b, ids, w, sbi, seqLen, start, idsM, xt, flags);
    MergePreservesPrompts(idsM.rows, idsM.w, xt.rows, xt.w, sbi, b, p.blockSize, seqLen);
  }

  /** The per-sample arrays after lines 382-452: filtered by `~finished_flag` when some row finished. */
  function Survivors(batch: Batch): (nb: Batch)
    requires Compaction.Aligned(batch)
    ensures Compaction.Aligned(nb)
    ensures !AnyFinished(batch) ==> nb == batch
    ensures forall j :: 0 <= j < |nb.flags| ==> !nb.flags[j]
  {
    if AnyFinished(batch) then FilterBatch(batch, Not(batch.flags)) else batch
  }

  /** Each survivor is an unflagged row of the batch, taken whole. */
  lemma SurvivorOrigin(batch: Batch, j: nat) returns (r: nat)
    requires Compaction.Aligned(batch) && j < |Survivors(batch).sampleIndices|
    ensures r < |batch.flags| && !batch.flags[r]
    ensures var nb := Survivors(batch);
      && nb.sampleIndices[j] == batch.sampleIndices[r] && nb.inputIds[j] == batch.inputIds[r]
      && nb.seqLen[j] == batch.seqLen[r] && nb.seqBlockIdx[j] == batch.seqBlockIdx[r]
  {
    if AnyFinished(batch) {
      r := Kept(Not(batch.flags))[j];
    } else {
      r := j;
    }
  }

  /** Dropping the finished rows keeps each survivor's prompt length with its original index. */
  lemma SurvivorsTrackLen(batch: Batch, seqLen0: seq<nat>)
    requires Compaction.Aligned(batch) && TracksLen(seqLen0, batch.sampleIndices, batch.seqLen)
    ensures TracksLen(seqLen0, Survivors(batch).sampleIndices, Survivors(batch).seqLen)
  {
    var nb := Survivors(batch);
    forall j | 0 <= j < |nb.sampleIndices|
      ensures nb.sampleIndices[j] < |seqLen0| && nb.seqLen[j] == seqLen0[nb.sampleIndices[j]]
    {
      var r := SurvivorOrigin(batch, j);
    }
  }

  /** Dropping the finished rows keeps the width of `input_ids` and every prompt free of mask ids. */
  lemma SurvivorsUnmasked(batch: Batch, w: nat, maskId: int)
    requires Compaction.Aligned(batch) && Rect(batch.inputIds, w)
    ensures Rect(Survivors(batch).inputIds, w)
    ensures PromptsUnmasked(batch.inputIds, w, batch.seqLen, maskId) ==>
      PromptsUnmasked(Survivors(batch).inputIds, w, Survivors(batch).seqLen, maskId)
  {
    var nb := Survivors(batch);
    forall j | 0 <= j < |nb.inputIds| ensures |nb.inputIds[j]| == w {
      var r := SurvivorOrigin(batch, j);
    }
    if PromptsUnmasked(batch.inputIds, w, batch.seqLen, maskId) {
      forall j | 0 <= j < |nb.inputIds| ensures nb.seqLen[j] <= w {
        var r := SurvivorOrigin(batch, j);
      }
      forall j, i | 0 <= j < |nb.inputIds| && 0 <= i < nb.seqLen[j] ensures nb.inputIds[j][i] != maskId {
        var r := SurvivorOrigin(batch, j);
        assert batch.inputIds[r][i] != maskId;
      }
    }
  }

  /** Dropping the finished rows keeps each survivor's prompt tied to its original index. */
  lemma SurvivorsTrackPrompts(batch: Batch, prompts: seq<seq<int>>)
    requires Compaction.Aligned(batch) && TracksPrompts(prompts, batch.sampleIndices, batch.inputIds, batch.seqLen)
    ensures TracksPrompts(prompts, Survivors(batch).sampleIndices, Survivors(batch).inputIds, Survivors(batch).seqLen)
  {
    var nb := Survivors(batch);
    forall j | 0 <= j < |nb.sampleIndices|
      ensures nb.sampleIndices[j] < |prompts| && nb.seqLen[j] <= |prompts[nb.sampleIndices[j]]| && nb.seqLen[j] <= |nb.inputIds[j]|
    {
      var r := SurvivorOrigin(batch, j);
    }
    forall j, i | 0 <= j < |nb.sampleIndices| && 0 <= i < nb.seqLen[j]
      ensures nb.inputIds[j][i] == prompts[nb.sampleIndices[j]][i]
    {
      var r := SurvivorOrigin(batch, j);
      assert batch.inputIds[r][i] == prompts[batch.sampleIndices[r]][i];
    }
  }

  /** An unflagged row survives, and with it its block position. */
  lemma SurvivorsKeepUnflagged(batch: Batch, r: nat) returns (j: nat)
    requires Compaction.Aligned(batch) && r < |batch.flags| && !batch.flags[r]
    ensures j < |Survivors(batch).seqBlockIdx| && Survivors(batch).seqBlockIdx[j] == batch.seqBlockIdx[r]
  {
    if AnyFinished(batch) {
      var nb := Survivors(batch);
      var ks := Kept(Not(batch.flags));
      assert Not(batch.flags)[r];
      j :| 0 <= j < |ks| && ks[j] == r;
      assert nb.seqBlockIdx[j] == batch.seqBlockIdx[r];
    } else {
      j := r;
    }
  }

  /** When every row is in block `v`, so is every survivor. */
  lemma SurvivorsAt(batch: Batch, v: nat)
    requires Compaction.Aligned(batch)
    requires forall r :: 0 <= r < |batch.seqBlockIdx| ==> batch.seqBlockIdx[r] == v
    ensures forall j :: 0 <= j < |Survivors(batch).seqBlockIdx| ==> Survivors(batch).seqBlockIdx[j] == v
  {
    forall j | 0 <= j < |Survivors(batch).seqBlockIdx| ensures Survivors(batch).seqBlockIdx[j] == v {
      var r := SurvivorOrigin(batch, j);
    }
  }

  /** What lines 194-380 leave for the trim: the per-sample arrays, the width of `input_ids`, the KV cache and the reuse state. */
  /**
   * After block `b`'s write-back `input_ids` still ends before the end of
   * some row's block: the next block when every row was in this one, and
   * otherwise the block of an unfinished row ahead of it.
   */
  ghost predicate StaysWide(b: nat, bs: nat, sbi: seq<nat>, flags: seq<bool>, w: nat)
    requires |flags| == |sbi|
  {
    && (AllAt(sbi, b) && |sbi| > 0 ==> w < (b + 2) * bs)
    && (!AllAt(sbi, b) ==> exists r :: 0 <= r < |sbi| && !flags[r] && b < sbi[r] && w < (sbi[r] + 1) * bs)
  }

  datatype Merged<T> = Merged(batch: Batch, w: nat, past: Option<PastKV<T>>, reuse: ReuseState)

  /**
   * Lines 194-380 for block `b`: decode the block, write it back into
   * `input_ids` and advance the rows of block `b`. It raises only IndexError
   * or RuntimeError. The live rows keep their order, original indices and
   * prompt lengths, no row is behind the next block, every prompt is where
   * its block says, `input_ids` only grows and keeps every prompt. In a
   * healthy state the block does not raise, the KV cache still fits, and
   * `input_ids` ends before the end of some row's block that survives the
   * trim.
   */
  method DecodeAndMerge<T(!new), L(!new)>(p: Params, o: Oracles<Option<PastKV<T>>, L>, n: nat, b: nat, st: Loop<T>,
                                          ghost prompts: seq<seq<int>>)
    returns (res: Result<Merged<T>, PyError>)
    requires Tiles(p) && SamplerAvoidsMask(o, p.maskId)
    requires LoopInv(n, b, p.blockSize, st)
    ensures res.Failure? ==> res.error == IndexError || res.error == RuntimeError
    ensures res.Success? ==> var m := res.value;
      && Compaction.Aligned(m.batch) && Rect(m.batch.inputIds, m.w) && st.w <= m.w
      && m.batch.sampleIndices == st.sidx && m.batch.seqLen == st.seqLen
      && m.batch.seqBlockIdx == AdvanceBlock(st.sbi, b)
      && BlocksAhead(m.batch.seqBlockIdx, b + 1, p.blockSize, m.w)
      && PromptsPlaced(m.batch.seqBlockIdx, m.batch.seqLen, b + 1, p.blockSize)
    ensures res.Success? && PromptsUnmasked(st.ids, st.w, st.seqLen, p.maskId) ==>
      && PromptsUnmasked(res.value.batch.inputIds, res.value.w, st.seqLen, p.maskId)
      && (TracksPrompts(prompts, st.sidx, st.ids, st.seqLen) ==>
            TracksPrompts(prompts, st.sidx, res.value.batch.inputIds, st.seqLen))
    ensures Sound(p, o) && OnTrack(p, st) ==> res.Success? && PastFits(res.value.past, |st.sidx|)
    ensures Sound(p, o) && OnTrack(p, st) && res.Success? ==>
      StaysWide(b, p.blockSize, st.sbi, res.value.batch.flags, res.value.w)
  {
    var bs := p.blockSize;
    BlockFits(st.sbi, b, bs, st.w);
    var dec := DecodeBlock(p, o, b, st.ids, st.w, st.sbi, st.seqLen, st.past, st.reuse);
    if dec.Failure? {
      return Failure(dec.error);
    }
    var d := dec.value;
    if Sound(p, o) && OnTrack(p, st) {
      HealthyMerge(p, o, n, b, st, d);
    }
    var merged := Merge(d.ids.rows, d.ids.w, d.xt.rows, d.xt.w, st.sbi, b, bs);
    if merged.Failure? {
      return Failure(merged.error);
    }
    var g := merged.value;
    if PromptsUnmasked(st.ids, st.w, st.seqLen, p.maskId) {
      MergeKeepsPrompts(p, o, n, b, st, d, prompts);
    }
    var sbi' := AdvanceBlock(st.sbi, b);
    AdvanceKeepsAhead(st.sbi, b, bs, st.w, g.w);
    AdvancePlaced(st.sbi, st.seqLen, b, bs);
    res := Success(Merged(Batch(st.sidx, g.rows, sbi', st.seqLen, d.xt.rows, d.flags), g.w, d.past, d.reuse));
  }

  /**
   * In a healthy state the write-back of a decoded block cannot raise, the KV
   * cache still fits, and `input_ids` ends before the end of the block of
   * some row that is not flagged.
   */
  lemma HealthyMerge<T(!new), L>(p: Params, o: Oracles<Option<PastKV<T>>, L>, n: nat, b: nat, st: Loop<T>, d: Decoded<T>)
    requires Tiles(p) && LoopInv(n, b, p.blockSize, st) && Sound(p, o) && OnTrack(p, st)
    requires AllAt(st.sbi, b) || (b + 1) * p.blockSize <= st.w
    requires DecodedFrom(p, o, b, st.ids, st.w, st.sbi, st.seqLen, st.past, d)
    ensures 0 < d.xt.w && Rect(d.ids.rows, d.ids.w) && |d.ids.rows| == |st.ids| && PastFits(d.past, |st.sidx|)
    ensures Merge(d.ids.rows, d.ids.w, d.xt.rows, d.xt.w, st.sbi, b, p.blockSize).Success?
    ensures StaysWide(b, p.blockSize, st.sbi, d.flags, Merge(d.ids.rows, d.ids.w, d.xt.rows, d.xt.w, st.sbi, b, p.blockSize).value.w)
  {
    var start := BlockStart(st.ids, st.w, st.sbi, b, p.blockSize, p.maskId);
    BlockMerges(p, b, st.ids, st.w, st.sbi, st.seqLen, start, d.ids, d.xt, d.flags);
    AdvanceFitsCorrection(p, o, b, st, d);
  }

  /** The write-back of a decoded block keeps every prompt of `input_ids`, unmasked and tied to its index. */
  lemma MergeKeepsPrompts<T, L>(p: Params, o: Oracles<Option<PastKV<T>>, L>, n: nat, b: nat, st: Loop<T>, d: Decoded<T>,
                                prompts: seq<seq<int>>)
    requires Tiles(p) && LoopInv(n, b, p.blockSize, st) && PromptsUnmasked(st.ids, st.w, st.seqLen, p.maskId)
    requires AllAt(st.sbi, b) || (b + 1) * p.blockSize <= st.w
    requires DecodedFrom(p, o, b, st.ids, st.w, st.sbi, st.seqLen, st.past, d)
    requires 0 < d.xt.w && Rect(d.ids.rows, d.ids.w) && |d.ids.rows| == |st.ids|
    requires Merge(d.ids.rows, d.ids.w, d.xt.rows, d.xt.w, st.sbi, b, p.blockSize).Success?
    ensures var g := Merge(d.ids.rows, d.ids.w, d.xt.rows, d.xt.w, st.sbi, b, p.blockSize).value;
      && PromptsUnmasked(g.rows, g.w, st.seqLen, p.maskId)
      && (TracksPrompts(prompts, st.sidx, st.ids, st.seqLen) ==> TracksPrompts(prompts, st.sidx, g.rows, st.seqLen))
  {
    var g := Merge(d.ids.rows, d.ids.w, d.xt.rows, d.xt.w, st.sbi, b, p.blockSize).value;
    BlockKeepsPrompts(p, b, st.ids, st.w, st.sbi, st.seqLen, d.ids, d.xt, d.flags);
    PromptsCarry(st.ids, st.w, g.rows, g.w, st.sidx, st.seqLen, p.maskId, prompts);
  }

  /** A buffer that keeps every prompt position of `ids` keeps the prompts unmasked and tied to their indices. */
  lemma PromptsCarry(ids: seq<seq<int>>, w: nat, rows: seq<seq<int>>, w': nat, sidx: seq<nat>, seqLen: seq<nat>,
                     maskId: int, prompts: seq<seq<int>>)
    requires Rect(ids, w) && Rect(rows, w') && |rows| == |ids| && |sidx| == |ids| && |seqLen| == |ids| && w <= w'
    requires PromptsUnmasked(ids, w, seqLen, maskId)
    requires forall r, i :: 0 <= r < |ids| && 0 <= i < seqLen[r] ==> i < w && i < |rows[r]| && rows[r][i] == ids[r][i]
    ensures PromptsUnmasked(rows, w', seqLen, maskId)
    ensures TracksPrompts(prompts, sidx, ids, seqLen) ==> TracksPrompts(prompts, sidx, rows, seqLen)
  {
  }

  /**
   * One pass of the block loop, lines 194-452: decode block `b`, merge it
   * into `input_ids`, advance the rows of block `b`, then save and drop the
   * finished rows. It raises only IndexError or RuntimeError. Rows never go
   * behind the next block, the partition of original indices is kept,
   * `input_ids` only grows, every saved sample is kept as it was, and every
   * live row keeps its own prompt and prompt length. In a healthy state
   * (`Sound` settings, `OnTrack` state) the pass does not raise and leaves a
   * healthy state.
   */
  method BlockStep<T(!new), L(!new)>(p: Params, o: Oracles<Option<PastKV<T>>, L>, n: nat, b: nat, st: Loop<T>,
                                     ghost seqLen0: seq<nat>, ghost prompts: seq<seq<int>>)
    returns (res: Result<Loop<T>, PyError>)
    requires Tiles(p) && SamplerAvoidsMask(o, p.maskId)
    requires LoopInv(n, b, p.blockSize, st)
    ensures res.Failure? ==> res.error == IndexError || res.error == RuntimeError
    ensures res.Success? ==> LoopInv(n, b + 1, p.blockSize, res.value)
    ensures res.Success? ==> st.w <= res.value.w && res.value.xt.Some?
    ensures res.Success? ==> forall k :: k in st.finished ==> k in res.value.finished && res.value.finished[k] == st.finished[k]
    ensures res.Success? && TracksLen(seqLen0, st.sidx, st.seqLen) ==> TracksLen(seqLen0, res.value.sidx, res.value.seqLen)
    ensures res.Success? && PromptsUnmasked(st.ids, st.w, st.seqLen, p.maskId) ==>
      && PromptsUnmasked(res.value.ids, res.value.w, res.value.seqLen, p.maskId)
      && (TracksPrompts(prompts, st.sidx, st.ids, st.seqLen) ==>
            TracksPrompts(prompts, res.value.sidx, res.value.ids, res.value.seqLen))
    ensures Sound(p, o) && OnTrack(p, st) ==> res.Success? && OnTrack(p, res.value)
  {
    var bs := p.blockSize;
    var step := DecodeAndMerge(p, o, n, b, st, prompts);
    if step.Failure? {
      return Failure(step.error);
    }
    var m := step.value;
    var batch := m.batch;
    res := DropFinished(n, b + 1, bs, batch, m.w, st.finished, m.past, m.reuse);
    if res.Success? {
      if TracksLen(seqLen0, st.sidx, st.seqLen) {
        SurvivorsTrackLen(batch, seqLen0);
      }
      SurvivorsUnmasked(batch, m.w, p.maskId);
      if TracksPrompts(prompts, st.sidx, batch.inputIds, st.seqLen) {
        SurvivorsTrackPrompts(batch, prompts);
      }
      if Sound(p, o) && OnTrack(p, st) {
        StepWide(b, bs, st.sbi, batch, m.w);
      }
    }
  }

  /**
   * After the trim `input_ids` still ends before the end of some surviving
   * row's block: when every row was in block `b`, every survivor is in block
   * `b + 1`, which `input_ids` does not fill; otherwise the unflagged row ahead
   * of the block survives.
   */
  lemma StepWide(b: nat, bs: nat, sbi: seq<nat>, batch: Batch, w: nat)
    requires Compaction.Aligned(batch) && |sbi| == |batch.sampleIndices| && batch.seqBlockIdx == AdvanceBlock(sbi, b)
    requires StaysWide(b, bs, sbi, batch.flags, w)
    ensures Wide(Survivors(batch).seqBlockIdx, w, bs)
  {
    if AllAt(sbi, b) {
      StepWideAll(b, bs, sbi, batch, w);
    } else {
      var r :| 0 <= r < |sbi| && !batch.flags[r] && b < sbi[r] && w < (sbi[r] + 1) * bs;
      StepWideAhead(b, bs, sbi, batch, w, r);
    }
  }

  /** `StepWide` when every row was in this block: every survivor is at the next block. */
  lemma StepWideAll(b: nat, bs: nat, sbi: seq<nat>, batch: Batch, w: nat)
    requires Compaction.Aligned(batch) && |sbi| == |batch.sampleIndices| && batch.seqBlockIdx == AdvanceBlock(sbi, b)
    requires AllAt(sbi, b) && (|sbi| > 0 ==> w < (b + 2) * bs)
    ensures Wide(Survivors(batch).seqBlockIdx, w, bs)
  {
    if |Survivors(batch).seqBlockIdx| > 0 {
      SurvivorsAt(batch, b + 1);
      WideAt(Survivors(batch).seqBlockIdx, 0, w, bs);
    }
  }

  /** `StepWide` when unfinished row `r` was ahead of this block: its block survives. */
  lemma StepWideAhead(b: nat, bs: nat, sbi: seq<nat>, batch: Batch, w: nat, r: nat)
    requires Compaction.Aligned(batch) && |sbi| == |batch.sampleIndices| && batch.seqBlockIdx == AdvanceBlock(sbi, b)
    requires r < |sbi| && !batch.flags[r] && b < sbi[r] && w < (sbi[r] + 1) * bs
    ensures Wide(Survivors(batch).seqBlockIdx, w, bs)
  {
    assert batch.seqBlockIdx[r] == sbi[r];
    var j := SurvivorsKeepUnflagged(batch, r);
    WideAt(Survivors(batch).seqBlockIdx, j, w, bs);
  }

  /** A witness for `Wide`. */
  lemma WideAt(sbi: seq<nat>, j: nat, w: nat, bs: nat)
    requires j < |sbi| && w < (sbi[j] + 1) * bs
    ensures Wide(sbi, w, bs)
  {
  }

  /**
   * After a block the KV cache fits the rows of the block: it is either the
   * cache from before, when every row finished, or the cache the correction
   * pass returned for the block's rows.
   */
  lemma AdvanceFitsCorrection<T(!new), L>(p: Params, o: Oracles<Option<PastKV<T>>, L>, b: nat, st: Loop<T>, d: Decoded<T>)
    requires AdvanceFits(o) && 0 < p.blockSize && Rect(st.ids, st.w) && |st.sbi| == |st.ids| && |st.sidx| == |st.ids|
    requires |st.seqLen| == |st.ids| && (AllAt(st.sbi, b) || (b + 1) * p.blockSize <= st.w)
    requires PastFits(st.past, |st.sidx|)
    requires DecodedFrom(p, o, b, st.ids, st.w, st.sbi, st.seqLen, st.past, d)
    ensures PastFits(d.past, |st.sidx|)
  {
    var start := BlockStart(st.ids, st.w, st.sbi, b, p.blockSize, p.maskId);
    if d.xt.w == start.w + 1 {
      var rows := Prefix(d.xt.rows, d.xt.w, start.w);
      var req := CorrectionRequest(rows, start.w, p.blockSize, st.past, d.reuse);
      assert PastFits(o.advance(req), |req.tokens|);
    }
  }

  /**
   * Lines 382-452 inside the block loop: the finished rows are saved and
   * dropped from every per-sample array and from the KV cache; the trim
   * raises IndexError exactly when the KV cache does not fit the batch. The
   * loop invariant carries over to the next block, and every saved sample is
   * kept as it was.
   */
  method DropFinished<T>(n: nat, b: nat, bs: nat, batch: Batch, w: nat, finished: map<nat, seq<int>>,
                         past: Option<PastKV<T>>, reuse: ReuseState)
    returns (res: Result<Loop<T>, PyError>)
    requires Compaction.Aligned(batch) && Rect(batch.inputIds, w) && BlocksAhead(batch.seqBlockIdx, b, bs, w)
    requires PromptsPlaced(batch.seqBlockIdx, batch.seqLen, b, bs)
    requires Partition(n, finished, batch.sampleIndices)
    ensures res.Failure? <==> AnyFinished(batch) && past.Some? && FilterKV(past.value, Not(batch.flags)).Failure?
    ensures res.Failure? ==> res.error == IndexError
    ensures PastFits(past, |batch.flags|) ==> res.Success? && PastFits(res.value.past, |res.value.sidx|)
    ensures res.Success? ==> LoopInv(n, b, bs, res.value) && res.value.w == w && res.value.reuse == reuse
    ensures res.Success? ==> var nb := Survivors(batch);
      && res.value.sidx == nb.sampleIndices && res.value.ids == nb.inputIds && res.value.sbi == nb.seqBlockIdx
      && res.value.seqLen == nb.seqLen && res.value.xt == Some(nb.xt)
    ensures res.Success? ==> forall k :: k in finished ==> k in res.value.finished && res.value.finished[k] == finished[k]
  {
    var c := Compact(batch, past, finished);
    if AnyFinished(batch) && past.Some? && KVFits(past.value, |batch.flags|) {
      FilterKVFits(past.value, Not(batch.flags));
    }
    if c.Failure? {
      return Failure(c.error);
    }
    var nb := c.value.batch;
    if AnyFinished(batch) {
      var keep := Not(batch.flags);
      PartitionStep(n, finished, batch.sampleIndices, batch.flags, c.value.finished, nb.sampleIndices);
      FilterRect(batch.inputIds, nb.inputIds, keep, w);
      FilterAhead(batch.seqBlockIdx, nb.seqBlockIdx, keep, b, bs, w);
      FilterPlaced(batch.seqBlockIdx, batch.seqLen, nb.seqBlockIdx, nb.seqLen, keep, b, bs);
      forall k | k in finished
        ensures !exists i :: 0 <= i < |batch.flags| && batch.flags[i] && batch.sampleIndices[i] == k
      {
        forall i | 0 <= i < |batch.flags| ensures batch.sampleIndices[i] != k {
          assert batch.sampleIndices[i] in batch.sampleIndices;
        }
      }
    }
    res := Success(Loop(nb.sampleIndices, nb.inputIds, w, nb.seqBlockIdx, nb.seqLen, Some(nb.xt),
                        c.value.finished, c.value.past, reuse));
  }

  /** Prompt placement survives filtering by a keep mask. */
  lemma FilterPlaced(sbi: seq<nat>, seqLen: seq<nat>, sbi': seq<nat>, seqLen': seq<nat>, keep: seq<bool>, b: nat, bs: nat)
    requires |sbi| == |keep| && PromptsPlaced(sbi, seqLen, b, bs)
    requires FilteredBy(sbi', sbi, keep) && FilteredBy(seqLen', seqLen, keep)
    ensures PromptsPlaced(sbi', seqLen', b, bs)
  {
  }

  /**
   * Lines 454-466: rows still live after the last block are saved from the
   * last `x_t` (a `NameError` when no block ran), after which every original
   * index has exactly one sample.
   */
  method Collect(n: nat, finished: map<nat, seq<int>>, sidx: seq<nat>, xt: Option<seq<seq<int>>>)
    returns (res: Result<map<nat, seq<int>>, PyError>)
    requires Partition(n, finished, sidx)
    requires xt.Some? ==> |xt.value| == |sidx|
    ensures res.Failure? <==> xt.None? && |finished| < n
    ensures res.Failure? ==> res.error == NameError
    ensures res.Success? ==> res.value.Keys == Indices(n) && |res.value| == n
    ensures res.Success? ==> forall k: nat :: k in res.value <==> k < n
    ensures res.Success? ==> forall k :: k in finished ==> k in res.value && res.value[k] == finished[k]
    ensures res.Success? && xt.Some? ==> forall r :: 0 <= r < |sidx| ==> res.value[sidx[r]] == xt.value[r]
  {
    FullIndexSet(finished.Keys, n);
    if |finished| == n {
      return Success(finished);
    }
    if xt.None? {
      return Failure(NameError);
    }
    var all := seq(|sidx|, _ => true);
    var saved := SaveRows(finished, sidx, xt.value, all);
    forall k | k in saved ensures k < n {
      if k !in finished {
        var r :| 0 <= r < |all| && all[r] && sidx[r] == k;
        assert sidx[r] in sidx;
      }
    }
    forall k: nat | k < n ensures k in saved {
      if k !in finished {
        var r :| 0 <= r < |sidx| && sidx[r] == k;
        assert all[r];
      }
    }
    forall k | k in finished ensures !exists r :: 0 <= r < |all| && all[r] && sidx[r] == k {
      forall r | 0 <= r < |all| ensures sidx[r] != k {
        assert sidx[r] in sidx;
      }
    }
    assert forall r :: 0 <= r < |all| ==> LastPick(sidx, all, r, |all|);
    FullIndexSet(saved.Keys, n);
    assert saved.Keys == Indices(n);
    res := Success(saved);
  }

  /**
   * The concatenation at line 179 cannot fail when `min_len` is the shortest
   * prompt and `input_ids` holds the longest: if `input_ids` is no wider than
   * `min_len`, every prompt has length `min_len`.
   */
  lemma PrefillSucceeds<T, L>(p: Params, o: Oracles<Option<PastKV<T>>, L>, ids: seq<seq<int>>, w: nat, minLen: nat,
                              seqLen: seq<nat>, reuse: ReuseState)
    requires p.blockSize > 0 && Rect(ids, w) && |seqLen| == |ids|
    requires forall r :: 0 <= r < |ids| ==> minLen <= seqLen[r] <= w
    ensures RunPrefill(p, o, ids, w, minLen, seqLen, reuse).Success?
  {
  }

  /** The state before the first block, lines 185-192: every row live, each at the block of its prompt's end. */
  function StartState<T>(n: nat, bs: nat, seqLen: seq<nat>, ids: seq<seq<int>>, w: nat, past: Option<PastKV<T>>,
                         reuse: ReuseState): Loop<T>
    requires bs > 0 && |seqLen| == n
  {
    Loop(seq(n, r requires 0 <= r < n => r as nat), ids, w, seq(n, r requires 0 <= r < n => seqLen[r] / bs),
         seqLen, None, map[], past, reuse)
  }

  /** A position lies before the end of its own block. */
  lemma BelowBlockEnd(x: nat, bs: nat)
    requires bs > 0
    ensures x < (x / bs + 1) * bs
  {
    assert x == bs * (x / bs) + x % bs;
  }

  /**
   * The start state satisfies the loop invariant at block
   * `min_len // block_size`, and each row is its own original index.
   */
  lemma StartStateInv<T>(n: nat, bs: nat, minLen: nat, seqLen: seq<nat>, ids: seq<seq<int>>, w: nat,
                         past: Option<PastKV<T>>, reuse: ReuseState)
    requires bs > 0 && |seqLen| == n && |ids| == n && Rect(ids, w)
    requires forall r :: 0 <= r < n ==> minLen <= seqLen[r] <= w
    ensures var st := StartState(n, bs, seqLen, ids, w, past, reuse);
      LoopInv(n, minLen / bs, bs, st) && TracksLen(seqLen, st.sidx, st.seqLen)
  {
    var st := StartState(n, bs, seqLen, ids, w, past, reuse);
    forall r | 0 <= r < n
      ensures minLen / bs <= st.sbi[r] && (minLen / bs < st.sbi[r] ==> st.sbi[r] * bs <= w)
      ensures seqLen[r] < (st.sbi[r] + 1) * bs && st.sbi[r] * bs <= seqLen[r]
    {
      DivMono(minLen, seqLen[r], bs);
      FloorBelow(seqLen[r], bs);
      BelowBlockEnd(seqLen[r], bs);
    }
    forall k: nat | k < n ensures k in st.sidx {
      assert st.sidx[k] == k;
    }
  }

  /** A fresh state over prompt-keeping rows tracks each row's prompt and keeps the prompts unmasked. */
  lemma StartStateTracks<T>(n: nat, bs: nat, seqLen: seq<nat>, ids0: seq<seq<int>>, w0: nat, ids: seq<seq<int>>, w: nat,
                            past: Option<PastKV<T>>, reuse: ReuseState, maskId: int)
    requires bs > 0 && |seqLen| == n && |ids| == n && |ids0| == n && Rect(ids, w) && Rect(ids0, w0) && w0 <= w
    requires forall r :: 0 <= r < n ==> seqLen[r] <= w0
    requires forall r, i :: 0 <= r < n && 0 <= i < seqLen[r] ==> ids[r][i] == ids0[r][i]
    ensures var st := StartState(n, bs, seqLen, ids, w, past, reuse);
      && TracksPrompts(ids0, st.sidx, st.ids, st.seqLen)
      && (PromptsUnmasked(ids0, w0, seqLen, maskId) ==> PromptsUnmasked(st.ids, st.w, st.seqLen, maskId))
  {
    var st := StartState(n, bs, seqLen, ids, w, past, reuse);
    assert forall r :: 0 <= r < n ==> st.sidx[r] == r;
  }

  /** The prefill writes no prompt position: every prompt is still at the head of its row. */
  lemma PrefillKeepsPrompts<T, L>(p: Params, o: Oracles<Option<PastKV<T>>, L>, ids: seq<seq<int>>, w: nat, minLen: nat,
                                  seqLen: seq<nat>, reuse: ReuseState)
    requires p.blockSize > 0 && Rect(ids, w) && |seqLen| == |ids|
    requires forall r :: 0 <= r < |ids| ==> minLen <= seqLen[r] <= w
    ensures RunPrefill(p, o, ids, w, minLen, seqLen, reuse).Success?
    ensures var pre := RunPrefill(p, o, ids, w, minLen, seqLen, reuse).value;
      forall r, i :: 0 <= r < |ids| && 0 <= i < seqLen[r] ==> pre.ids[r][i] == ids[r][i]
  {
    PrefillSucceeds(p, o, ids, w, minLen, seqLen, reuse);
    PrefillWrites(p, o, ids, w, minLen, seqLen, reuse);
    var pre := RunPrefill(p, o, ids, w, minLen, seqLen, reuse).value;
    forall r, i | 0 <= r < |ids| && 0 <= i < seqLen[r] ensures pre.ids[r][i] == ids[r][i] {
      if i == minLen {
        assert pre.ids[r][..w][i] == pre.ids[r][i];
      }
    }
  }

  /**
   * When `input_ids` is exactly as wide as the longest prompt, no prompt holds
   * the mask id and blocks have at least two positions, the state after the
   * prefill is healthy: `input_ids` ends before the end of some row's block.
   * The prefill appends a column only when every prompt is `min_len` long and
   * `min_len` is block-aligned, and then `min_len + 1` is still inside the
   * block.
   */
  lemma StartOnTrack<T(!new), L>(p: Params, o: Oracles<Option<PastKV<T>>, L>, ids0: seq<seq<int>>, w0: nat, minLen: nat,
                                 seqLen0: seq<nat>)
    requires p.blockSize > 0 && Rect(ids0, w0) && |seqLen0| == |ids0|
    requires forall r :: 0 <= r < |ids0| ==> minLen <= seqLen0[r] <= w0
    ensures RunPrefill(p, o, ids0, w0, minLen, seqLen0, ReuseState(0, false)).Success?
    ensures var pre := RunPrefill(p, o, ids0, w0, minLen, seqLen0, ReuseState(0, false)).value;
      Sound(p, o) && ids0 != [] && w0 == MaxOf(seqLen0) && PromptsUnmasked(ids0, w0, seqLen0, p.maskId) ==>
        OnTrack(p, StartState(|ids0|, p.blockSize, seqLen0, pre.ids, pre.w, pre.past, ReuseState(0, false)))
  {
    var reuse := ReuseState(0, false);
    PrefillSucceeds(p, o, ids0, w0, minLen, seqLen0, reuse);
    if Sound(p, o) && ids0 != [] && w0 == MaxOf(seqLen0) && PromptsUnmasked(ids0, w0, seqLen0, p.maskId) {
      StartPast(p, o, ids0, w0, minLen, seqLen0);
      PrefillUnmasked(p, o, ids0, w0, minLen, seqLen0);
      var r :| 0 <= r < |ids0| && seqLen0[r] == w0;
      StartWide(p, o, ids0, w0, minLen, seqLen0, r);
      var pre := RunPrefill(p, o, ids0, w0, minLen, seqLen0, reuse).value;
      StartStateOnTrack(p, |ids0|, seqLen0, pre.ids, pre.w, pre.past, reuse, r);
    }
  }

  /** A fresh state is one in which no block raises when its prompts are unmasked, its KV cache fits, and some prompt's block reaches past `input_ids`. */
  lemma StartStateOnTrack<T>(p: Params, n: nat, seqLen: seq<nat>, ids: seq<seq<int>>, w: nat, past: Option<PastKV<T>>,
                             reuse: ReuseState, r: nat)
    requires p.blockSize > 0 && |seqLen| == n && |ids| == n && Rect(ids, w)
    requires PromptsUnmasked(ids, w, seqLen, p.maskId) && PastFits(past, n)
    requires r < n && w < (seqLen[r] / p.blockSize + 1) * p.blockSize
    ensures OnTrack(p, StartState(n, p.blockSize, seqLen, ids, w, past, reuse))
  {
    var st := StartState(n, p.blockSize, seqLen, ids, w, past, reuse);
    assert st.sbi[r] == seqLen[r] / p.blockSize;
  }

  /** The prefill's KV cache, when there is one, has a row per prompt. */
  lemma StartPast<T(!new), L>(p: Params, o: Oracles<Option<PastKV<T>>, L>, ids0: seq<seq<int>>, w0: nat, minLen: nat,
                              seqLen0: seq<nat>)
    requires p.blockSize > 0 && AdvanceFits(o) && Rect(ids0, w0) && |seqLen0| == |ids0|
    requires forall r :: 0 <= r < |ids0| ==> minLen <= seqLen0[r] <= w0
    ensures RunPrefill(p, o, ids0, w0, minLen, seqLen0, ReuseState(0, false)).Success?
    ensures PastFits(RunPrefill(p, o, ids0, w0, minLen, seqLen0, ReuseState(0, false)).value.past, |ids0|)
  {
    PrefillSucceeds(p, o, ids0, w0, minLen, seqLen0, ReuseState(0, false));
    if minLen > p.blockSize {
      var req := PrefillRequest(ids0, w0, minLen, p.blockSize, ReuseState(0, false));
      assert PastFits(o.advance(req), |req.tokens|);
    }
  }

  /** No prompt position holds the mask id after the prefill, which writes none of them. */
  lemma PrefillUnmasked<T, L>(p: Params, o: Oracles<Option<PastKV<T>>, L>, ids0: seq<seq<int>>, w0: nat, minLen: nat,
                              seqLen0: seq<nat>)
    requires p.blockSize > 0 && Rect(ids0, w0) && |seqLen0| == |ids0|
    requires forall r :: 0 <= r < |ids0| ==> minLen <= seqLen0[r] <= w0
    requires PromptsUnmasked(ids0, w0, seqLen0, p.maskId)
    ensures RunPrefill(p, o, ids0, w0, minLen, seqLen0, ReuseState(0, false)).Success?
    ensures var pre := RunPrefill(p, o, ids0, w0, minLen, seqLen0, ReuseState(0, false)).value;
      PromptsUnmasked(pre.ids, pre.w, seqLen0, p.maskId)
  {
    PrefillKeepsPrompts(p, o, ids0, w0, minLen, seqLen0, ReuseState(0, false));
  }

  /**
   * After the prefill `input_ids` ends before the end of the block of the
   * longest prompt: the prefill widens `input_ids` only when every prompt is
   * `min_len` long and `min_len` is block-aligned, and then by one position.
   */
  lemma StartWide<T, L>(p: Params, o: Oracles<Option<PastKV<T>>, L>, ids0: seq<seq<int>>, w0: nat, minLen: nat,
                        seqLen0: seq<nat>, r: nat)
    requires 2 <= p.blockSize && Rect(ids0, w0) && |seqLen0| == |ids0|
    requires forall r :: 0 <= r < |ids0| ==> minLen <= seqLen0[r] <= w0
    requires r < |ids0| && seqLen0[r] == w0
    requires RunPrefill(p, o, ids0, w0, minLen, seqLen0, ReuseState(0, false)).Success?
    ensures RunPrefill(p, o, ids0, w0, minLen, seqLen0, ReuseState(0, false)).value.w < (w0 / p.blockSize + 1) * p.blockSize
  {
    var bs := p.blockSize;
    var pre := RunPrefill(p, o, ids0, w0, minLen, seqLen0, ReuseState(0, false)).value;
    BelowBlockEnd(w0, bs);
    if pre.w != w0 {
      PrefillWidens(p, o, ids0, w0, minLen, seqLen0, ReuseState(0, false));
      assert minLen == w0;
      DivModUnique(w0, bs, w0 / bs, 0);
      assert (w0 / bs + 1) * bs == w0 + bs;
    }
  }

  /** The prefill widens `input_ids` only by appending the predicted column, when every prompt ends at a block-aligned `min_len`. */
  lemma PrefillWidens<T, L>(p: Params, o: Oracles<Option<PastKV<T>>, L>, ids: seq<seq<int>>, w: nat, minLen: nat,
                            seqLen: seq<nat>, reuse: ReuseState)
    requires p.blockSize > 0 && Rect(ids, w) && |seqLen| == |ids|
    requires RunPrefill(p, o, ids, w, minLen, seqLen, reuse).Success?
    requires RunPrefill(p, o, ids, w, minLen, seqLen, reuse).value.w != w
    ensures minLen % p.blockSize == 0 && w <= minLen && forall r :: 0 <= r < |ids| ==> seqLen[r] == minLen
  {
  }

  /**
   * Lines 166-192: the prefill with reuse off, then every row live at the
   * block of its prompt's end. The prefill cannot fail for prompts no
   * shorter than `min_len`, and writes no prompt position, so each live row
   * starts with its own prompt.
   */
  method StartBatch<T(!new), L>(p: Params, o: Oracles<Option<PastKV<T>>, L>, ids0: seq<seq<int>>, w0: nat, minLen: nat,
                       seqLen0: seq<nat>)
    returns (st: Loop<T>)
    requires p.blockSize > 0 && Rect(ids0, w0) && |seqLen0| == |ids0|
    requires forall r :: 0 <= r < |ids0| ==> minLen <= seqLen0[r] <= w0
    ensures LoopInv(|ids0|, minLen / p.blockSize, p.blockSize, st)
    ensures st.finished == map[] && st.xt.None? && |st.sidx| == |ids0|
    ensures TracksLen(seqLen0, st.sidx, st.seqLen) && TracksPrompts(ids0, st.sidx, st.ids, st.seqLen)
    ensures PromptsUnmasked(ids0, w0, seqLen0, p.maskId) ==> PromptsUnmasked(st.ids, st.w, st.seqLen, p.maskId)
    ensures Sound(p, o) && ids0 != [] && w0 == MaxOf(seqLen0) && PromptsUnmasked(ids0, w0, seqLen0, p.maskId) ==>
      OnTrack(p, st)
  {
    var reuse := ReuseState(0, false);
    var pre := RunPrefill(p, o, ids0, w0, minLen, seqLen0, reuse);
    PrefillKeepsPrompts(p, o, ids0, w0, minLen, seqLen0, reuse);
    var ids: seq<seq<int>>, w: nat, past := pre.value.ids, pre.value.w, pre.value.past;
    st := StartState(|ids0|, p.blockSize, seqLen0, ids, w, past, reuse);
    StartStateInv(|ids0|, p.blockSize, minLen, seqLen0, ids, w, past, reuse);
    StartStateTracks(|ids0|, p.blockSize, seqLen0, ids0, w0, ids, w, past, reuse, p.maskId);
    StartOnTrack(p, o, ids0, w0, minLen, seqLen0);
  }

  /**
   * The block loop, lines 194-452: blocks `b0` up to `numBlocks - 1` are
   * decoded while some row is live. The first failing block's error, an
   * IndexError or a RuntimeError, is returned. Otherwise every original index
   * is still either saved or live, exactly once, every saved sample is kept as
   * it was, each live row keeps its own prompt and prompt length, and `x_t`
   * exists exactly when some block ran. In a healthy state no block fails.
   */
  method DecodeBlocks<T(!new), L(!new)>(p: Params, o: Oracles<Option<PastKV<T>>, L>, n: nat, b0: nat, numBlocks: nat,
                                  st0: Loop<T>, ghost seqLen0: seq<nat>, ghost prompts: seq<seq<int>>)
    returns (res: Result<Loop<T>, PyError>)
    requires Tiles(p) && SamplerAvoidsMask(o, p.maskId)
    requires LoopInv(n, b0, p.blockSize, st0)
    ensures res.Failure? ==> res.error == IndexError || res.error == RuntimeError
    ensures res.Success? ==> Partition(n, res.value.finished, res.value.sidx)
    ensures res.Success? ==>
      Rect(res.value.ids, res.value.w) && |res.value.ids| == |res.value.sidx| && |res.value.seqLen| == |res.value.sidx|
    ensures res.Success? && res.value.xt.Some? ==> |res.value.xt.value| == |res.value.sidx|
    ensures numBlocks <= b0 || |st0.sidx| == 0 ==> res == Success(st0)
    ensures res.Success? && b0 < numBlocks && |st0.sidx| > 0 ==> res.value.xt.Some?
    ensures res.Success? ==>
      forall k :: k in st0.finished ==> k in res.value.finished && res.value.finished[k] == st0.finished[k]
    ensures res.Success? && TracksLen(seqLen0, st0.sidx, st0.seqLen) ==> TracksLen(seqLen0, res.value.sidx, res.value.seqLen)
    ensures res.Success? && PromptsUnmasked(st0.ids, st0.w, st0.seqLen, p.maskId) ==>
      && PromptsUnmasked(res.value.ids, res.value.w, res.value.seqLen, p.maskId)
      && (TracksPrompts(prompts, st0.sidx, st0.ids, st0.seqLen) ==>
            TracksPrompts(prompts, res.value.sidx, res.value.ids, res.value.seqLen))
    ensures Sound(p, o) && OnTrack(p, st0) ==> res.Success? && OnTrack(p, res.value)
  {
    var b, st := b0, st0;
    while b < numBlocks && |st.sidx| > 0
      invariant b0 <= b && LoopInv(n, b, p.blockSize, st)
      invariant b == b0 ==> st == st0
      invariant b0 < b ==> b0 < numBlocks && |st0.sidx| > 0 && st.xt.Some?
      invariant forall k :: k in st0.finished ==> k in st.finished && st.finished[k] == st0.finished[k]
      invariant TracksLen(seqLen0, st0.sidx, st0.seqLen) ==> TracksLen(seqLen0, st.sidx, st.seqLen)
      invariant PromptsUnmasked(st0.ids, st0.w, st0.seqLen, p.maskId) ==>
        && PromptsUnmasked(st.ids, st.w, st.seqLen, p.maskId)
        && (TracksPrompts(prompts, st0.sidx, st0.ids, st0.seqLen) ==> TracksPrompts(prompts, st.sidx, st.ids, st.seqLen))
      invariant Sound(p, o) && OnTrack(p, st0) ==> OnTrack(p, st)
      decreases numBlocks - b
    {
      var step := BlockStep(p, o, n, b, st, seqLen0, prompts);
      if step.Failure? {
        return Failure(step.error);
      }
      st := step.value;
      b := b + 1;
    }
    res := Success(st);
  }

  /** No prompt reaches past the block of the longest one. */
  lemma MaxBlock(seqLen: seq<nat>, bs: nat)
    requires bs > 0 && |seqLen| > 0
    ensures forall r :: 0 <= r < |seqLen| ==> seqLen[r] / bs <= MaxOf(seqLen) / bs
  {
    forall r | 0 <= r < |seqLen| ensures seqLen[r] / bs <= MaxOf(seqLen) / bs {
      DivMono(seqLen[r], MaxOf(seqLen), bs);
    }
  }

  /**
   * `num_blocks` at line 153: the blocks of the new tokens plus the blocks of
   * the longest prompt. It reaches every prompt's block, and passes all of
   * them when at least one block of new tokens is asked for.
   */
  function NumBlocks(maxNewTokens: nat, seqLen: seq<nat>, bs: nat): (k: nat)
    requires bs > 0 && |seqLen| > 0
    ensures forall r :: 0 <= r < |seqLen| ==> seqLen[r] / bs <= k
    ensures maxNewTokens >= bs ==> forall r :: 0 <= r < |seqLen| ==> seqLen[r] / bs < k
  {
    NumBlocksBound(maxNewTokens / bs, MaxOf(seqLen) / bs, maxNewTokens, seqLen, bs);
    maxNewTokens / bs + MaxOf(seqLen) / bs
  }

  /** The two bounds of `NumBlocks`, for `a` the blocks of new tokens and `m` the longest prompt's block. */
  lemma NumBlocksBound(a: nat, m: nat, maxNewTokens: nat, seqLen: seq<nat>, bs: nat)
    requires bs > 0 && |seqLen| > 0 && a == maxNewTokens / bs && m == MaxOf(seqLen) / bs
    ensures forall r :: 0 <= r < |seqLen| ==> seqLen[r] / bs <= a + m
    ensures maxNewTokens >= bs ==> forall r :: 0 <= r < |seqLen| ==> seqLen[r] / bs < a + m
  {
    MaxBlock(seqLen, bs);
    WholeBlock(maxNewTokens, bs);
  }

  /** At least one block of new tokens when `max_new_tokens` reaches `block_size`. */
  lemma WholeBlock(x: nat, bs: nat)
    requires bs > 0
    ensures x >= bs ==> x / bs >= 1
  {
    if x >= bs {
      DivMono(bs, x, bs);
      DivModUnique(bs, bs, 1, 0);
    }
  }

  /**
   * Lines 166-460 of `batch_sample`, between patching and unpatching the
   * layers: prefill, decode every block while some row is live, then gather
   * the samples. A zero small block size fails at line 189, after the prefill;
   * otherwise a `NameError` at line 460 comes exactly when no block runs, and
   * the only other errors are the IndexError of a cut or a trim and the
   * RuntimeError of a write-back; the assertion at line 465 never fails. With
   * `input_ids` as wide as the longest prompt, no mask id in any prompt, and
   * healthy settings, no block fails. A result has a sample for every
   * original index from 0 to `batch_size - 1` and no other, and keeps the
   * sample saved for each index.
   */
  method Generate<T(!new), L(!new)>(p: Params, o: Oracles<Option<PastKV<T>>, L>, ids0: seq<seq<int>>, w0: nat,
                              maxNewTokens: nat, minLen: nat, seqLen0: seq<nat>)
    returns (res: Result<map<nat, seq<int>>, PyError>)
    requires p.blockSize > 0 && ids0 != []
    requires Rect(ids0, w0) && |seqLen0| == |ids0|
    requires forall r :: 0 <= r < |ids0| ==> minLen <= seqLen0[r] <= w0
    requires p.smallBlockSize > 0 ==> Tiles(p)
    requires SamplerAvoidsMask(o, p.maskId)
    ensures p.smallBlockSize == 0 ==> res == Failure(ZeroDivisionError)
    ensures res.Failure? ==>
      res.error == ZeroDivisionError || res.error == NameError || res.error == IndexError || res.error == RuntimeError
    ensures p.smallBlockSize > 0 ==>
      (res == Failure(NameError) <==> NumBlocks(maxNewTokens, seqLen0, p.blockSize) <= minLen / p.blockSize)
    ensures (p.smallBlockSize > 0 && Sound(p, o) && w0 == MaxOf(seqLen0) && PromptsUnmasked(ids0, w0, seqLen0, p.maskId)
             && minLen / p.blockSize < NumBlocks(maxNewTokens, seqLen0, p.blockSize)) ==> res.Success?
    ensures res.Success? ==> |res.value| == |ids0| && forall k: nat :: k in res.value <==> k < |ids0|
  {
    var bs := p.blockSize;
    var n := |ids0|;
    var numBlocks := NumBlocks(maxNewTokens, seqLen0, bs);
    var st := StartBatch(p, o, ids0, w0, minLen, seqLen0);
    if p.smallBlockSize == 0 {
      return Failure(ZeroDivisionError);
    }
    var decoded := DecodeBlocks(p, o, n, minLen / bs, numBlocks, st, seqLen0, ids0);
    if decoded.Failure? {
      return Failure(decoded.error);
    }
    var last := decoded.value;
    res := Collect(n, last.finished, last.sidx, last.xt);
    if numBlocks <= minLen / bs {
      assert |last.finished| == 0;
    }
  }

  /**
   * `batch_sample`, lines 153-466, with the sampler never proposing the mask
   * id. A zero block size fails at line 153 and an empty batch at `max()`,
   * both before any layer is patched. Otherwise the layers are patched, the
   * prompts are prefilled and the blocks decoded one by one, each finished
   * row being saved under its original index and dropped from every
   * per-sample array and from the KV cache. A zero small block size fails at
   * line 189; a `NameError` at line 460 comes exactly when no block runs; any
   * other error is an IndexError or a RuntimeError, and the assertion at line
   * 465 never fails. When the call returns a result, the layers are back as
   * they were and every original index from 0 to `batch_size - 1`, and no
   * other, has a sample.
   */
  method BatchSample<T(!new), L(!new)>(p: Params, o: Oracles<Option<PastKV<T>>, L>, ids0: seq<seq<int>>, w0: nat,
                                 maxNewTokens: nat, minLen: nat, seqLen0: seq<nat>, subset: LayerSubset,
                                 layers0: seq<Forward>)
    returns (res: Result<map<nat, seq<int>>, PyError>, layers: seq<Forward>)
    requires Rect(ids0, w0) && |seqLen0| == |ids0|
    requires forall r :: 0 <= r < |ids0| ==> minLen <= seqLen0[r] <= w0
    requires p.blockSize > 0 && p.smallBlockSize > 0 ==> Tiles(p)
    requires SamplerAvoidsMask(o, p.maskId)
    ensures p.blockSize == 0 ==> res == Failure(ZeroDivisionError) && layers == layers0
    ensures p.blockSize > 0 && ids0 == [] ==> res == Failure(RuntimeError) && layers == layers0
    ensures p.blockSize > 0 && p.smallBlockSize == 0 && ids0 != [] ==> res == Failure(ZeroDivisionError)
    ensures res.Failure? ==>
      res.error == ZeroDivisionError || res.error == NameError || res.error == IndexError || res.error == RuntimeError
    ensures p.blockSize > 0 && p.smallBlockSize > 0 && ids0 != [] ==>
      (res == Failure(NameError) <==> NumBlocks(maxNewTokens, seqLen0, p.blockSize) <= minLen / p.blockSize)
    ensures (p.smallBlockSize > 0 && ids0 != [] && Sound(p, o) && w0 == MaxOf(seqLen0)
             && PromptsUnmasked(ids0, w0, seqLen0, p.maskId)
             && minLen / p.blockSize < NumBlocks(maxNewTokens, seqLen0, p.blockSize)) ==> res.Success?
    ensures res.Success? ==>
      && layers == layers0
      && |res.value| == |ids0|
      && forall k: nat :: k in res.value <==> k < |ids0|
  {
    layers := layers0;
    var bs := p.blockSize;
    if bs == 0 {
      return Failure(ZeroDivisionError), layers;
    }
    if ids0 == [] {
      return Failure(RuntimeError), layers;
    }
    var targets := ClampedTargetIndices(|layers0|, p.reuseK, subset);
    var saved, raised;
    layers, saved, raised := PatchLayers(layers0, targets);
    ClampedPatchRestores(layers0, p.reuseK, subset);
    assert !raised;

    res := Generate(p, o, ids0, w0, maxNewTokens, minLen, seqLen0);
    if res.Failure? {
      return res, layers;
    }
    var restored := UnpatchLayers(layers, saved);
    layers := restored.value;
  }
}
