/**
 * Position arithmetic of the block decoder: Python slice bounds, padding a
 * batch with mask ids to a block boundary, the span of one small block inside
 * the current block, and the shift-by-one realignment of logits.
 */
module BlockLayout {
  import opened Common

  /** Every row of a batched tensor has the same width `w`. */
  predicate Rect<T>(rows: seq<seq<T>>, w: nat)
  {
    forall r :: 0 <= r < |rows| ==> |rows[r]| == w
  }

  /** Python's normalisation of one slice bound against a sequence of length `len`. */
  function Normalize(len: nat, i: Option<int>, default: nat): (k: nat)
    requires default <= len
    ensures k <= len
    ensures i.Some? && 0 <= i.value <= len ==> k == i.value
    ensures i.Some? && 0 <= i.value + len && i.value < 0 ==> k == len + i.value
  {
    match i
    case None => default
    case Some(x) =>
      if x < 0 then (if x + len < 0 then 0 else x + len)
      else if x > len then len else x
  }

  /** The positions `[lo, hi)` that Python's `s[start:stop]` picks from a sequence of length `len`. */
  function SliceBounds(len: nat, start: Option<int>, stop: Option<int>): (b: (nat, nat))
    ensures b.0 <= b.1 <= len
    ensures start.None? ==> b.0 == 0
    ensures stop.None? ==> b.1 == len
  {
    var lo := Normalize(len, start, 0);
    var hi := Normalize(len, stop, len);
    (lo, Max(lo, hi))
  }

  /** How many mask ids are appended to a buffer of width `len`: `block_size - len % block_size`. */
  function PadCount(len: nat, bs: nat): nat
    requires bs > 0
  {
    bs - len % bs
  }

  lemma MulBounds(d: int, t: int)
    requires d > 0
    ensures t >= 1 ==> d * t >= d
    ensures t <= -1 ==> d * t <= -d
  {
    if t >= 1 {
      assert d * t == d * (t - 1) + d;
    } else if t <= -1 {
      assert d * t == -(d * (-t - 1)) - d;
    }
  }

  /** Division by a positive `d` is determined by any quotient/remainder pair. */
  lemma DivModUnique(n: int, d: int, k: int, r: int)
    requires 0 < d && n == d * k + r && 0 <= r < d
    ensures n / d == k && n % d == r
  {
    var q, m := n / d, n % d;
    assert n == d * q + m;
    assert d * q - d * k == d * (q - k);
    MulBounds(d, q - k);
  }

  lemma AlignUp(len: nat, bs: nat)
    requires bs > 0
    ensures 1 <= PadCount(len, bs) <= bs
    ensures (len + PadCount(len, bs)) % bs == 0
    ensures (len + PadCount(len, bs)) / bs == len / bs + 1
  {
    var q, m := len / bs, len % bs;
    assert len == bs * q + m;
    assert len + PadCount(len, bs) == bs * (q + 1) + 0 by {
      assert bs * (q + 1) == bs * q + bs;
    }
    DivModUnique(len + PadCount(len, bs), bs, q + 1, 0);
  }

  /** One row of the padded buffer built at v2/generation_functions.py:198-204. */
  function PadRow(row: seq<int>, bs: nat, maskId: int): (r: seq<int>)
    requires bs > 0
    ensures |r| > |row| && |r| - |row| <= bs && |r| % bs == 0
    ensures r[..|row|] == row
    ensures forall i :: |row| <= i < |r| ==> r[i] == maskId
  {
    AlignUp(|row|, bs);
    row + seq(PadCount(|row|, bs), _ => maskId)
  }

  /** The whole batch padded: every row gets the same number of mask ids. */
  function PadBatch(rows: seq<seq<int>>, w: nat, bs: nat, maskId: int): (padded: seq<seq<int>>)
    requires bs > 0 && Rect(rows, w)
    ensures |padded| == |rows|
    ensures Rect(padded, w + PadCount(w, bs))
    ensures forall r :: 0 <= r < |rows| ==> padded[r] == PadRow(rows[r], bs, maskId)
  {
    seq(|rows|, r requires 0 <= r < |rows| => PadRow(rows[r], bs, maskId))
  }

  /**
   * The `start` and `end` slice arguments of lines 258-263 for the small block
   * occupying window positions `[startIdx, endIdx)`.
   */
  function SmallBlockSliceArgs(bs: nat, startIdx: nat, endIdx: nat): (Option<int>, Option<int>)
  {
    (Some(startIdx as int - bs), if bs == endIdx then None else Some(endIdx as int - bs))
  }

  /** The positions of a buffer of width `len` that `[:, start:end]` selects. */
  function SmallBlockSpan(len: nat, bs: nat, startIdx: nat, endIdx: nat): (nat, nat)
  {
    var args := SmallBlockSliceArgs(bs, startIdx, endIdx);
    SliceBounds(len, args.0, args.1)
  }

  /**
   * The slice selects window positions `[startIdx, endIdx)` of the last `bs`
   * positions of the buffer, including the last small block, whose end is
   * `None` because `-0` would select nothing.
   */
  lemma SmallBlockSpanInWindow(len: nat, bs: nat, startIdx: nat, endIdx: nat)
    requires bs <= len && startIdx < endIdx <= bs
    ensures SmallBlockSpan(len, bs, startIdx, endIdx) == (len - bs + startIdx, len - bs + endIdx)
  {
  }

  /** Writing the last small block's end as `-0` instead of `None` would select nothing. */
  lemma NegativeZeroEndIsEmpty(len: nat, bs: nat, startIdx: nat)
    requires bs <= len && startIdx <= bs
    ensures var b := SliceBounds(len, Some(startIdx - bs), Some(bs - bs)); b.0 == b.1
  {
  }

  /**
   * The realignment of lines 304-306: `cat([logits[:, :1], logits[:, :-1]])`,
   * so that position `i` reads the prediction made at position `i - 1`.
   */
  function ShiftRight<L>(row: seq<L>): (r: seq<L>)
    ensures |r| == |row|
    ensures |row| > 0 ==> r[0] == row[0]
    ensures forall i :: 1 <= i < |row| ==> r[i] == row[i - 1]
  {
    row[..Min(1, |row|)] + row[..Max(0, |row| - 1)]
  }
}
