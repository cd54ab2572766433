/**
 * The confidence-gated commit rule of one small-block iteration
 * (v2/generation_functions.py:345-361): which masked positions of a row are
 * overwritten with their sampled token, and whether the row emitted a stop
 * token.
 */
module Gating {
  import opened Common

  /** A gathered probability, or `-inf` for a span position that is not masked (line 352). */
  datatype Score = NegInf | Prob(p: real)

  /** Strict order on scores: `-inf` is below every probability. */
  predicate Below(a: Score, b: Score)
  {
    match a
    case NegInf => b.Prob?
    case Prob(x) => b.Prob? && x < b.p
  }

  /** `x1_p > threshold`: `-inf` never clears the threshold. */
  predicate Clears(s: Score, threshold: real)
  {
    s.Prob? && s.p > threshold
  }

  /** `torch.where(mask_idx, x1_p, -inf)`. */
  function MaskedScores(probs: seq<real>, masked: seq<bool>): (s: seq<Score>)
    requires |probs| == |masked|
    ensures |s| == |probs|
    ensures forall i :: 0 <= i < |s| ==> (s[i].Prob? <==> masked[i]) && (masked[i] ==> s[i].p == probs[i])
  {
    seq(|probs|, i requires 0 <= i < |probs| => if masked[i] then Prob(probs[i]) else NegInf)
  }

  /** `argmax` along a row: the first position holding a maximal score. */
  function ArgMax(s: seq<Score>): (k: nat)
    requires |s| > 0
    ensures k < |s|
    ensures forall j :: 0 <= j < |s| ==> !Below(s[k], s[j])
    ensures forall j :: 0 <= j < k ==> Below(s[j], s[k])
  {
    if |s| == 1 then 0
    else
      var k := ArgMax(s[..|s| - 1]);
      if Below(s[k], s[|s| - 1]) then |s| - 1 else k
  }

  /**
   * Lines 353-356: a span position is committed when it is masked and either
   * clears the threshold or is the row's argmax.
   */
  function Gate(probs: seq<real>, masked: seq<bool>, threshold: real): (commit: seq<bool>)
    requires |probs| == |masked| > 0
    ensures |commit| == |probs|
    ensures forall i :: 0 <= i < |commit| && commit[i] ==> masked[i]
    ensures forall i :: 0 <= i < |commit| && masked[i] && probs[i] > threshold ==> commit[i]
    ensures forall i :: 0 <= i < |commit| && commit[i] ==>
              probs[i] > threshold || i == ArgMax(MaskedScores(probs, masked))
  {
    var scores := MaskedScores(probs, masked);
    var best := ArgMax(scores);
    seq(|probs|, i requires 0 <= i < |probs| => (Clears(scores[i], threshold) || i == best) && masked[i])
  }

  /**
   * Forced progress: when some span position is masked, the argmax lands on a
   * masked position, it is the first masked position of maximal probability,
   * and it is committed whatever the threshold.
   */
  lemma GateCommitsBestMasked(probs: seq<real>, masked: seq<bool>, threshold: real)
    requires |probs| == |masked|
    requires exists i :: 0 <= i < |masked| && masked[i]
    ensures |probs| > 0
    ensures var k := ArgMax(MaskedScores(probs, masked));
      && masked[k]
      && Gate(probs, masked, threshold)[k]
      && (forall j :: 0 <= j < |probs| && masked[j] ==> probs[j] <= probs[k])
      && (forall j :: 0 <= j < k && masked[j] ==> probs[j] < probs[k])
  {
    var i :| 0 <= i < |masked| && masked[i];
    var scores := MaskedScores(probs, masked);
    var k := ArgMax(scores);
    assert !Below(scores[k], scores[i]);
    assert scores[k].Prob?;
  }

  /** Line 357 on one row: write the sampled token at every committed position of the span starting at `lo`. */
  function Commit(row: seq<int>, lo: nat, sampled: seq<int>, commit: seq<bool>): (r: seq<int>)
    requires |sampled| == |commit| && lo + |commit| <= |row|
    ensures |r| == |row|
    ensures forall i :: 0 <= i < |row| && !(lo <= i < lo + |commit| && commit[i - lo]) ==> r[i] == row[i]
    ensures forall j :: 0 <= j < |commit| && commit[j] ==> r[lo + j] == sampled[j]
  {
    row[..lo]
    + seq(|commit|, j requires 0 <= j < |commit| => if commit[j] then sampled[j] else row[lo + j])
    + row[lo + |commit|..]
  }

  /** Which positions of the span `[lo, hi)` of `row` hold the mask id (line 265). */
  function SpanMask(row: seq<int>, lo: nat, hi: nat, maskId: int): (m: seq<bool>)
    requires lo <= hi <= |row|
    ensures |m| == hi - lo
    ensures forall j :: 0 <= j < |m| ==> (m[j] <==> row[lo + j] == maskId)
  {
    seq(hi - lo, j requires 0 <= j < hi - lo => row[lo + j] == maskId)
  }

  /** One row of one gated step: commit the gated positions of the span `[lo, hi)`. */
  function UnmaskRow(row: seq<int>, lo: nat, hi: nat, sampled: seq<int>, probs: seq<real>,
                     threshold: real, maskId: int): seq<int>
    requires lo < hi <= |row| && |sampled| == hi - lo && |probs| == hi - lo
  {
    Commit(row, lo, sampled, Gate(probs, SpanMask(row, lo, hi, maskId), threshold))
  }

  /** Row `b` holds no more mask ids in `[lo, hi)` than row `a`, and strictly fewer when `a` held any. */
  predicate RowShrinks(a: seq<int>, b: seq<int>, lo: nat, hi: nat, maskId: int)
    requires lo <= hi <= |a| && hi <= |b|
  {
    && Count(b[lo..hi], maskId) <= Count(a[lo..hi], maskId)
    && (Count(a[lo..hi], maskId) > 0 ==> Count(b[lo..hi], maskId) < Count(a[lo..hi], maskId))
  }

  /**
   * What one gated step does to a row: only masked span positions change,
   * each changed one receives its sampled token, every masked position above
   * the threshold receives its sampled token, and when the sampler never
   * proposes the mask id the span's mask count strictly drops whenever it was
   * positive.
   */
  lemma UnmaskRowSpec(row: seq<int>, lo: nat, hi: nat, sampled: seq<int>, probs: seq<real>,
                      threshold: real, maskId: int)
    requires lo < hi <= |row| && |sampled| == hi - lo && |probs| == hi - lo
    ensures var r := UnmaskRow(row, lo, hi, sampled, probs, threshold, maskId);
      && |r| == |row|
      && (forall i :: 0 <= i < |row| && r[i] != row[i] ==>
            lo <= i < hi && row[i] == maskId && r[i] == sampled[i - lo])
      && (forall j :: 0 <= j < hi - lo && row[lo + j] == maskId && probs[j] > threshold ==>
            r[lo + j] == sampled[j])
    ensures (forall j :: 0 <= j < |sampled| ==> sampled[j] != maskId) ==>
      RowShrinks(row, UnmaskRow(row, lo, hi, sampled, probs, threshold, maskId), lo, hi, maskId)
  {
    var masked := SpanMask(row, lo, hi, maskId);
    var commit := Gate(probs, masked, threshold);
    var r := Commit(row, lo, sampled, commit);
    if forall j :: 0 <= j < |sampled| ==> sampled[j] != maskId {
      var a, b := row[lo..hi], r[lo..hi];
      assert forall j :: 0 <= j < |a| ==> a[j] == row[lo + j] && b[j] == r[lo + j];
      CountShrinks(a, b, maskId);
      if Count(a, maskId) > 0 {
        CountZero(a, maskId);
        var i :| 0 <= i < |a| && a[i] == maskId;
        assert masked[i];
        GateCommitsBestMasked(probs, masked, threshold);
        var k := ArgMax(MaskedScores(probs, masked));
        assert a[k] == maskId && b[k] != maskId;
      }
    }
  }

  /** Lines 358-360 on one row: some committed position received the stop token. */
  predicate StopCommitted(sampled: seq<int>, commit: seq<bool>, stop: int)
    requires |sampled| == |commit|
  {
    exists j :: 0 <= j < |commit| && commit[j] && sampled[j] == stop
  }

  /**
   * With a stop token distinct from the mask id, a row's finished flag is
   * raised by a gated step exactly when some masked span position now holds
   * the stop token.
   */
  lemma StopCommittedIff(row: seq<int>, lo: nat, hi: nat, sampled: seq<int>, probs: seq<real>,
                         threshold: real, maskId: int, stop: int)
    requires lo < hi <= |row| && |sampled| == hi - lo && |probs| == hi - lo && stop != maskId
    ensures var commit := Gate(probs, SpanMask(row, lo, hi, maskId), threshold);
      var r := UnmaskRow(row, lo, hi, sampled, probs, threshold, maskId);
      StopCommitted(sampled, commit, stop) <==> exists i :: lo <= i < hi && row[i] == maskId && r[i] == stop
  {
    var commit := Gate(probs, SpanMask(row, lo, hi, maskId), threshold);
    var r := UnmaskRow(row, lo, hi, sampled, probs, threshold, maskId);
    if StopCommitted(sampled, commit, stop) {
      var j :| 0 <= j < |commit| && commit[j] && sampled[j] == stop;
      assert row[lo + j] == maskId && r[lo + j] == stop;
    }
    if exists i :: lo <= i < hi && row[i] == maskId && r[i] == stop {
      var i :| lo <= i < hi && row[i] == maskId && r[i] == stop;
      assert commit[i - lo] && sampled[i - lo] == stop;
    }
  }
}
