/**
 * Batch compaction after a block (v2/generation_functions.py:382-452):
 * finished rows are saved under their original index, every per-sample
 * array is filtered by the same keep mask `~finished_flag`, and the KV cache
 * is filtered layer by layer in whichever of three layouts it has.
 */
module Compaction {
  import opened Common

  /** The positions a boolean mask keeps, in increasing order. */
  function Kept(keep: seq<bool>): (ks: seq<nat>)
    ensures |ks| <= |keep|
    ensures forall j :: 0 <= j < |ks| ==> ks[j] < |keep| && keep[ks[j]]
    ensures forall i, j :: 0 <= i < j < |ks| ==> ks[i] < ks[j]
    ensures forall i :: 0 <= i < |keep| && keep[i] ==> i in ks
  {
    if keep == [] then []
    else
      var n := |keep| - 1;
      var ks := Kept(keep[..n]);
      assert forall j :: 0 <= j < |ks| ==> keep[..n][ks[j]] == keep[ks[j]];
      if keep[n] then ks + [n] else ks
  }

  /** `ys` holds the rows of `xs` that `keep` keeps, in their original order. */
  ghost predicate FilteredBy<T>(ys: seq<T>, xs: seq<T>, keep: seq<bool>)
    requires |xs| == |keep|
  {
    |ys| == |Kept(keep)| && forall j :: 0 <= j < |ys| ==> ys[j] == xs[Kept(keep)[j]]
  }

  /** `xs[keep]`: boolean-mask indexing along the batch dimension. */
  function Filter<T>(xs: seq<T>, keep: seq<bool>): (ys: seq<T>)
    requires |xs| == |keep|
    ensures FilteredBy(ys, xs, keep)
  {
    var ks := Kept(keep);
    seq(|ks|, j requires 0 <= j < |ks| => xs[ks[j]])
  }

  /** `~flags`. */
  function Not(flags: seq<bool>): (keep: seq<bool>)
    ensures |keep| == |flags| && forall i :: 0 <= i < |flags| ==> keep[i] == !flags[i]
  {
    seq(|flags|, i requires 0 <= i < |flags| => !flags[i])
  }

  /** No two positions of `s` hold the same value. */
  ghost predicate Distinct<T>(s: seq<T>)
  {
    forall i, j :: 0 <= i < j < |s| ==> s[i] != s[j]
  }

  /**
   * Filtering keeps distinct values distinct, and splits the values of `s`
   * into those at kept positions and those at dropped ones.
   */
  lemma FilterSplits<T>(s: seq<T>, keep: seq<bool>)
    requires |s| == |keep| && Distinct(s)
    ensures Distinct(Filter(s, keep))
    ensures forall x :: x in Filter(s, keep) <==> exists i :: 0 <= i < |s| && keep[i] && s[i] == x
  {
    var f := Filter(s, keep);
    var ks := Kept(keep);
    forall x | exists i :: 0 <= i < |s| && keep[i] && s[i] == x
      ensures x in f
    {
      var i :| 0 <= i < |s| && keep[i] && s[i] == x;
      var j :| 0 <= j < |ks| && ks[j] == i;
      assert f[j] == x;
    }
    forall i, j | 0 <= i < j < |f| ensures f[i] != f[j] {
      assert ks[i] < ks[j];
    }
  }

  /** One entry of `past_key_values.caches` (lines 434-449). */
  datatype LayerCache<T> =
    | SplitKV(kCache: seq<T>, vCache: seq<T>)  // `k_cache` and `v_cache`
    | CombinedKV(k: seq<T>, v: seq<T>)          // `kv_cache = (k, v)`
    | OtherLayerCache                           // neither attribute: left alone

  /** The three KV-cache layouts of lines 411-449, and any other object, which is left alone. */
  datatype PastKV<T> =
    | LegacyPairs(pairs: seq<(seq<T>, seq<T>)>, isList: bool)
    | KeyValueLists(keyCache: seq<seq<T>>, valueCache: seq<seq<T>>)
    | CacheList(caches: seq<LayerCache<T>>)
    | Unrecognised

  /** Every tensor of a `caches` entry has one row per sample. */
  predicate LayerFits<T>(c: LayerCache<T>, n: nat)
  {
    match c
    case SplitKV(k, v) => |k| == n && |v| == n
    case CombinedKV(k, v) => |k| == n && |v| == n
    case OtherLayerCache => true
  }

  /** One `caches` entry filtered (lines 436-449). */
  function FilterLayer<T>(c: LayerCache<T>, keep: seq<bool>): (c': LayerCache<T>)
    requires LayerFits(c, |keep|)
    ensures c'.SplitKV? == c.SplitKV? && c'.CombinedKV? == c.CombinedKV?
    ensures c'.SplitKV? ==> FilteredBy(c'.kCache, c.kCache, keep) && FilteredBy(c'.vCache, c.vCache, keep)
    ensures c'.CombinedKV? ==> FilteredBy(c'.k, c.k, keep) && FilteredBy(c'.v, c.v, keep)
  {
    match c
    case SplitKV(k, v) => SplitKV(Filter(k, keep), Filter(v, keep))
    case CombinedKV(k, v) => CombinedKV(Filter(k, keep), Filter(v, keep))
    case OtherLayerCache => OtherLayerCache
  }

  /** `(k[keep], v[keep])`: one legacy pair filtered. */
  function FilterPair<T>(p: (seq<T>, seq<T>), keep: seq<bool>): (q: (seq<T>, seq<T>))
    requires |p.0| == |keep| && |p.1| == |keep|
    ensures FilteredBy(q.0, p.0, keep) && FilteredBy(q.1, p.1, keep)
  {
    (Filter(p.0, keep), Filter(p.1, keep))
  }

  /** Every pair of the list filtered, in order. */
  function FilterEachPair<T>(pairs: seq<(seq<T>, seq<T>)>, keep: seq<bool>): (qs: seq<(seq<T>, seq<T>)>)
    requires forall l :: 0 <= l < |pairs| ==> |pairs[l].0| == |keep| && |pairs[l].1| == |keep|
    ensures |qs| == |pairs| && forall l :: 0 <= l < |pairs| ==> qs[l] == FilterPair(pairs[l], keep)
  {
    if pairs == [] then []
    else
      var n := |pairs| - 1;
      FilterEachPair(pairs[..n], keep) + [FilterPair(pairs[n], keep)]
  }

  /** Case A (lines 411-419): each `(k, v)` pair filtered; the result keeps the tuple or list type. */
  function FilterPairs<T>(pairs: seq<(seq<T>, seq<T>)>, keep: seq<bool>): (r: Result<seq<(seq<T>, seq<T>)>, PyError>)
    ensures r.Failure? <==> exists l :: 0 <= l < |pairs| && (|pairs[l].0| != |keep| || |pairs[l].1| != |keep|)
    ensures r.Success? ==> |r.value| == |pairs| && forall l :: 0 <= l < |pairs| ==>
      FilteredBy(r.value[l].0, pairs[l].0, keep) && FilteredBy(r.value[l].1, pairs[l].1, keep)
  {
    if exists l :: 0 <= l < |pairs| && (|pairs[l].0| != |keep| || |pairs[l].1| != |keep|) then Failure(IndexError)
    else Success(FilterEachPair(pairs, keep))
  }

  /** Every key layer and its value layer exist and have one row per sample. */
  predicate ListsFit<T>(ks: seq<seq<T>>, vs: seq<seq<T>>, n: nat)
  {
    |ks| <= |vs| && forall l :: 0 <= l < |ks| ==> |ks[l]| == n && |vs[l]| == n
  }

  /** Every tensor of the list filtered, in order. */
  function FilterEach<T>(xs: seq<seq<T>>, keep: seq<bool>): (ys: seq<seq<T>>)
    requires forall l :: 0 <= l < |xs| ==> |xs[l]| == |keep|
    ensures |ys| == |xs| && forall l :: 0 <= l < |xs| ==> ys[l] == Filter(xs[l], keep)
  {
    seq(|xs|, l requires 0 <= l < |xs| => Filter(xs[l], keep))
  }

  /**
   * Case B (lines 421-431): the first `len(key_cache)` layers of both lists
   * filtered; a value list shorter than the key list raises, and value
   * tensors past the key list's length are left as they are.
   */
  function FilterLists<T>(ks: seq<seq<T>>, vs: seq<seq<T>>, keep: seq<bool>): (r: Result<(seq<seq<T>>, seq<seq<T>>), PyError>)
    ensures r.Failure? <==> !ListsFit(ks, vs, |keep|)
    ensures r.Success? ==>
      && |r.value.0| == |ks| && |r.value.1| == |vs|
      && (forall l :: 0 <= l < |ks| ==> FilteredBy(r.value.0[l], ks[l], keep) && FilteredBy(r.value.1[l], vs[l], keep))
      && (forall l :: |ks| <= l < |vs| ==> r.value.1[l] == vs[l])
  {
    if !ListsFit(ks, vs, |keep|) then Failure(IndexError)
    else Success((FilterEach(ks, keep), FilterEach(vs[..|ks|], keep) + vs[|ks|..]))
  }

  /** Case C (lines 433-449): every entry with `k_cache` or `kv_cache` filtered, any other entry left alone. */
  function FilterCaches<T>(cs: seq<LayerCache<T>>, keep: seq<bool>): (r: Result<seq<LayerCache<T>>, PyError>)
    ensures r.Failure? <==> exists l :: 0 <= l < |cs| && !LayerFits(cs[l], |keep|)
    ensures r.Success? ==> |r.value| == |cs| && forall l :: 0 <= l < |cs| ==> r.value[l] == FilterLayer(cs[l], keep)
  {
    if exists l :: 0 <= l < |cs| && !LayerFits(cs[l], |keep|) then Failure(IndexError)
    else Success(seq(|cs|, l requires 0 <= l < |cs| => FilterLayer(cs[l], keep)))
  }

  /** Step 3 of the trim (lines 407-449): the layout decides which filter runs; any other object is left alone. */
  function FilterKV<T>(past: PastKV<T>, keep: seq<bool>): (r: Result<PastKV<T>, PyError>)
    ensures r.Failure? ==> r.error == IndexError
    ensures r.Success? ==> r.value.LegacyPairs? == past.LegacyPairs? && r.value.KeyValueLists? == past.KeyValueLists?
                           && r.value.CacheList? == past.CacheList? && r.value.Unrecognised? == past.Unrecognised?
  {
    match past
    case LegacyPairs(pairs, isList) =>
      (match FilterPairs(pairs, keep)
       case Success(ps) => Success(LegacyPairs(ps, isList))
       case Failure(e) => Failure(e))
    case KeyValueLists(ks, vs) =>
      (match FilterLists(ks, vs, keep)
       case Success(kv) => Success(KeyValueLists(kv.0, kv.1))
       case Failure(e) => Failure(e))
    case CacheList(cs) =>
      (match FilterCaches(cs, keep)
       case Success(c) => Success(CacheList(c))
       case Failure(e) => Failure(e))
    case Unrecognised => Success(Unrecognised)
  }

  /** Every tensor the trim filters has one row per sample, so no boolean mask of `n` entries misses. */
  predicate KVFits<T>(past: PastKV<T>, n: nat)
  {
    match past
    case LegacyPairs(pairs, _) => forall l :: 0 <= l < |pairs| ==> |pairs[l].0| == n && |pairs[l].1| == n
    case KeyValueLists(ks, vs) => ListsFit(ks, vs, n)
    case CacheList(cs) => forall l :: 0 <= l < |cs| ==> LayerFits(cs[l], n)
    case Unrecognised => true
  }

  /** A KV cache that fits the batch is trimmed without error, and what is left fits the surviving rows. */
  lemma FilterKVFits<T>(past: PastKV<T>, keep: seq<bool>)
    requires KVFits(past, |keep|)
    ensures FilterKV(past, keep).Success? && KVFits(FilterKV(past, keep).value, |Kept(keep)|)
  {
    match past {
      case LegacyPairs(pairs, _) =>
      case KeyValueLists(ks, vs) =>
      case CacheList(cs) =>
        var cs' := FilterCaches(cs, keep).value;
        forall l | 0 <= l < |cs'| ensures LayerFits(cs'[l], |Kept(keep)|) {
          assert cs'[l] == FilterLayer(cs[l], keep);
        }
      case Unrecognised =>
    }
  }

  /** The loop of lines 413-419. */
  method TrimPairs<T>(pairs: seq<(seq<T>, seq<T>)>, keep: seq<bool>) returns (r: Result<seq<(seq<T>, seq<T>)>, PyError>)
    ensures r == FilterPairs(pairs, keep)
  {
    var newPast: seq<(seq<T>, seq<T>)> := [];
    for l := 0 to |pairs|
      invariant forall m :: 0 <= m < l ==> |pairs[m].0| == |keep| && |pairs[m].1| == |keep|
      invariant newPast == FilterEachPair(pairs[..l], keep)
    {
      var (k, v) := pairs[l];
      if |k| != |keep| || |v| != |keep| {
        return Failure(IndexError);
      }
      assert pairs[..l + 1][..l] == pairs[..l];
      newPast := newPast + [(Filter(k, keep), Filter(v, keep))];
    }
    assert pairs[..|pairs|] == pairs;
    r := Success(newPast);
  }

  /** The loop of lines 424-431, writing each layer back in place. */
  method TrimLists<T>(ks: seq<seq<T>>, vs: seq<seq<T>>, keep: seq<bool>) returns (r: Result<(seq<seq<T>>, seq<seq<T>>), PyError>)
    ensures r == FilterLists(ks, vs, keep)
  {
    var keys, values := ks, vs;
    for l := 0 to |ks|
      invariant l <= |vs| && |keys| == |ks| && |values| == |vs|
      invariant forall m :: 0 <= m < l ==> |ks[m]| == |keep| && |vs[m]| == |keep|
      invariant forall m :: 0 <= m < l ==> keys[m] == Filter(ks[m], keep) && values[m] == Filter(vs[m], keep)
      invariant forall m :: l <= m < |ks| ==> keys[m] == ks[m]
      invariant forall m :: l <= m < |vs| ==> values[m] == vs[m]
    {
      if |ks[l]| != |keep| {
        assert !ListsFit(ks, vs, |keep|);
        return Failure(IndexError);
      }
      keys := keys[l := Filter(ks[l], keep)];
      if l >= |vs| || |vs[l]| != |keep| {
        assert !ListsFit(ks, vs, |keep|);
        return Failure(IndexError);
      }
      values := values[l := Filter(vs[l], keep)];
    }
    assert ListsFit(ks, vs, |keep|);
    ListsJoin(ks, vs, keep, keys, values);
    r := Success((keys, values));
  }

  /** Layers filtered one by one, with the value layers past the key list left alone, are what `FilterLists` gives. */
  lemma ListsJoin<T>(ks: seq<seq<T>>, vs: seq<seq<T>>, keep: seq<bool>, keys: seq<seq<T>>, values: seq<seq<T>>)
    requires ListsFit(ks, vs, |keep|) && |keys| == |ks| && |values| == |vs|
    requires forall m :: 0 <= m < |ks| ==> keys[m] == Filter(ks[m], keep) && values[m] == Filter(vs[m], keep)
    requires forall m :: |ks| <= m < |vs| ==> values[m] == vs[m]
    ensures keys == FilterEach(ks, keep) && values == FilterEach(vs[..|ks|], keep) + vs[|ks|..]
  {
    var fk, fv := FilterEach(ks, keep), FilterEach(vs[..|ks|], keep) + vs[|ks|..];
    assert forall m :: 0 <= m < |ks| ==> fk[m] == keys[m];
    assert forall m :: 0 <= m < |vs| ==> fv[m] == values[m];
  }

  /** The loop of lines 434-449, replacing each entry's tensors in place. */
  method TrimCaches<T>(cs: seq<LayerCache<T>>, keep: seq<bool>) returns (r: Result<seq<LayerCache<T>>, PyError>)
    ensures r == FilterCaches(cs, keep)
  {
    var caches := cs;
    for l := 0 to |cs|
      invariant |caches| == |cs|
      invariant forall m :: 0 <= m < l ==> LayerFits(cs[m], |keep|)
      invariant forall m :: 0 <= m < |cs| ==> caches[m] == if m < l then FilterLayer(cs[m], keep) else cs[m]
    {
      if !LayerFits(cs[l], |keep|) {
        assert exists m :: 0 <= m < |cs| && !LayerFits(cs[m], |keep|);
        return Failure(IndexError);
      }
      caches := caches[l := FilterLayer(cs[l], keep)];
    }
    assert caches == seq(|cs|, l requires 0 <= l < |cs| => FilterLayer(cs[l], keep));
    r := Success(caches);
  }

  /** Step 3 of the trim, dispatching on the layout. */
  method TrimKV<T>(past: PastKV<T>, keep: seq<bool>) returns (r: Result<PastKV<T>, PyError>)
    ensures r == FilterKV(past, keep)
  {
    match past {
      case LegacyPairs(pairs, isList) =>
        var ps := TrimPairs(pairs, keep);
        r := if ps.Success? then Success(LegacyPairs(ps.value, isList)) else Failure(ps.error);
      case KeyValueLists(ks, vs) =>
        var kv := TrimLists(ks, vs, keep);
        r := if kv.Success? then Success(KeyValueLists(kv.value.0, kv.value.1)) else Failure(kv.error);
      case CacheList(cs) =>
        var c := TrimCaches(cs, keep);
        r := if c.Success? then Success(CacheList(c.value)) else Failure(c.error);
      case Unrecognised =>
        r := Success(Unrecognised);
    }
  }

  /** No picked row after `r` and before `end` has row `r`'s original index. */
  predicate LastPick(sampleIndices: seq<nat>, pick: seq<bool>, r: nat, end: nat)
    requires r < |sampleIndices| && end <= |sampleIndices| == |pick|
  {
    forall q :: r < q < end && pick[q] ==> sampleIndices[q] != sampleIndices[r]
  }

  /**
   * `finished_samples[sample_indices[r]] = x_t[r]` for every picked row
   * (lines 386-391 and 456-460): the keys grow by the picked rows' original
   * indices, a picked row's value is stored unless a later picked row has the
   * same original index, and every other entry is kept.
   */
  method SaveRows(finished: map<nat, seq<int>>, sampleIndices: seq<nat>, xt: seq<seq<int>>, pick: seq<bool>)
    returns (saved: map<nat, seq<int>>)
    requires |sampleIndices| == |xt| == |pick|
    ensures forall k :: k in saved <==> k in finished || exists r :: 0 <= r < |pick| && pick[r] && sampleIndices[r] == k
    ensures forall r :: (0 <= r < |pick| && pick[r] && LastPick(sampleIndices, pick, r, |pick|)) ==>
              saved[sampleIndices[r]] == xt[r]
    ensures forall k :: k in finished && !(exists r :: 0 <= r < |pick| && pick[r] && sampleIndices[r] == k) ==>
              saved[k] == finished[k]
  {
    saved := finished;
    for r := 0 to |pick|
      invariant forall k :: k in saved <==> k in finished || exists q :: 0 <= q < r && pick[q] && sampleIndices[q] == k
      invariant forall q :: (0 <= q < r && pick[q] && LastPick(sampleIndices, pick, q, r)) ==>
                  saved[sampleIndices[q]] == xt[q]
      invariant forall k :: k in finished && !(exists q :: 0 <= q < r && pick[q] && sampleIndices[q] == k) ==>
                  saved[k] == finished[k]
    {
      if pick[r] {
        saved := saved[sampleIndices[r] := xt[r]];
      }
    }
  }

  /** The per-sample arrays of `batch_sample`, all indexed by the live row. */
  datatype Batch = Batch(
    sampleIndices: seq<nat>, inputIds: seq<seq<int>>, seqBlockIdx: seq<nat>,
    seqLen: seq<nat>, xt: seq<seq<int>>, flags: seq<bool>)

  /** Every per-sample array has one entry per live row. */
  predicate Aligned(b: Batch)
  {
    && |b.inputIds| == |b.sampleIndices| && |b.seqBlockIdx| == |b.sampleIndices|
    && |b.seqLen| == |b.sampleIndices| && |b.xt| == |b.sampleIndices| && |b.flags| == |b.sampleIndices|
  }

  /** Every per-sample array filtered by the same mask (lines 394-398 and 451). */
  function FilterBatch(b: Batch, keep: seq<bool>): (b': Batch)
    requires Aligned(b) && |keep| == |b.flags|
    ensures Aligned(b')
    ensures FilteredBy(b'.sampleIndices, b.sampleIndices, keep) && FilteredBy(b'.inputIds, b.inputIds, keep)
    ensures FilteredBy(b'.seqBlockIdx, b.seqBlockIdx, keep) && FilteredBy(b'.seqLen, b.seqLen, keep)
    ensures FilteredBy(b'.xt, b.xt, keep) && FilteredBy(b'.flags, b.flags, keep)
    ensures keep == Not(b.flags) ==> forall i :: 0 <= i < |b'.flags| ==> !b'.flags[i]
  {
    Batch(Filter(b.sampleIndices, keep), Filter(b.inputIds, keep), Filter(b.seqBlockIdx, keep),
          Filter(b.seqLen, keep), Filter(b.xt, keep), Filter(b.flags, keep))
  }

  /** Some row's flag is set: `finished_flag.any()`. */
  predicate AnyFinished(b: Batch)
  {
    exists i :: 0 <= i < |b.flags| && b.flags[i]
  }

  /** What the trim produces: the surviving rows, the trimmed KV cache and the saved rows. */
  datatype Compacted<T> = Compacted(batch: Batch, past: Option<PastKV<T>>, finished: map<nat, seq<int>>)

  /**
   * Lines 382-452. When some row finished: save the finished rows, keep the
   * others in order in every per-sample array and in the KV cache, and clear
   * the flags. The trim fails, with IndexError, exactly when the KV cache does
   * not fit the batch; every saved sample of a row that did not finish now is
   * kept as it was.
   */
  method Compact<T>(b: Batch, past: Option<PastKV<T>>, finished: map<nat, seq<int>>)
    returns (r: Result<Compacted<T>, PyError>)
    requires Aligned(b)
    ensures !AnyFinished(b) ==> r == Success(Compacted(b, past, finished))
    ensures r.Failure? <==> AnyFinished(b) && past.Some? && FilterKV(past.value, Not(b.flags)).Failure?
    ensures r.Failure? ==> r.error == IndexError
    ensures AnyFinished(b) && r.Success? ==>
      && r.value.batch == FilterBatch(b, Not(b.flags))
      && (past.Some? <==> r.value.past.Some?)
      && (past.Some? ==> FilterKV(past.value, Not(b.flags)) == Success(r.value.past.value))
      && (forall k :: k in r.value.finished <==>
            k in finished || exists i :: 0 <= i < |b.flags| && b.flags[i] && b.sampleIndices[i] == k)
      && (Distinct(b.sampleIndices) ==> forall i :: 0 <= i < |b.flags| && b.flags[i] ==>
            r.value.finished[b.sampleIndices[i]] == b.xt[i])
      && (forall k :: k in finished && !(exists i :: 0 <= i < |b.flags| && b.flags[i] && b.sampleIndices[i] == k) ==>
            r.value.finished[k] == finished[k])
  {
    if !AnyFinished(b) {
      return Success(Compacted(b, past, finished));
    }
    var saved := SaveRows(finished, b.sampleIndices, b.xt, b.flags);
    assert Distinct(b.sampleIndices) ==> forall i :: 0 <= i < |b.flags| ==> LastPick(b.sampleIndices, b.flags, i, |b.flags|);
    var keep := Not(b.flags);
    var past' := past;
    if past.Some? {
      var trimmed := TrimKV(past.value, keep);
      if trimmed.Failure? {
        return Failure(trimmed.error);
      }
      past' := Some(trimmed.value);
    }
    r := Success(Compacted(FilterBatch(b, keep), past', saved));
  }
}
