/**
 * The closure-based layer reuse of v2/generation_functions.py:17-129: which
 * layers get patched, how patching and unpatching change the layers'
 * `forward` slots, and what one patched layer does on a call.
 */
module PatchHelper {
  import opened Common

  /** The dictionary shared by the decode loop and every wrapper (line 158): exactly `count` and `enabled`. */
  datatype ReuseState = ReuseState(count: int, enabled: bool)

  /** Python truthiness of the `layer_subset` argument, as tested by `not subset_name` (line 22). */
  predicate Truthy(s: LayerSubset)
  {
    match s
    case NoSubset => false
    case Named(n) => n != ""
    case Indices(l) => l != []
  }

  /**
   * Target selection as written (lines 22-38): nothing when reuse is off, layers
   * 1..min(n,12)-1 for "first", and a fixed 12 consecutive indices for
   * "middle" and "last" whatever the number of layers `n`.
   */
  function TargetIndices(n: nat, reuseK: int, subset: LayerSubset): (t: seq<int>)
    ensures !Truthy(subset) || reuseK <= 1 ==> t == []
    ensures Truthy(subset) && reuseK > 1 && subset == Named("first") ==>
      |t| == Max(0, Min(n, 12) - 1) && forall j :: 0 <= j < |t| ==> t[j] == 1 + j
    ensures Truthy(subset) && reuseK > 1 && subset == Named("middle") ==>
      |t| == 12 && forall j :: 0 <= j < |t| ==> t[j] == Max(0, n / 2 - 6) + j
    ensures Truthy(subset) && reuseK > 1 && subset == Named("last") ==>
      |t| == 12 && forall j :: 0 <= j < |t| ==> t[j] == n - 12 + j
    ensures subset.Indices? || (subset.Named? && subset.name !in {"first", "middle", "last"}) ==> t == []
  {
    if !Truthy(subset) || reuseK <= 1 then []
    else if subset == Named("first") then Range(1, Min(n, 12))
    else if subset == Named("middle") then
      var start := Max(0, n / 2 - 6);
      Range(start, start + 12)
    else if subset == Named("last") then Range(n - 12, n)
    else []
  }

  /**
   * The evidently intended selection: the subset size clamped to the number
   * of layers, as v2/layer_reuse.py:63 does, so that every index names a layer.
   */
  function ClampedTargetIndices(n: nat, reuseK: int, subset: LayerSubset): (t: seq<int>)
    ensures forall j :: 0 <= j < |t| ==> 0 <= t[j] < n
    ensures forall i, j :: 0 <= i < j < |t| ==> t[i] < t[j]
  {
    var size := Min(n, 12);
    if !Truthy(subset) || reuseK <= 1 then []
    else if subset == Named("first") then Range(1, size)
    else if subset == Named("middle") then
      var start := Max(0, n / 2 - size / 2);
      Range(start, start + size)
    else if subset == Named("last") then Range(n - size, n)
    else []
  }

  /** On models with at least 12 layers the two selections agree, so the discrepancy is confined to small models. */
  lemma ClampedAgreesFromTwelveLayers(n: nat, reuseK: int, subset: LayerSubset)
    requires n >= 12
    ensures TargetIndices(n, reuseK, subset) == ClampedTargetIndices(n, reuseK, subset)
  {
  }

  /** What a layer's `forward` attribute holds: its own method, or a wrapper installed around an earlier value under a key. */
  datatype Forward = Own(layer: nat) | Wrapped(inner: Forward, key: int)

  /** Python's `layers[idx]` on a list of length `n`: negative indices count from the end; others raise IndexError. */
  function PyIndex(n: nat, idx: int): (k: Option<nat>)
    ensures k.Some? <==> 0 <= idx + n && idx < n
    ensures k.Some? ==> k.value < n && k.value == (if idx < 0 then n + idx else idx)
  {
    if 0 <= idx < n then Some(idx)
    else if 0 <= idx + n && idx < 0 then Some(n + idx)
    else None
  }

  /** `original_forwards`: a dict, kept as its items in insertion order. */
  type Saved = seq<(int, Forward)>

  /** `d[k] = v` on an insertion-ordered dict: replace in place when present, append otherwise. */
  function Put(d: Saved, k: int, v: Forward): (r: Saved)
    ensures (forall i :: 0 <= i < |d| ==> d[i].0 != k) ==> r == d + [(k, v)]
  {
    if d == [] then [(k, v)]
    else if d[0].0 == k then [(k, v)] + d[1..]
    else [d[0]] + Put(d[1..], k, v)
  }

  /** The state of the layer list after the patch loop of lines 116-120; `raised` when `layers[idx]` raised. */
  datatype Patched = Patched(slots: seq<Forward>, saved: Saved, raised: bool)

  /** Patch the remaining `targets` in order, starting from `slots` and the dict `saved`. */
  function PatchFrom(slots: seq<Forward>, saved: Saved, targets: seq<int>): (p: Patched)
    ensures |p.slots| == |slots|
    decreases |targets|
  {
    if targets == [] then Patched(slots, saved, false)
    else
      match PyIndex(|slots|, targets[0])
      case None => Patched(slots, saved, true)
      case Some(k) =>
        PatchFrom(slots[k := Wrapped(slots[k], targets[0])], Put(saved, targets[0], slots[k]), targets[1..])
  }

  /** The restore loop of lines 125-129, applied to the dict's items in order; None when an index raises. */
  function UnpatchFrom(slots: seq<Forward>, saved: Saved): (r: Option<seq<Forward>>)
    ensures r.Some? ==> |r.value| == |slots|
    decreases |saved|
  {
    if saved == [] then Some(slots)
    else
      match PyIndex(|slots|, saved[0].0)
      case None => None
      case Some(k) => UnpatchFrom(slots[k := saved[0].1], saved[1..])
  }

  /**
   * The patch loop of lines 116-120 over a chosen target list: wrap each named
   * layer in turn, remembering its previous forward, and stop with IndexError
   * at the first index that names no layer.
   */
  method PatchLayers(slots0: seq<Forward>, targets: seq<int>)
    returns (slots: seq<Forward>, saved: Saved, raised: bool)
    ensures Patched(slots, saved, raised) == PatchFrom(slots0, [], targets)
  {
    slots, saved, raised := slots0, [], false;
    var i := 0;
    while i < |targets|
      invariant 0 <= i <= |targets| && |slots| == |slots0|
      invariant PatchFrom(slots, saved, targets[i..]) == PatchFrom(slots0, [], targets)
    {
      assert targets[i..][1..] == targets[i + 1..];
      var k := PyIndex(|slots|, targets[i]);
      if k.None? {
        raised := true;
        return;
      }
      saved := Put(saved, targets[i], slots[k.value]);
      slots := slots[k.value := Wrapped(slots[k.value], targets[i])];
      i := i + 1;
    }
  }

  /** `_unpatch_layers_helper` (lines 125-129): restore each saved forward in the dict's order. */
  method UnpatchLayers(slots0: seq<Forward>, saved: Saved) returns (slots: Option<seq<Forward>>)
    ensures slots == UnpatchFrom(slots0, saved)
  {
    var cur := slots0;
    var i := 0;
    while i < |saved|
      invariant 0 <= i <= |saved| && |cur| == |slots0|
      invariant UnpatchFrom(cur, saved[i..]) == UnpatchFrom(slots0, saved)
    {
      assert saved[i..][1..] == saved[i + 1..];
      var k := PyIndex(|cur|, saved[i].0);
      if k.None? {
        return None;
      }
      cur := cur[k.value := saved[i].1];
      i := i + 1;
    }
    assert saved[i..] == [];
    slots := Some(cur);
  }

  /** Targets that name distinct, existing layers. */
  predicate DistinctLayers(n: nat, targets: seq<int>)
  {
    && (forall j :: 0 <= j < |targets| ==> PyIndex(n, targets[j]).Some?)
    && (forall i, j :: 0 <= i < j < |targets| ==> PyIndex(n, targets[i]) != PyIndex(n, targets[j]))
  }

  /** The targets after the first are distinct existing layers, none of them the first's. */
  lemma DistinctTail(n: nat, targets: seq<int>)
    requires DistinctLayers(n, targets) && targets != []
    ensures DistinctLayers(n, targets[1..])
    ensures forall j :: 0 <= j < |targets| - 1 ==>
      targets[1..][j] == targets[j + 1] && PyIndex(n, targets[1..][j]) != PyIndex(n, targets[0])
  {
    var rest := targets[1..];
    forall i, j | 0 <= i < j < |rest| ensures PyIndex(n, rest[i]) != PyIndex(n, rest[j]) {
      assert rest[i] == targets[i + 1] && rest[j] == targets[j + 1];
    }
  }

  /** The dict's keys, in insertion order, are exactly `targets`. */
  predicate KeysAre(saved: Saved, targets: seq<int>)
  {
    |saved| == |targets| && forall j :: 0 <= j < |targets| ==> saved[j].0 == targets[j]
  }

  /** With distinct targets that are new to the dict, patching appends one entry per target, keyed by it. */
  lemma {:induction false} PatchAppends(slots: seq<Forward>, d: Saved, targets: seq<int>)
    requires DistinctLayers(|slots|, targets)
    requires forall i, j :: 0 <= i < |d| && 0 <= j < |targets| ==> d[i].0 != targets[j]
    ensures var p := PatchFrom(slots, d, targets); var q := PatchFrom(slots, [], targets);
      && !p.raised && p.slots == q.slots && p.saved == d + q.saved
      && KeysAre(q.saved, targets)
    decreases |targets|
  {
    if targets != [] {
      var t := targets[0];
      var k := PyIndex(|slots|, t).value;
      var s1 := slots[k := Wrapped(slots[k], t)];
      var rest := targets[1..];
      DistinctTail(|slots|, targets);
      var d1 := d + [(t, slots[k])];
      var e := [(t, slots[k])];
      assert forall j :: 0 <= j < |rest| ==> rest[j] != t;
      assert PatchFrom(slots, d, targets) == PatchFrom(s1, d1, rest) by {
        assert Put(d, t, slots[k]) == d1;
      }
      assert PatchFrom(slots, [], targets) == PatchFrom(s1, e, rest) by {
        assert Put([], t, slots[k]) == e;
      }
      PatchAppends(s1, d1, rest);
      PatchAppends(s1, e, rest);
      KeysCons(d, (t, slots[k]), PatchFrom(s1, [], rest).saved, PatchFrom(s1, e, rest).saved, targets);
    }
  }

  /** The saved entries of the inductive step of `PatchAppends`: one entry in front, keyed by the first target. */
  lemma KeysCons(d: Saved, entry: (int, Forward), rSaved: Saved, qSaved: Saved, targets: seq<int>)
    requires targets != [] && entry.0 == targets[0] && KeysAre(rSaved, targets[1..])
    requires qSaved == [entry] + rSaved
    ensures (d + [entry]) + rSaved == d + qSaved
    ensures KeysAre(qSaved, targets)
  {
    assert forall j :: 0 < j < |targets| ==> qSaved[j] == rSaved[j - 1] && targets[j] == targets[1..][j - 1];
  }

  /** Restoring entries that never touch slot `k` commutes with writing slot `k`. */
  lemma {:induction false} UnpatchAvoids(slots: seq<Forward>, k: nat, v: Forward, saved: Saved)
    requires k < |slots|
    requires forall j :: 0 <= j < |saved| ==> PyIndex(|slots|, saved[j].0).Some? && PyIndex(|slots|, saved[j].0) != Some(k)
    ensures UnpatchFrom(slots, saved).Some?
    ensures UnpatchFrom(slots[k := v], saved) == Some(UnpatchFrom(slots, saved).value[k := v])
    decreases |saved|
  {
    if saved != [] {
      var k0 := PyIndex(|slots|, saved[0].0).value;
      assert forall j :: 0 <= j < |saved| - 1 ==> saved[1..][j] == saved[j + 1];
      UnpatchAvoids(slots[k0 := saved[0].1], k, v, saved[1..]);
      assert slots[k := v][k0 := saved[0].1] == slots[k0 := saved[0].1][k := v];
    }
  }

  /**
   * The inductive step of the round trip: restoring the first target's saved
   * forward after the rest have been restored recovers the slot list.
   */
  lemma RestoreFirst(slots: seq<Forward>, targets: seq<int>, qSlots: seq<Forward>, qSaved: Saved)
    requires DistinctLayers(|slots|, targets) && targets != []
    requires |qSlots| == |slots| && KeysAre(qSaved, targets[1..])
    requires var k := PyIndex(|slots|, targets[0]).value;
      UnpatchFrom(qSlots, qSaved) == Some(slots[k := Wrapped(slots[k], targets[0])])
    ensures var k := PyIndex(|slots|, targets[0]).value;
      UnpatchFrom(qSlots, [(targets[0], slots[k])] + qSaved) == Some(slots)
  {
    var k := PyIndex(|slots|, targets[0]).value;
    DistinctTail(|slots|, targets);
    var saved := [(targets[0], slots[k])] + qSaved;
    assert saved[1..] == qSaved;
    UnpatchAvoids(qSlots, k, slots[k], qSaved);
    assert slots[k := Wrapped(slots[k], targets[0])][k := slots[k]] == slots;
  }

  /** Patching a first target that names a layer and is new to the dict wraps it and appends its entry. */
  lemma PatchFirst(slots: seq<Forward>, d: Saved, targets: seq<int>)
    requires targets != [] && PyIndex(|slots|, targets[0]).Some?
    requires forall i :: 0 <= i < |d| ==> d[i].0 != targets[0]
    ensures var k := PyIndex(|slots|, targets[0]).value;
      PatchFrom(slots, d, targets)
        == PatchFrom(slots[k := Wrapped(slots[k], targets[0])], d + [(targets[0], slots[k])], targets[1..])
  {
  }

  /** Patching distinct existing layers and then unpatching them gives back the original layer list. */
  lemma {:induction false} PatchThenUnpatchRestores(slots: seq<Forward>, targets: seq<int>)
    requires DistinctLayers(|slots|, targets)
    ensures var p := PatchFrom(slots, [], targets); !p.raised && UnpatchFrom(p.slots, p.saved) == Some(slots)
    decreases |targets|
  {
    if targets != [] {
      var t := targets[0];
      var k := PyIndex(|slots|, t).value;
      var s1 := slots[k := Wrapped(slots[k], t)];
      var rest := targets[1..];
      var e := [(t, slots[k])];
      DistinctTail(|slots|, targets);
      PatchFirst(slots, [], targets);
      assert [] + e == e;
      var q := PatchFrom(s1, [], rest);
      PatchAppends(s1, e, rest);
      assert PatchFrom(slots, [], targets) == Patched(q.slots, e + q.saved, false);
      PatchThenUnpatchRestores(s1, rest);
      RestoreFirst(slots, targets, q.slots, q.saved);
    }
  }

  /** The corrected selection always patches and unpatches cleanly. */
  lemma ClampedPatchRestores(slots: seq<Forward>, reuseK: int, subset: LayerSubset)
    ensures var p := PatchFrom(slots, [], ClampedTargetIndices(|slots|, reuseK, subset));
      !p.raised && UnpatchFrom(p.slots, p.saved) == Some(slots)
  {
    var t := ClampedTargetIndices(|slots|, reuseK, subset);
    assert DistinctLayers(|slots|, t) by {
      forall i, j | 0 <= i < j < |t| ensures PyIndex(|slots|, t[i]) != PyIndex(|slots|, t[j]) {
        assert t[i] < t[j];
      }
    }
    PatchThenUnpatchRestores(slots, t);
  }

  /** Patching stops with IndexError as soon as a target names no layer. */
  lemma {:induction false} PatchRaisesOnMissingLayer(slots: seq<Forward>, d: Saved, targets: seq<int>, j: nat)
    requires j < |targets| && PyIndex(|slots|, targets[j]).None?
    ensures PatchFrom(slots, d, targets).raised
    decreases |targets|
  {
    if PyIndex(|slots|, targets[0]).Some? {
      var k := PyIndex(|slots|, targets[0]).value;
      assert j > 0 && targets[1..][j - 1] == targets[j];
      PatchRaisesOnMissingLayer(slots[k := Wrapped(slots[k], targets[0])], Put(d, targets[0], slots[k]), targets[1..], j - 1);
    }
  }

  /**
   * As written, "middle" on a model with fewer than 12 layers selects index
   * `n`, which names no layer: patching raises IndexError part-way, after the
   * layers before it were already wrapped, and nothing unpatches them.
   */
  lemma MiddleRaisesBelowTwelveLayers(slots: seq<Forward>, reuseK: int)
    requires |slots| < 12 && reuseK > 1
    ensures PatchFrom(slots, [], TargetIndices(|slots|, reuseK, Named("middle"))).raised
  {
    var t := TargetIndices(|slots|, reuseK, Named("middle"));
    assert t[|slots|] == |slots|;
    PatchRaisesOnMissingLayer(slots, [], t, |slots|);
  }

  /** One unfolding of the patch loop over `range(lo, hi)`. */
  lemma PatchRangeStep(slots: seq<Forward>, saved: Saved, lo: int, hi: int)
    requires lo < hi && PyIndex(|slots|, lo).Some?
    ensures var k := PyIndex(|slots|, lo).value;
      PatchFrom(slots, saved, Range(lo, hi))
        == PatchFrom(slots[k := Wrapped(slots[k], lo)], Put(saved, lo, slots[k]), Range(lo + 1, hi))
  {
    assert Range(lo, hi)[1..] == Range(lo + 1, hi);
  }

  /** Patching `t1 + t2` is patching `t1`, then `t2` unless `t1` raised. */
  lemma {:induction false} PatchConcat(slots: seq<Forward>, saved: Saved, t1: seq<int>, t2: seq<int>)
    ensures var p1 := PatchFrom(slots, saved, t1);
      PatchFrom(slots, saved, t1 + t2) == if p1.raised then p1 else PatchFrom(p1.slots, p1.saved, t2)
    decreases |t1|
  {
    if t1 != [] {
      assert (t1 + t2)[0] == t1[0] && (t1 + t2)[1..] == t1[1..] + t2;
      match PyIndex(|slots|, t1[0])
      case None =>
      case Some(k) =>
        PatchConcat(slots[k := Wrapped(slots[k], t1[0])], Put(saved, t1[0], slots[k]), t1[1..], t2);
    } else {
      assert t1 + t2 == t2;
    }
  }

  /** Restoring `d1 + d2` is restoring `d1`, then `d2` unless an index raised. */
  lemma {:induction false} UnpatchConcat(slots: seq<Forward>, d1: Saved, d2: Saved)
    ensures UnpatchFrom(slots, d1 + d2)
      == match UnpatchFrom(slots, d1) case None => None case Some(s) => UnpatchFrom(s, d2)
    decreases |d1|
  {
    if d1 != [] {
      assert (d1 + d2)[0] == d1[0] && (d1 + d2)[1..] == d1[1..] + d2;
      match PyIndex(|slots|, d1[0].0)
      case None =>
      case Some(k) => UnpatchConcat(slots[k := d1[0].1], d1[1..], d2);
    } else {
      assert d1 + d2 == d2;
    }
  }

  /**
   * Keys `[lo, hi)` that name positions `[lo + b, hi + b)` without overlap:
   * all non-negative (`b == 0`) or all negative aliases (`b == n`).
   */
  predicate Aligned(n: nat, lo: int, hi: int, b: int)
  {
    lo <= hi && 0 <= lo + b && hi + b <= n && ((b == 0 && 0 <= lo) || (b == n && hi <= 0))
  }

  /** The layer list with positions `[lo + b, hi + b)` wrapped under their keys `[lo, hi)`. */
  function WrapRange(slots: seq<Forward>, lo: int, hi: int, b: int): seq<Forward>
  {
    seq(|slots|, i requires 0 <= i < |slots| => if lo + b <= i < hi + b then Wrapped(slots[i], i - b) else slots[i])
  }

  /** The dict entries `(key, forward)` that patching keys `[lo, hi)` saves, in order. */
  function Entries(slots: seq<Forward>, lo: int, hi: int, b: int): Saved
    requires Aligned(|slots|, lo, hi, b)
  {
    seq(hi - lo, j requires 0 <= j < hi - lo => (lo + j, slots[lo + b + j]))
  }

  /** Wrapping the first key of the range, then the rest, wraps the whole range. */
  lemma WrapRangeStep(slots: seq<Forward>, saved: Saved, lo: int, hi: int, b: int)
    requires Aligned(|slots|, lo, hi, b) && lo < hi
    ensures Aligned(|slots|, lo + 1, hi, b)
    ensures WrapRange(slots[lo + b := Wrapped(slots[lo + b], lo)], lo + 1, hi, b) == WrapRange(slots, lo, hi, b)
    ensures saved + [(lo, slots[lo + b])] + Entries(slots[lo + b := Wrapped(slots[lo + b], lo)], lo + 1, hi, b)
         == saved + Entries(slots, lo, hi, b)
  {
    var s1 := slots[lo + b := Wrapped(slots[lo + b], lo)];
    var e, e1 := Entries(slots, lo, hi, b), Entries(s1, lo + 1, hi, b);
    assert forall j :: 0 <= j < |e1| ==> e1[j] == e[j + 1];
    assert e == [(lo, slots[lo + b])] + e1;
  }

  /** An empty range patches nothing. */
  lemma PatchRangeEmpty(slots: seq<Forward>, saved: Saved, lo: int, b: int)
    requires Aligned(|slots|, lo, lo, b)
    ensures var p := PatchFrom(slots, saved, Range(lo, lo));
      !p.raised && p.slots == WrapRange(slots, lo, lo, b) && p.saved == saved + Entries(slots, lo, lo, b)
  {
    assert WrapRange(slots, lo, lo, b) == slots;
    assert saved + Entries(slots, lo, lo, b) == saved;
  }

  /**
   * Patching such a range of fresh keys wraps each named layer once under its
   * key and appends the original forwards to the dict in order.
   */
  lemma {:induction false} PatchRange(slots: seq<Forward>, saved: Saved, lo: int, hi: int, b: int)
    requires Aligned(|slots|, lo, hi, b)
    requires forall i :: 0 <= i < |saved| ==> !(lo <= saved[i].0 < hi)
    ensures var p := PatchFrom(slots, saved, Range(lo, hi));
      !p.raised && p.slots == WrapRange(slots, lo, hi, b) && p.saved == saved + Entries(slots, lo, hi, b)
    decreases hi - lo
  {
    if lo < hi {
      var k := lo + b;
      var s1 := slots[k := Wrapped(slots[k], lo)];
      var d1 := saved + [(lo, slots[k])];
      assert PatchFrom(slots, saved, Range(lo, hi)) == PatchFrom(s1, d1, Range(lo + 1, hi)) by {
        assert PyIndex(|slots|, lo) == Some(k);
        PatchRangeStep(slots, saved, lo, hi);
      }
      assert forall i :: 0 <= i < |d1| ==> !(lo + 1 <= d1[i].0 < hi) by {
        assert forall i :: 0 <= i < |saved| ==> d1[i] == saved[i];
      }
      WrapRangeStep(slots, saved, lo, hi, b);
      PatchRange(s1, d1, lo + 1, hi, b);
    } else {
      PatchRangeEmpty(slots, saved, lo, b);
    }
  }

  /** The layer list with positions `[at, at + |d|)` overwritten by the forwards saved in `d`. */
  function Overwrite(slots: seq<Forward>, d: Saved, at: int): seq<Forward>
  {
    seq(|slots|, i requires 0 <= i < |slots| => if at <= i < at + |d| then d[i - at].1 else slots[i])
  }

  /** Restoring the first entry, then the rest, overwrites the whole run. */
  lemma OverwriteStep(slots: seq<Forward>, d: Saved, at: int)
    requires 0 <= at && at + |d| <= |slots| && d != []
    ensures Overwrite(slots[at := d[0].1], d[1..], at + 1) == Overwrite(slots, d, at)
  {
  }

  /**
   * Restoring entries with consecutive keys `lo, lo + 1, ...` that name
   * positions `lo + b, ...` writes their forwards back over those positions.
   */
  lemma {:induction false} UnpatchRange(slots: seq<Forward>, d: Saved, lo: int, b: int)
    requires Aligned(|slots|, lo, lo + |d|, b)
    requires forall j :: 0 <= j < |d| ==> d[j].0 == lo + j
    ensures UnpatchFrom(slots, d) == Some(Overwrite(slots, d, lo + b))
    decreases |d|
  {
    if d != [] {
      var k := lo + b;
      assert UnpatchFrom(slots, d) == UnpatchFrom(slots[k := d[0].1], d[1..]) by {
        assert PyIndex(|slots|, d[0].0) == Some(k);
      }
      UnpatchRange(slots[k := d[0].1], d[1..], lo + 1, b);
      OverwriteStep(slots, d, k);
    } else {
      assert Overwrite(slots, d, lo + b) == slots;
    }
  }

  /** Restoring the entries saved from `x` over a range that names every layer gives back `x`. */
  lemma RestoreCovering(slots: seq<Forward>, x: seq<Forward>, lo: int, hi: int, b: int)
    requires |x| == |slots| && Aligned(|x|, lo, hi, b) && lo + b == 0 && hi + b == |x|
    ensures UnpatchFrom(slots, Entries(x, lo, hi, b)) == Some(x)
  {
    var d := Entries(x, lo, hi, b);
    UnpatchRange(slots, d, lo, b);
    assert Overwrite(slots, d, lo + b) == x;
  }

  /**
   * With six layers and the "last" subset, `range(-6, 6)` names every layer
   * twice: first through its negative alias, then through its own index.
   * Nothing raises, the dict keeps twelve entries, and restoring them in
   * insertion order leaves every layer wrapped once: the entries under the
   * non-negative keys hold the forwards already wrapped by the negative ones.
   */
  lemma LastLeavesSixLayersWrapped(slots: seq<Forward>, reuseK: int)
    requires |slots| == 6 && reuseK > 1
    ensures var p := PatchFrom(slots, [], TargetIndices(|slots|, reuseK, Named("last")));
      && !p.raised
      && UnpatchFrom(p.slots, p.saved) == Some(seq(|slots|, i requires 0 <= i < |slots| => Wrapped(slots[i], i - |slots|)))
  {
    var n := |slots|;
    var once := WrapRange(slots, -n, 0, n);
    LastPatchesTwice(slots, reuseK);
    LastRestoresOnce(slots);
    assert once == seq(n, i requires 0 <= i < n => Wrapped(slots[i], i - n));
  }

  /** The patch half: every layer wrapped under its negative alias, then again under its own index. */
  lemma LastPatchesTwice(slots: seq<Forward>, reuseK: int)
    requires |slots| == 6 && reuseK > 1
    ensures var n := |slots|; var once := WrapRange(slots, -n, 0, n);
      var p := PatchFrom(slots, [], TargetIndices(n, reuseK, Named("last")));
      && !p.raised && p.slots == WrapRange(once, 0, n, 0)
      && p.saved == Entries(slots, -n, 0, n) + Entries(once, 0, n, 0)
  {
    var n := |slots|;
    var once := WrapRange(slots, -n, 0, n);
    var d1 := Entries(slots, -n, 0, n);
    LastIsTwoRuns(n, reuseK);
    PatchConcat(slots, [], Range(-n, 0), Range(0, n));
    PatchRange(slots, [], -n, 0, n);
    assert [] + d1 == d1;
    PatchRange(once, d1, 0, n, 0);
  }

  /** With six layers, the "last" targets `range(-6, 6)` are the negative aliases followed by the own indices. */
  lemma LastIsTwoRuns(n: int, reuseK: int)
    requires n == 6 && reuseK > 1
    ensures TargetIndices(n, reuseK, Named("last")) == Range(-n, 0) + Range(0, n)
  {
    var t, r1, r2 := TargetIndices(n, reuseK, Named("last")), Range(-n, 0), Range(0, n);
    assert forall j :: 0 <= j < |t| ==> t[j] == (r1 + r2)[j];
  }

  /** The unpatch half: restoring both runs of entries in order leaves the once-wrapped list. */
  lemma LastRestoresOnce(slots: seq<Forward>)
    requires |slots| == 6
    ensures var n := |slots|; var once := WrapRange(slots, -n, 0, n);
      UnpatchFrom(WrapRange(once, 0, n, 0), Entries(slots, -n, 0, n) + Entries(once, 0, n, 0)) == Some(once)
  {
    var n := |slots|;
    var once := WrapRange(slots, -n, 0, n);
    var twice := WrapRange(once, 0, n, 0);
    RestoreCovering(twice, slots, -n, 0, n);
    RestoreCovering(slots, once, 0, n, 0);
    UnpatchConcat(twice, Entries(slots, -n, 0, n), Entries(once, 0, n, 0));
  }

  /**
   * The call a wrapped layer receives: its hidden-state input along the
   * sequence axis and the keyword arguments the wrapper reads.
   * `replacePosition == None` means the `replace_position` keyword is absent,
   * so the lookup at line 91 yields 0. An explicit `replace_position=None`
   * would make the addition at line 94 raise TypeError; the model has no
   * such call, since the decoding loop passes an integer (line 318) or
   * nothing.
   */
  datatype LayerCall<H> = LayerCall(hidden: seq<H>, updatePastKeyValues: bool, replacePosition: Option<nat>)

  /** A layer's return value: a bare tensor, or a tuple whose first element is the hidden-state tensor. */
  datatype LayerOutput<H, E> = Bare(hidden: seq<H>) | Tuple(first: seq<H>, rest: seq<E>)

  /** `output[0]` of a tuple, or the output itself (lines 67-70). */
  function HiddenPart<H, E>(out: LayerOutput<H, E>): seq<H>
  {
    match out
    case Bare(h) => h
    case Tuple(h, _) => h
  }

  /** The branch the wrapper takes (lines 49-111). */
  datatype WrapperAction =
    | RunOriginal               // reuse disabled (line 50)
    | RecomputeAndStore         // count % reuse_k == 0 or a cache update (lines 62-71)
    | ServeWhole                // cached length equals the current one (line 87)
    | ServeSlice(lo: nat, hi: nat) // the slice [replace_pos, replace_pos + len) fits (line 95)
    | OutOfBounds               // the slice does not fit: recompute instead (line 100)
    | NoEntry                   // nothing cached yet (line 111)

  /** The decision of the wrapper closure for one call. */
  function Decide<H>(state: ReuseState, reuseK: int, call: LayerCall<H>, lastOutput: Option<seq<H>>): (a: WrapperAction)
    requires reuseK > 1
    ensures a.RunOriginal? <==> !state.enabled
    ensures a.RecomputeAndStore? <==> state.enabled && (state.count % reuseK == 0 || call.updatePastKeyValues)
    ensures a.ServeWhole? <==>
      && state.enabled && state.count % reuseK != 0 && !call.updatePastKeyValues && lastOutput.Some?
      && |lastOutput.value| == |call.hidden|
    ensures a.ServeSlice? <==>
      && state.enabled && state.count % reuseK != 0 && !call.updatePastKeyValues && lastOutput.Some?
      && |lastOutput.value| != |call.hidden| && call.replacePosition.GetOr(0) + |call.hidden| <= |lastOutput.value|
    ensures a.ServeSlice? ==> a.lo == call.replacePosition.GetOr(0) && a.hi == a.lo + |call.hidden|
    ensures a.OutOfBounds? <==>
      && state.enabled && state.count % reuseK != 0 && !call.updatePastKeyValues && lastOutput.Some?
      && |lastOutput.value| != |call.hidden| && call.replacePosition.GetOr(0) + |call.hidden| > |lastOutput.value|
    ensures a.NoEntry? <==> state.enabled && state.count % reuseK != 0 && !call.updatePastKeyValues && lastOutput.None?
  {
    if !state.enabled then RunOriginal
    else if state.count % reuseK == 0 || call.updatePastKeyValues then RecomputeAndStore
    else if lastOutput.None? then NoEntry
    else if |lastOutput.value| == |call.hidden| then ServeWhole
    else
      var pos := call.replacePosition.GetOr(0);
      if pos + |call.hidden| <= |lastOutput.value| then ServeSlice(pos, pos + |call.hidden|)
      else OutOfBounds
  }

  /**
   * In the block-cache reuse call (lines 311-320) a wrapped layer holding the
   * whole block's output is asked for small block `idx` at `replace_position =
   * idx * small_block_size`: the slice always fits and is exactly that small
   * block, so the recompute fallback of line 100 is never reached there.
   */
  lemma ReuseSliceIsSmallBlock<H>(state: ReuseState, reuseK: int, call: LayerCall<H>, cached: seq<H>,
                                  bs: nat, sbs: nat, idx: nat)
    requires reuseK > 1 && state.enabled && state.count % reuseK != 0 && !call.updatePastKeyValues
    requires 0 < sbs < bs && (idx + 1) * sbs <= bs
    requires |cached| == bs && |call.hidden| == sbs && call.replacePosition == Some(idx * sbs)
    ensures Decide(state, reuseK, call, Some(cached)) == ServeSlice(idx * sbs, (idx + 1) * sbs)
  {
    assert (idx + 1) * sbs == idx * sbs + sbs;
  }

  /** The wrapper installed around one layer, with its private `layer_cache` (lines 43-113). */
  class ReuseWrapper<H, E> {
    const layerIdx: int
    const reuseK: int
    const original: LayerCall<H> -> LayerOutput<H, E>
    /** `layer_cache["last_output"]`. */
    var lastOutput: Option<seq<H>>

    constructor (layerIdx: int, reuseK: int, original: LayerCall<H> -> LayerOutput<H, E>)
      requires reuseK > 1
      ensures this.layerIdx == layerIdx && this.reuseK == reuseK && this.original == original
      ensures lastOutput == None
    {
      this.layerIdx := layerIdx;
      this.reuseK := reuseK;
      this.original := original;
      lastOutput := None;
    }

    /** The reused tensor, re-wrapped in a 1-tuple when the original returns a tuple (lines 104-108). */
    static function Rewrap(probe: LayerOutput<H, E>, t: seq<H>): LayerOutput<H, E>
    {
      if probe.Tuple? then Tuple(t, []) else Bare(t)
    }

    /** One call of the patched `forward`. */
    method Call(state: ReuseState, call: LayerCall<H>) returns (out: LayerOutput<H, E>)
      requires reuseK > 1
      modifies this
      ensures var a := Decide(state, reuseK, call, old(lastOutput));
        && (a.RunOriginal? || a.RecomputeAndStore? || a.OutOfBounds? || a.NoEntry? ==> out == original(call))
        && (a.ServeWhole? ==> out == Rewrap(original(call), old(lastOutput).value))
        && (a.ServeSlice? ==> out == Rewrap(original(call), old(lastOutput).value[a.lo..a.hi]))
        && lastOutput == (if a.RecomputeAndStore? then Some(HiddenPart(out)) else old(lastOutput))
    {
      var a := Decide(state, reuseK, call, lastOutput);
      match a {
        case RunOriginal =>
          out := original(call);
        case RecomputeAndStore =>
          out := original(call);
          lastOutput := Some(HiddenPart(out));
        case ServeWhole =>
          out := Rewrap(original(call), lastOutput.value);
        case ServeSlice(lo, hi) =>
          out := Rewrap(original(call), lastOutput.value[lo..hi]);
        case OutOfBounds =>
          out := original(call);
        case NoEntry =>
          out := original(call);
      }
    }
  }
}
