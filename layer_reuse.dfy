/**
 * The layer-output reuse controller of v2/layer_reuse.py: which layers it
 * wraps, when a wrapped layer returns its cached output instead of
 * recomputing, and how enabling, disabling and stepping change its state.
 */
module LayerReuse {
  import opened Common
  import opened BlockLayout
  import opened PatchHelper

  // ---------------------------------------------------------------------
  // Reading the sequence length of a layer call (lines 6-32)
  // ---------------------------------------------------------------------

  /** A positional or keyword argument of a layer call: a tensor with its shape, or anything else (including `None`). */
  datatype Arg = Tensor(shape: seq<nat>) | NotTensor

  /** `_shape_of`: the shape of a tensor, `None` for anything else. */
  function ShapeOf(x: Arg): (s: Option<seq<nat>>)
    ensures s.Some? <==> x.Tensor?
    ensures s.Some? ==> s.value == x.shape
  {
    match x
    case Tensor(shape) => Some(shape)
    case NotTensor => None
  }

  /** A tensor of rank at least 2, whose dimension 1 is read as `T`. */
  predicate HasSeqDim(x: Arg)
  {
    ShapeOf(x).Some? && |x.shape| >= 2
  }

  /**
   * `_get_seq_len_from_args`: dimension 1 of the first positional argument
   * when that is a tensor of rank at least 2, otherwise dimension 1 of the
   * `hidden_states` keyword argument under the same condition, otherwise
   * unknown. `hiddenStates` is `None` when the keyword is absent or `None`.
   */
  function SeqLenFromArgs(args: seq<Arg>, hiddenStates: Option<Arg>): (t: Option<nat>)
    ensures t.Some? <==> (|args| > 0 && HasSeqDim(args[0])) || (hiddenStates.Some? && HasSeqDim(hiddenStates.value))
    ensures |args| > 0 && HasSeqDim(args[0]) ==> t == Some(args[0].shape[1])
    ensures !(|args| > 0 && HasSeqDim(args[0])) && hiddenStates.Some? && HasSeqDim(hiddenStates.value) ==>
              t == Some(hiddenStates.value.shape[1])
  {
    if |args| > 0 && HasSeqDim(args[0]) then Some(args[0].shape[1])
    else if hiddenStates.Some? && HasSeqDim(hiddenStates.value) then Some(hiddenStates.value.shape[1])
    else None
  }

  // ---------------------------------------------------------------------
  // Subset selection (lines 62-78)
  // ---------------------------------------------------------------------

  /**
   * The constructor's choice of `reuse_layers` for a stack of `n` layers.
   * `None` selects every layer; "first", "middle" and "last" select
   * `min(12, n)` consecutive layers at the bottom, around the middle and at
   * the top; an explicit list is kept as given. Any other string goes through
   * `list(subset)` and becomes a list of characters, which no integer layer
   * index equals, so it selects nothing.
   */
  function SelectReuseLayers(n: nat, subset: LayerSubset): (ls: seq<int>)
    ensures subset.Indices? ==> ls == subset.indices
    ensures !subset.Indices? ==> forall j :: 0 <= j < |ls| ==> 0 <= ls[j] < n && ls[j] == ls[0] + j
    ensures subset == NoSubset ==> |ls| == n
    ensures subset.Named? ==> |ls| == if subset.name in {"first", "middle", "last"} then Min(12, n) else 0
    ensures subset == Named("first") && n > 0 ==> ls[0] == 0
    ensures subset == Named("last") && n > 0 ==> ls[|ls| - 1] == n - 1
    ensures subset == Named("middle") && n > 0 ==> ls[0] == n / 2 - Min(12, n) / 2
  {
    var size := Min(12, n);
    match subset
    case NoSubset => Range(0, n)
    case Named(name) =>
      if name == "first" then Range(0, size)
      else if name == "middle" then
        var start := Max(0, n / 2 - size / 2);
        Range(start, start + size)
      else if name == "last" then Range(n - size, n)
      else []
    case Indices(indices) => indices
  }

  /**
   * "first" means different layers to the two reuse mechanisms: the
   * controller includes layer 0, the patch helper of
   * v2/generation_functions.py starts at layer 1.
   */
  lemma FirstDisagreesOnLayerZero(n: nat, reuseK: int)
    requires n > 0 && reuseK > 1
    ensures 0 in SelectReuseLayers(n, Named("first"))
    ensures 0 !in TargetIndices(n, reuseK, Named("first"))
  {
    var ls := SelectReuseLayers(n, Named("first"));
    assert ls[0] == 0;
    var t := TargetIndices(n, reuseK, Named("first"));
    assert forall j :: 0 <= j < |t| ==> t[j] >= 1;
  }

  // ---------------------------------------------------------------------
  // Counter arithmetic
  // ---------------------------------------------------------------------

  /** A step that does not land on a multiple of `k` stays in the same window of `k` passes. */
  lemma StepStaysInWindow(c: nat, k: nat)
    requires k >= 1 && (c + 1) % k != 0
    ensures (c + 1) / k == c / k
  {
    var q, r := c / k, c % k;
    assert c == k * q + r;
    if r + 1 == k {
      DivModUnique(c + 1, k, q + 1, 0);
    } else {
      DivModUnique(c + 1, k, q, r + 1);
    }
  }

  /** Two counter values in the same window of `k` passes are fewer than `k` apart. */
  lemma SameWindowIsRecent(a: nat, b: nat, k: nat)
    requires k >= 1 && a <= b && a / k == b / k
    ensures b - a < k
  {
    assert a == k * (a / k) + a % k;
    assert b == k * (b / k) + b % k;
  }

  // ---------------------------------------------------------------------
  // The controller (lines 35-196)
  // ---------------------------------------------------------------------

  /**
   * `LayerReuseController`. The layers' `forward` attributes are the slots
   * `forwards`; the dictionary `cache` holds both the outputs, under the
   * layer index, and the recorded sequence lengths, under `("meta", idx)`,
   * kept here as the two maps `cache` and `meta`. `storedAt` records, for
   * the proof only, the counter value at which each cached output was
   * computed.
   */
  class LayerReuseController<O> {
    var forwards: seq<Forward>
    var reuseK: int
    var reuseLayers: seq<int>
    var enabled: bool
    var counter: int
    var cache: map<int, O>
    var meta: map<int, Option<nat>>
    var origForwards: map<int, Forward>
    ghost var storedAt: map<int, nat>

    /**
     * The controller's invariant: outputs are cached only for subset layers,
     * each together with its recorded length and within the current window
     * of `reuse_k` passes; a disabled controller holds nothing; an enabled
     * one has wrapped exactly the subset layers that exist, remembering
     * their original `forward`.
     */
    ghost predicate Valid()
      reads this
    {
      && reuseK >= 1 && counter >= 0
      && cache.Keys == meta.Keys
      && (forall i :: i in cache ==> i in reuseLayers)
      && (forall i :: i in cache ==> i in storedAt && storedAt[i] <= counter && storedAt[i] / reuseK == counter / reuseK)
      && (!enabled ==> cache == map[] && meta == map[] && counter == 0 && origForwards == map[])
      && (enabled ==> forall i :: i in origForwards <==> 0 <= i < |forwards| && i in reuseLayers)
      && (enabled ==> forall i :: i in origForwards ==> 0 <= i < |forwards| && forwards[i] == Wrapped(origForwards[i], i))
    }

    /** The `forward` slots with every wrapper this controller installed taken off. */
    ghost function Unwrapped(): (u: seq<Forward>)
      reads this
      ensures |u| == |forwards|
      ensures forall i :: 0 <= i < |u| && i !in origForwards ==> u[i] == forwards[i]
    {
      seq(|forwards|, i requires 0 <= i < |forwards| reads this =>
        if i in origForwards then origForwards[i] else forwards[i])
    }

    /**
     * Lines 41-78: `reuse_k` clamped to at least 1, the subset selected
     * from the number of layers, disabled, with counter 0 and empty
     * dictionaries.
     */
    constructor(layers: seq<Forward>, subset: LayerSubset, k: int)
      ensures Valid()
      ensures forwards == layers && reuseK == Max(k, 1) && reuseLayers == SelectReuseLayers(|layers|, subset)
      ensures !enabled && counter == 0 && cache == map[] && meta == map[] && origForwards == map[]
    {
      forwards := layers;
      reuseK := Max(k, 1);
      enabled := false;
      counter := 0;
      cache := map[];
      meta := map[];
      origForwards := map[];
      storedAt := map[];
      reuseLayers := SelectReuseLayers(|layers|, subset);
    }

    /** `can_reuse` (lines 110-116): every guard except the recorded length and the presence of an entry. */
    predicate CanReuse(layerIdx: int, stateful: bool)
      reads this
    {
      enabled && layerIdx in reuseLayers && reuseK > 1 && counter % reuseK != 0 && !stateful
    }

    /** Lines 119-126: the cached output is returned. */
    predicate Reuses(layerIdx: int, t: Option<nat>, stateful: bool)
      reads this
    {
      && CanReuse(layerIdx, stateful)
      && layerIdx in meta && t.Some? && meta[layerIdx].Some? && t.value == meta[layerIdx].value
      && layerIdx in cache
    }

    /** Lines 138-142: a computed output is stored. */
    predicate Stores(layerIdx: int, stateful: bool)
      reads this
    {
      enabled && layerIdx in reuseLayers && !stateful
    }

    /**
     * One call of the wrapper of layer `layerIdx` (lines 88-147), where `t`
     * is the sequence length read from the arguments, `hasGlobalPast` and
     * `updatingPast` the two keyword flags, and `computed` what the original
     * `forward` returns. A cached output is returned only when every guard
     * holds; it was then computed fewer than `reuse_k` passes ago, and never
     * on a pass that is a multiple of `reuse_k`. Otherwise the output is
     * computed, and stored with its length exactly when the controller is
     * enabled, the layer is in the subset and the call is not a stateful
     * update. With `reuse_k == 1` every call recomputes.
     */
    method Call(layerIdx: int, t: Option<nat>, hasGlobalPast: bool, updatingPast: bool, computed: O)
      returns (out: O)
      requires Valid()
      modifies this`cache, this`meta, this`storedAt
      ensures Valid()
      ensures var stateful := hasGlobalPast && updatingPast;
        && (old(Reuses(layerIdx, t, stateful)) ==>
              && out == old(cache[layerIdx]) && cache == old(cache) && meta == old(meta)
              && counter % reuseK != 0 && counter - old(storedAt[layerIdx]) < reuseK)
        && (!old(Reuses(layerIdx, t, stateful)) && Stores(layerIdx, stateful) ==>
              out == computed && cache == old(cache)[layerIdx := computed] && meta == old(meta)[layerIdx := t])
        && (!old(Reuses(layerIdx, t, stateful)) && !Stores(layerIdx, stateful) ==>
              out == computed && cache == old(cache) && meta == old(meta))
      ensures reuseK == 1 ==> out == computed
    {
      var stateful := hasGlobalPast && updatingPast;
      if Reuses(layerIdx, t, stateful) {
        SameWindowIsRecent(storedAt[layerIdx], counter, reuseK);
        return cache[layerIdx];
      }
      out := computed;
      if Stores(layerIdx, stateful) {
        cache := cache[layerIdx := out];
        meta := meta[layerIdx := t];
        storedAt := storedAt[layerIdx := counter];
      }
    }

    /**
     * `enable_reuse` (lines 154-167): nothing when already enabled;
     * otherwise enable, reset the counter, empty the cache, and wrap the
     * `forward` of every existing layer in the subset, remembering the
     * original. Taking the wrappers off again gives back the old slots.
     */
    method EnableReuse()
      requires Valid()
      modifies this`enabled, this`counter, this`cache, this`meta, this`origForwards, this`forwards
      ensures Valid()
      ensures old(enabled) ==> enabled && counter == old(counter) && cache == old(cache) && meta == old(meta)
                               && origForwards == old(origForwards) && forwards == old(forwards)
      ensures !old(enabled) ==>
        && enabled && counter == 0 && cache == map[] && meta == map[]
        && |forwards| == old(|forwards|)
        && (forall i :: 0 <= i < |forwards| ==>
              forwards[i] == if i in reuseLayers then Wrapped(old(forwards[i]), i) else old(forwards[i]))
        && Unwrapped() == old(forwards)
    {
      if enabled {
        return;
      }
      enabled := true;
      counter := 0;
      cache := map[];
      meta := map[];
      ghost var slots0 := forwards;
      var idx := 0;
      while idx < |forwards|
        invariant 0 <= idx <= |forwards| == |slots0|
        invariant enabled && counter == 0 && cache == map[] && meta == map[]
        invariant forall i :: i in origForwards <==> 0 <= i < idx && i in reuseLayers
        invariant forall i :: i in origForwards ==> origForwards[i] == slots0[i]
        invariant forall i :: 0 <= i < |forwards| ==>
                    forwards[i] == if i < idx && i in reuseLayers then Wrapped(slots0[i], i) else slots0[i]
      {
        if idx in reuseLayers {
          origForwards := origForwards[idx := forwards[idx]];
          forwards := forwards[idx := Wrapped(forwards[idx], idx)];
        }
        idx := idx + 1;
      }
    }

    /**
     * `disable_reuse` (lines 169-179): nothing when already disabled;
     * otherwise put back every original `forward`, empty both dictionaries,
     * disable and reset the counter.
     */
    method DisableReuse()
      requires Valid()
      modifies this`enabled, this`counter, this`cache, this`meta, this`origForwards, this`forwards
      ensures Valid()
      ensures !old(enabled) ==> !enabled && counter == old(counter) && cache == old(cache) && meta == old(meta)
                                && origForwards == old(origForwards) && forwards == old(forwards)
      ensures old(enabled) ==>
        && !enabled && counter == 0 && cache == map[] && meta == map[] && origForwards == map[]
        && forwards == old(Unwrapped())
    {
      if !enabled {
        return;
      }
      ghost var target := Unwrapped();
      var idx := 0;
      while idx < |forwards|
        invariant 0 <= idx <= |forwards| == |target|
        invariant origForwards == old(origForwards) && cache == old(cache) && meta == old(meta) && enabled
        invariant forall i :: 0 <= i < |forwards| ==> forwards[i] == if i < idx then target[i] else old(forwards[i])
      {
        if idx in reuseLayers && idx in origForwards {
          forwards := forwards[idx := origForwards[idx]];
        }
        idx := idx + 1;
      }
      origForwards := map[];
      cache := map[];
      meta := map[];
      enabled := false;
      counter := 0;
    }

    /**
     * `step` (lines 181-196): nothing when disabled; otherwise the counter
     * advances by one, and the whole cache is flushed when it lands on a
     * multiple of `reuse_k`.
     */
    method Step()
      requires Valid()
      modifies this`counter, this`cache, this`meta
      ensures Valid()
      ensures !old(enabled) ==> counter == old(counter) && cache == old(cache) && meta == old(meta)
      ensures old(enabled) ==> counter == old(counter) + 1
      ensures old(enabled) && counter % reuseK == 0 ==> cache == map[] && meta == map[]
      ensures old(enabled) && counter % reuseK != 0 ==> cache == old(cache) && meta == old(meta)
    {
      if !enabled {
        return;
      }
      counter := counter + 1;
      if counter % reuseK == 0 {
        cache := map[];
        meta := map[];
      } else {
        StepStaysInWindow(counter - 1, reuseK);
      }
    }
  }

  /**
   * Enabling and then disabling a controller gives every layer back the
   * `forward` it had, and leaves the controller as it was built.
   */
  method EnableThenDisable<O>(c: LayerReuseController<O>)
    requires c.Valid() && !c.enabled
    modifies c
    ensures c.Valid() && !c.enabled && c.counter == 0 && c.cache == map[]
    ensures c.forwards == old(c.forwards)
  {
    c.EnableReuse();
    c.DisableReuse();
  }
}
