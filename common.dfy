/** Small shared vocabulary: optional values, results with errors, Python's range, counting. */
module Common {

  datatype Option<T> = None | Some(value: T) {
    function GetOr(default: T): T {
      match this
      case Some(v) => v
      case None => default
    }
  }

  datatype Result<T, E> = Success(value: T) | Failure(error: E)

  /** The Python exceptions the modelled code can raise. */
  datatype PyError =
    | IndexError         // an index or a boolean mask that does not fit
    | RuntimeError       // a tensor shape mismatch, or the maximum of an empty tensor
    | ZeroDivisionError  // `//` by a zero block size
    | NameError          // a local read before any assignment
    | AssertionError     // a failed `assert`

  /**
   * The `layer_subset` / `subset` argument: `None`, a string such as
   * "first", "middle" or "last", or an explicit list of layer indices.
   */
  datatype LayerSubset = NoSubset | Named(name: string) | Indices(indices: seq<int>)

  function Min(a: int, b: int): int { if a <= b then a else b }

  function Max(a: int, b: int): int { if a <= b then b else a }

  /** Python's `list(range(lo, hi))`. */
  function Range(lo: int, hi: int): (r: seq<int>)
    ensures |r| == if hi <= lo then 0 else hi - lo
    ensures forall j :: 0 <= j < |r| ==> r[j] == lo + j
    decreases hi - lo
  {
    if hi <= lo then [] else [lo] + Range(lo + 1, hi)
  }

  lemma RangeMembership(lo: int, hi: int, x: int)
    ensures x in Range(lo, hi) <==> lo <= x < hi
  {
    if lo <= x < hi {
      assert Range(lo, hi)[x - lo] == x;
    }
  }

  /** Number of occurrences of `x` in `s`. */
  function Count(s: seq<int>, x: int): nat
  {
    if s == [] then 0 else (if s[0] == x then 1 else 0) + Count(s[1..], x)
  }

  lemma {:induction false} CountZero(s: seq<int>, x: int)
    ensures Count(s, x) == 0 <==> forall i :: 0 <= i < |s| ==> s[i] != x
  {
    if s != [] {
      CountZero(s[1..], x);
      assert forall i :: 1 <= i < |s| ==> s[i] == s[1..][i - 1];
    }
  }

  /**
   * Overwriting some positions of `a` without ever writing `x` does not add
   * occurrences of `x`; turning at least one occurrence into something else
   * removes at least one.
   */
  lemma {:induction false} CountShrinks(a: seq<int>, b: seq<int>, x: int)
    requires |a| == |b|
    requires forall i :: 0 <= i < |a| && b[i] == x ==> a[i] == x
    ensures Count(b, x) <= Count(a, x)
    ensures (exists i :: 0 <= i < |a| && a[i] == x && b[i] != x) ==> Count(b, x) < Count(a, x)
  {
    if a != [] {
      assert forall i :: 0 <= i < |a| - 1 ==> a[1..][i] == a[i + 1] && b[1..][i] == b[i + 1];
      CountShrinks(a[1..], b[1..], x);
      if exists i :: 0 <= i < |a| && a[i] == x && b[i] != x {
        var i :| 0 <= i < |a| && a[i] == x && b[i] != x;
        if i > 0 {
          assert a[1..][i - 1] == x && b[1..][i - 1] != x;
        }
      }
    }
  }
}
