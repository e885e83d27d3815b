/** Option and Result wrappers, and JavaScript numbers, shared by every module of the gateway model. */
module Base {

  /** A value that JavaScript may leave `undefined` or `null`. */
  datatype Option<T> = None | Some(value: T) {

    /** The value, or `d` when absent (JavaScript's `x ?? d`). */
    function GetOr(d: T): T
    {
      match this
      case Some(v) => v
      case None => d
    }
  }

  /** The outcome of an operation that either returns a value or throws. */
  datatype Result<T, E> = Ok(value: T) | Err(error: E)

  /**
   * A JavaScript number as arithmetic and comparison treat it: a finite value, or NaN, which
   * is what `undefined`, non-numeric text and `parseFloat(null)` turn into.
   */
  datatype Num = Finite(value: real) | NaN

  /** `a - b`: NaN when either operand is NaN. */
  function Minus(a: Num, b: Num): (d: Num)
    ensures d.Finite? <==> a.Finite? && b.Finite?
    ensures d.Finite? ==> d.value + b.value == a.value
  {
    if a.Finite? && b.Finite? then Finite(a.value - b.value) else NaN
  }

  /** `Math.abs(x) > bound`: every comparison with NaN is false. */
  predicate AbsExceeds(x: Num, bound: real)
  {
    x.Finite? && (x.value > bound || -x.value > bound)
  }

  /** The index of the first element satisfying `p` (JavaScript's `findIndex`), if any. */
  function FindFirst<T>(s: seq<T>, p: T -> bool): (k: Option<nat>)
    ensures k.Some? ==> k.value < |s| && p(s[k.value])
    ensures k.Some? ==> forall j :: 0 <= j < k.value ==> !p(s[j])
    ensures k.None? ==> forall j :: 0 <= j < |s| ==> !p(s[j])
    decreases |s|
  {
    if |s| == 0 then None
    else if p(s[0]) then Some(0)
    else
      match FindFirst(s[1..], p)
      case None => None
      case Some(k) => Some(k + 1)
  }

  /** The first element of `s` satisfying `p` is the one at the first index where `p` holds. */
  lemma FindFirstAt<T>(s: seq<T>, p: T -> bool, i: nat)
    requires i < |s| && p(s[i])
    requires forall j :: 0 <= j < i ==> !p(s[j])
    ensures FindFirst(s, p) == Some(i)
  {
  }
}
