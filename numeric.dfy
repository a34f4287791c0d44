/** Clamping of a real into an interval, as written `np.clip(y, lo, hi)` and `min(max(v, lo), hi)`. */
module Numeric {

  /** `min(max(x, lo), hi)`: first raise to `lo`, then cap at `hi`. */
  function Clamp(x: real, lo: real, hi: real): (r: real)
    ensures lo <= hi ==> lo <= r <= hi
    ensures lo <= x <= hi ==> r == x
    ensures x <= lo && lo <= hi ==> r == lo
    ensures hi <= x && lo <= hi ==> r == hi
  {
    var raised := if x < lo then lo else x;
    if hi < raised then hi else raised
  }

  /** Clamping never reverses the order of two inputs. */
  lemma ClampMonotone(x: real, y: real, lo: real, hi: real)
    requires x <= y
    ensures Clamp(x, lo, hi) <= Clamp(y, lo, hi)
  {
  }

  /** Clamping twice is clamping once. */
  lemma ClampIdempotent(x: real, lo: real, hi: real)
    requires lo <= hi
    ensures Clamp(Clamp(x, lo, hi), lo, hi) == Clamp(x, lo, hi)
  {
  }
}
