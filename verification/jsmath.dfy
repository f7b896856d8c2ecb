/**
 * Integer arithmetic with the meaning JavaScript's `Math` functions and
 * operators give it. Dafny's `/` and `%` are Euclidean; the JavaScript
 * operators they model are written out here.
 */
module JsMath {

  /** `Math.max` on two integers. */
  function Max(a: int, b: int): (r: int)
    ensures r >= a && r >= b
    ensures r == a || r == b
  {
    if a >= b then a else b
  }

  /** `Math.min` on two integers. */
  function Min(a: int, b: int): (r: int)
    ensures r <= a && r <= b
    ensures r == a || r == b
  {
    if a <= b then a else b
  }

  /**
   * `clamp(n, min, max)` of the planner: `Math.max(min, Math.min(max, n))`.
   * Inside the range it is the identity; outside it saturates at the nearer
   * bound. With `min > max` the lower bound wins.
   */
  function Clamp(n: int, lo: int, hi: int): (r: int)
    ensures lo <= hi ==> lo <= r <= hi
    ensures lo <= n <= hi ==> r == n
    ensures n < lo ==> r == lo
    ensures lo <= hi < n ==> r == hi
    ensures hi < lo ==> r == lo
  {
    Max(lo, Min(hi, n))
  }

  /** `Math.ceil(ms / 1000)`: the whole seconds a count of milliseconds starts into. */
  function CeilSeconds(ms: int): (s: int)
    ensures (s - 1) * 1000 < ms <= s * 1000
    ensures ms >= 0 ==> s >= 0
  {
    -((-ms) / 1000)
  }

  /** JavaScript's `a % b` for `b > 0`: the remainder takes the sign of `a`. */
  function JsRem(a: int, b: int): (r: int)
    requires b > 0
    ensures a >= 0 ==> r == a % b && 0 <= r < b
    ensures a < 0 ==> -b < r <= 0 && r == -((-a) % b)
  {
    if a >= 0 then a % b else -((-a) % b)
  }
}
