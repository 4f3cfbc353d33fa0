/** JavaScript's `%` on integers. It truncates toward zero, so the
    remainder takes the sign of the dividend, unlike Dafny's `%`, whose
    remainder is never negative. */
module JsNumber {

  /** `a % n` for a positive divisor `n`. */
  function JsRem(a: int, n: int): (r: int)
    requires n > 0
    ensures -n < r < n
    ensures a >= 0 ==> r == a % n
    ensures a <= 0 ==> r <= 0
  {
    if a >= 0 then a % n else -((-a) % n)
  }

  /** The quotient JavaScript's `%` pairs with: `Math.trunc(a / n)`. */
  function JsQuot(a: int, n: int): int
    requires n > 0
  {
    if a >= 0 then a / n else -((-a) / n)
  }

  /** The remainder is what is left after taking the truncated quotient's multiple of `n`. */
  lemma JsDivision(a: int, n: int)
    requires n > 0
    ensures a == n * JsQuot(a, n) + JsRem(a, n)
  {
    if a < 0 {
      var q := (-a) / n;
      assert -a == n * q + (-a) % n;
      assert n * JsQuot(a, n) == n * -q == -(n * q);
    }
  }
}
