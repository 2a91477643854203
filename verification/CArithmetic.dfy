/** Arithmetic as C does it, where it differs from Dafny's. */
module CArithmetic {
  /** Division as C does it, toward zero. */
  function TruncDiv(a: int, b: int): (q: int)
    requires b > 0
  {
    if a >= 0 then a / b else -(-a / b)
  }

  /** A cast from double to an integer type. */
  function Trunc(r: real): (n: int) {
    if r >= 0.0 then r.Floor else -((-r).Floor)
  }

  /** Both cut toward zero: the result has the sign of the exact value and misses less than one of it. */
  lemma TruncDivIs(a: int, b: int)
    requires b > 0
    ensures var q := TruncDiv(a, b);
      if a >= 0 then q >= 0 && q * b <= a < q * b + b else q <= 0 && q * b - b < a <= q * b
  {
  }

  lemma TruncIs(r: real)
    ensures var n := Trunc(r);
      if r >= 0.0 then n >= 0 && n as real <= r < (n + 1) as real else n <= 0 && (n - 1) as real < r <= n as real
  {
  }
}
