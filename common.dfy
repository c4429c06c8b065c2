/** Small shared vocabulary: an optional value and integer helpers. */
module Common {

  /** A value that may be missing: JavaScript's `null` / `undefined`. */
  datatype Option<+T> = None | Some(value: T)

  function Max(a: int, b: int): int
  {
    if a >= b then a else b
  }

  function Min(a: int, b: int): int
  {
    if a <= b then a else b
  }

  /** `Math.ceil(a / b)` for a non-negative numerator and a positive divisor. */
  function CeilDiv(a: nat, b: nat): (q: nat)
    requires b > 0
    ensures q * b >= a
    ensures q == 0 || (q - 1) * b < a
  {
    (a + b - 1) / b
  }

  // ---------------------------------------------------------------------------
  // Facts about `%` with a symbolic modulus
  // ---------------------------------------------------------------------------

  lemma MulAtLeast(k: int, n: int)
    requires k >= 1 && n > 0
    ensures k * n >= n
  {
  }

  /** Division with remainder has a unique quotient and remainder. */
  lemma ModUnique(a: int, n: int, q: int, r: int)
    requires 0 <= r < n && a == q * n + r
    ensures a % n == r && a / n == q
  {
    var q' := a / n;
    var r' := a % n;
    assert a == q' * n + r';
    assert (q - q') * n == r' - r;
    if q > q' {
      MulAtLeast(q - q', n);
    } else if q < q' {
      MulAtLeast(q' - q, n);
    }
  }

  /** A value below 2n reduces by at most one subtraction of n. */
  lemma ModCases(a: nat, n: nat)
    requires 0 < n && a < 2 * n
    ensures a % n == if a < n then a else a - n
  {
    if a >= n {
      ModUnique(a, n, 1, a - n);
    } else {
      ModUnique(a, n, 0, a);
    }
  }

  /** Stepping a residue forward by one is stepping the value forward by one. */
  lemma ModSucc(a: nat, n: nat)
    requires n > 0
    ensures (a % n + 1) % n == (a + 1) % n
  {
    var q := a / n;
    var r := a % n;
    assert a == q * n + r;
    if r + 1 < n {
      ModUnique(a + 1, n, q, r + 1);
      ModUnique(r + 1, n, 0, r + 1);
    } else {
      assert a + 1 == (q + 1) * n + 0;
      ModUnique(a + 1, n, q + 1, 0);
      ModUnique(r + 1, n, 1, 0);
    }
  }
}
