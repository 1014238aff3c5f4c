/** Facts about natural-number multiplication and floor division used by the amount and curve proofs. */
module Arithmetic {

  /** Euclidean division is unique: `q * p + r` with `r < p` divides back into `q` and `r`. */
  lemma DivModUnique(q: nat, p: nat, r: nat)
    requires r < p
    ensures (q * p + r) / p == q && (q * p + r) % p == r
  {
    var x := q * p + r;
    var d := x / p - q;
    assert p * d == r - x % p;
    assert d == 0;
  }

  /** Floor division brackets the dividend between two consecutive multiples of the divisor. */
  lemma DivBounds(x: nat, k: nat)
    requires k > 0
    ensures x / k * k <= x < (x / k + 1) * k
  {
    var q := x / k;
    assert x == q * k + x % k;
  }

  /**
   * `whole` shared out by `part / total`, rounded down: the floor brackets, at most
   * `whole` for a part of the total, exactly `whole` for the total itself.
   */
  lemma ShareOf(whole: nat, part: nat, total: nat)
    requires total > 0
    ensures whole * part / total * total <= whole * part < (whole * part / total + 1) * total
    ensures part <= total ==> whole * part / total <= whole
    ensures part == total ==> whole * part / total == whole
  {
    DivBounds(whole * part, total);
    if part <= total {
      MulMonotone(part, total, whole);
      DivAtMost(whole * part, total, whole);
      MulDivCancel(whole, total);
    }
  }

  /** A quotient is at most `m` when the dividend is at most `m` times the divisor. */
  lemma DivAtMost(x: nat, k: nat, m: nat)
    requires k > 0 && x <= m * k
    ensures x / k <= m
  {
    var q := x / k;
    assert q * k <= x;
  }

  /** A quotient is at least `m` when the dividend is at least `m` times the divisor. */
  lemma DivAtLeast(x: nat, k: nat, m: nat)
    requires k > 0 && m * k <= x
    ensures m <= x / k
  {
    var q := x / k;
    assert x < (q + 1) * k;
  }

  /** Floor division is monotone in the dividend. */
  lemma DivMonotone(a: nat, b: nat, k: nat)
    requires k > 0 && a <= b
    ensures a / k <= b / k
  {
    assert a / k * k <= a;
    DivAtLeast(b, k, a / k);
  }

  lemma MulMonotone(a: nat, b: nat, c: nat)
    requires a <= b
    ensures a * c <= b * c
  {
  }

  /** A common factor cancels from dividend and divisor. */
  lemma CancelFactor(k: nat, x: nat, y: nat)
    requires k > 0 && y > 0
    ensures (k * x) / (k * y) == x / y
  {
    var q, r := x / y, x % y;
    assert x == q * y + r;
    assert k * x == q * (k * y) + k * r;
    assert k * r < k * y;
    DivModUnique(q, k * y, k * r);
  }

  /** Multiplying by `k` and dividing by `k` gives back the value. */
  lemma MulDivCancel(x: nat, k: nat)
    requires k > 0
    ensures (x * k) / k == x && (k * x) / k == x
  {
    DivModUnique(x, k, 0);
    assert x * k + 0 == x * k == k * x;
  }
}
