/** Quotient and remainder of a number given by its parts. */
module Division {

  lemma Packed(q: nat, r: nat, n: nat)
    requires r < n
    ensures (q * n + r) / n == q && (q * n + r) % n == r
  {
    var x := q * n + r;
    var d, m := x / n, x % n;
    assert x == d * n + m && m < n;
    SameQuotient(q, r, d, m, n);
  }

  /** Two ways of splitting a number into a multiple of `n` and a rest below `n` are the same. */
  lemma SameQuotient(q: nat, r: nat, d: nat, m: nat, n: nat)
    requires q * n + r == d * n + m && r < n && m < n
    ensures q == d && r == m
  {
    var k := q - d;
    assert k * n == q * n - d * n == m - r;
    if k > 0 {
      AtLeast(k, n);
    } else if k < 0 {
      AtMost(k, n);
    }
  }

  lemma AtLeast(k: nat, n: nat)
    requires k > 0
    ensures k * n >= n
  {
    assert k * n == (k - 1) * n + n;
  }

  lemma AtMost(k: int, n: nat)
    requires k < 0
    ensures k * n + n <= 0
  {
    AtLeast(-k, n);
    assert (-k) * n == -(k * n);
  }

  /** Dividing by `n` and then by two is dividing by twice `n`. */
  lemma Halved(x: nat, n: nat)
    requires n > 0
    ensures x / n / 2 == x / (2 * n)
  {
    var q, r := x / n, x % n;
    assert x == q * n + r;
    HalvedParts(x, n, q / 2, q % 2, r);
  }

  lemma HalvedParts(x: nat, n: nat, c: nat, d: nat, r: nat)
    requires r < n && d < 2 && x == (2 * c + d) * n + r
    ensures x / (2 * n) == c
  {
    var rest := if d == 0 then r else n + r;
    Regroup(c, d, n, r);
    Packed(c, rest, 2 * n);
  }

  lemma Regroup(c: nat, d: nat, n: nat, r: nat)
    requires d < 2
    ensures (2 * c + d) * n + r == c * (2 * n) + (if d == 0 then r else n + r)
  {
  }
}
