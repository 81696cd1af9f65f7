/** Facts about multiplication, quotient and remainder the solver does not find by itself. */
module Arith {

  lemma MulMono(a: nat, b: nat, k: nat)
    requires a <= b
    ensures a * k <= b * k
  {
  }

  /** Writing x as q·k + r with r < k determines the quotient and the remainder. */
  lemma DivModUnique(x: nat, k: nat, q: nat, r: nat)
    requires k > 0 && r < k && x == q * k + r
    ensures x / k == q && x % k == r
  {
    var a, b := x / k, x % k;
    assert x == a * k + b;
    if a < q {
      MulMono(a + 1, q, k);
    } else if a > q {
      MulMono(q + 1, a, k);
    }
  }

  /** An index below m·n splits into a row below m and a column below n. */
  lemma DivModBound(k: nat, n: nat, m: nat)
    requires n > 0 && k < m * n
    ensures k / n < m && k % n < n && k == (k / n) * n + k % n
  {
    if k / n >= m {
      MulMono(m, k / n, n);
    }
  }

  /** x lies in the block of k ids that its quotient names. */
  lemma DivBlock(x: nat, k: nat)
    requires k > 0
    ensures (x / k) * k <= x < (x / k + 1) * k
  {
    var q := x / k;
    assert x == q * k + x % k;
    assert (q + 1) * k == q * k + k;
  }

  /** ... and in no other block. */
  lemma DivBlockUnique(x: nat, k: nat, q: nat)
    requires k > 0 && q * k <= x < (q + 1) * k
    ensures x / k == q
  {
    assert (q + 1) * k == q * k + k;
    DivModUnique(x, k, q, x - q * k);
  }

  /** Column i of row `row` in an m-by-n block layout lies inside that row and inside the layout. */
  lemma BlockIndex(row: nat, m: nat, n: nat, i: nat)
    requires row < m && i < n
    ensures row * n + i < (row + 1) * n <= m * n
  {
    assert (row + 1) * n == row * n + n;
    MulMono(row + 1, m, n);
  }
}
