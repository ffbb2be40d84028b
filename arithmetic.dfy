/** Facts about multiplication and floor division on integers that the solver does not find unaided. */
module Arithmetic {
  lemma MulSign(k: int, m: int)
    requires m > 0
    ensures k >= 0 ==> k * m >= 0
    ensures k >= 1 ==> k * m >= m
    ensures k <= -1 ==> k * m <= -m
  {
    if k >= 1 {
      assert k * m == (k - 1) * m + m;
    } else if k <= -1 {
      assert k * m == (k + 1) * m - m;
    }
  }

  /** Multiplying both sides by a positive number keeps a strict order. */
  lemma MulCancelLess(x: int, y: int, m: int)
    requires m > 0 && x * m < y * m
    ensures x < y
  {
    assert (x - y) * m == x * m - y * m;
    MulSign(x - y, m);
  }

  /** The quotient is the only `p` with `a == p * m + r` and `0 <= r < m`. */
  lemma DivUnique(a: int, m: int, p: int, r: int)
    requires m > 0 && a == p * m + r && 0 <= r < m
    ensures a / m == p
  {
    var q := a / m;
    assert a == q * m + a % m;
    assert (p - q) * m == a % m - r;
    MulSign(p - q, m);
  }

  /** Dividing by `b` and then by ten is dividing by `b * 10`. */
  lemma DivTen(a: nat, b: nat)
    requires b > 0
    ensures a / b / 10 == a / (b * 10)
  {
    var q, r1 := a / b, a % b;
    var p, r2 := q / 10, q % 10;
    assert a == q * b + r1;
    assert q == p * 10 + r2;
    assert q * b == (p * 10) * b + r2 * b;
    assert (p * 10) * b == p * (b * 10);
    MulSign(9 - r2, b);
    assert (9 - r2) * b == 9 * b - r2 * b;
    DivUnique(a, b * 10, p, r2 * b + r1);
  }
}
