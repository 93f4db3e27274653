/** Facts about products and remainders that the solver does not find by itself. */
module Arithmetic {

  lemma MulAtLeast(m: nat, d: int)
    ensures (d >= 1 ==> m * d >= m) && (d <= -1 ==> m * d <= 0 - m)
  {
  }

  lemma ModUnique(x: int, q: int, r: int, m: nat)
    requires 0 <= r < m && x == m * q + r
    ensures x % m == r
  {
    var d := x / m - q;
    assert m * d == r - x % m;
    MulAtLeast(m, d);
  }

  lemma MultipleOf(m: nat, q: nat)
    requires m > 0
    ensures (m * q) % m == 0
  {
    ModUnique(m * q, q, 0, m);
  }

  lemma DividesThrough(x: nat, a: nat, b: nat)
    requires a > 0 && b > 0 && x % a == 0 && a % b == 0
    ensures x % b == 0
  {
    var p, q := x / a, a / b;
    assert a == b * q && x == a * p;
    assert x == b * (q * p) by {
      assert (b * q) * p == b * (q * p);
    }
    MultipleOf(b, q * p);
  }

  /** Different multiples of m are at least m apart. */
  lemma MultiplesApart(x: int, y: int, m: nat)
    requires m > 0 && x % m == 0 && y % m == 0 && x < y
    ensures x + m <= y
  {
    var d := y / m - x / m;
    assert m * d == y - x;
    MulAtLeast(m, d);
  }

  ghost predicate PowerOfTwo(n: int) {
    n == 1 || (n > 1 && n % 2 == 0 && PowerOfTwo(n / 2))
  }

  /** Of two powers of two the smaller divides the larger. */
  lemma {:induction false} PowersDivide(a: int, b: int)
    requires PowerOfTwo(a) && PowerOfTwo(b) && b <= a
    ensures a % b == 0
  {
    if b > 1 {
      PowersDivide(a / 2, b / 2);
      var q := (a / 2) / (b / 2);
      assert a == 2 * (b / 2 * q);
      assert a == b * q;
      MultipleOf(b, q);
    }
  }
}
