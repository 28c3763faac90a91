/** Products, quotients and remainders. */
module Arithmetic {
  /** A position or a size, with integer coordinates. */
  datatype Vector3 = Vector3(x: int, y: int, z: int)

  function Min(a: int, b: int): int { if a <= b then a else b }

  function Max(a: int, b: int): int { if a <= b then b else a }

  function Abs(n: int): nat { if n < 0 then -n else n }

  lemma Quotient(v: nat, d: nat, q: nat, r: nat)
    requires v == q * d + r && r < d
    ensures v / d == q && v % d == r
  {
    var k := v / d;
    assert v == k * d + v % d;
    Product(k, q, d);
  }

  lemma Product(k: int, q: int, d: nat)
    ensures k < q ==> k * d + d <= q * d
    ensures k > q ==> q * d + d <= k * d
  {
    if k < q {
      AtLeast(q - k, d);
    } else if k > q {
      AtLeast(k - q, d);
    }
    assert (q - k) * d == q * d - k * d && (k - q) * d == k * d - q * d;
  }

  lemma {:induction false} AtLeast(n: nat, d: nat)
    requires n >= 1
    ensures n * d >= d
  {
    if n > 1 {
      AtLeast(n - 1, d);
      assert n * d == (n - 1) * d + d;
    }
  }

  lemma Products(a: int, b: int, c: int)
    ensures a <= b && c >= 0 ==> a * c <= b * c
    ensures (a + b) * c == a * c + b * c
  {
  }

  lemma QuotientBelow(n: nat, d: nat, q: int)
    requires d > 0 && n < d * q
    ensures n / d < q
  {
    var k := n / d;
    assert n == k * d + n % d;
    Product(q, k, d);
    assert q == k ==> q * d == k * d;
  }

  lemma QuotientMonotone(n: nat, m: nat, d: nat)
    requires n <= m && d > 0
    ensures n / d <= m / d
  {
    assert m == m / d * d + m % d;
    assert d * (m / d + 1) == m / d * d + d;
    QuotientBelow(n, d, m / d + 1);
  }
}
