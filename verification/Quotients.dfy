/** Facts about integer division by a variable, which the solver does not know by itself. */
module Quotients {

  lemma NoMultipleWithin(k: int, size: int)
    requires size > 0 && -size < k * size < size
    ensures k == 0
  {
  }

  lemma MulMonotone(a: int, b: int, size: int)
    requires a <= b && size > 0
    ensures a * size <= b * size
  {
  }

  /** A quotient and a remainder are determined by what they add up to. */
  lemma QuotientIs(x: int, q: int, rest: int, size: int)
    requires 0 <= rest < size && x == q * size + rest
    ensures x / size == q && x % size == rest
  {
    var d := x / size;
    assert x == d * size + x % size;
    assert (d - q) * size == d * size - q * size;
    NoMultipleWithin(d - q, size);
  }

  lemma NextQuotient(n: nat, size: nat)
    requires size > 0
    ensures n % size + 1 < size ==> (n + 1) / size == n / size && (n + 1) % size == n % size + 1
    ensures n % size + 1 == size ==> (n + 1) / size == n / size + 1 && (n + 1) % size == 0
  {
    var q, r := n / size, n % size;
    assert n == q * size + r;
    if r + 1 == size {
      assert (q + 1) * size == q * size + size;
      QuotientIs(n + 1, q + 1, 0, size);
    } else {
      QuotientIs(n + 1, q, r + 1, size);
    }
  }

  lemma AtMostQuotient(n: nat, k: nat, size: nat)
    requires size > 0 && k * size <= n
    ensures k <= n / size
  {
    var q, r := n / size, n % size;
    assert n == q * size + r && (q + 1) * size == q * size + size;
    if k > q { MulMonotone(q + 1, k, size); }
  }
}
