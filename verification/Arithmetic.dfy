/** Facts about quotients and remainders that the solver does not find by itself. */
module Arithmetic {

  lemma MulMono(a: int, b: int, d: nat)
    requires a < b
    ensures (a + 1) * d <= b * d
  {
  }

  /** Euclidean division is unique. */
  lemma DivUnique(t: int, d: nat, q: int, r: nat)
    requires r < d && t == q * d + r
    ensures t / d == q && t % d == r
  {
    var q' := t / d;
    assert t == q' * d + t % d;
    if q' < q {
      MulMono(q', q, d);
    } else if q' > q {
      MulMono(q, q', d);
    }
  }

  lemma Regroup(q: int, b: int, r: int, a: int)
    ensures (q * b + r) * a == q * (a * b) + r * a
  {
    assert (q * b) * a == q * (a * b);
  }

  /** A quotient by a product is a quotient of a quotient. */
  lemma DivDiv(t: nat, a: nat, b: nat, ab: nat)
    requires a > 0 && b > 0 && ab == a * b
    ensures t / ab == t / a / b
  {
    var u := t / a;
    var q, r := u / b, u % b;
    Regroup(q, b, r, a);
    MulMono(r, b, a);
    DivUnique(t, ab, q, r * a + t % a);
  }

  /** Two adjacent bit fields below a constant, taken apart again. */
  lemma TakeApart(k: nat, x: nat, y: nat)
    requires y < 4 && k % 8 == 4
    ensures (k + 8 * x + y) % 4 == y
    ensures (k + 8 * x + y) / 8 == k / 8 + x
  {
    DivUnique(k + 8 * x + y, 8, k / 8 + x, 4 + y);
    DivUnique(k + 8 * x + y, 4, 2 * (k / 8 + x) + 1, y);
  }

  function Min(a: nat, b: nat): nat {
    if a < b then a else b
  }
}
