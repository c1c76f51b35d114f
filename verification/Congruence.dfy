/** Congruence of integers modulo `q`, with the multiple as an explicit witness so that no proof
    has to reason about `%` with a variable divisor. */
module Congruence {
  function Times(k: int, q: int): int {
    k * q
  }

  ghost predicate Cong(a: int, b: int, q: int) {
    exists k :: a - b == Times(k, q)
  }

  /** Two vectors of the same length, congruent entry by entry. */
  ghost predicate CongSeq(s: seq<int>, t: seq<int>, q: int) {
    |s| == |t| && forall i :: 0 <= i < |s| ==> Cong(s[i], t[i], q)
  }

  lemma Witness(a: int, b: int, k: int, q: int)
    requires a - b == k * q
    ensures Cong(a, b, q)
  {
    assert a - b == Times(k, q);
  }

  lemma Refl(a: int, q: int)
    ensures Cong(a, a, q)
  {
    assert a - a == Times(0, q);
  }

  lemma Sym(a: int, b: int, q: int)
    requires Cong(a, b, q)
    ensures Cong(b, a, q)
  {
    var k :| a - b == Times(k, q);
    assert b - a == Times(-k, q);
  }

  lemma Trans(a: int, b: int, c: int, q: int)
    requires Cong(a, b, q) && Cong(b, c, q)
    ensures Cong(a, c, q)
  {
    var k :| a - b == Times(k, q);
    var l :| b - c == Times(l, q);
    assert a - c == Times(k + l, q);
  }

  lemma Add(a: int, b: int, c: int, d: int, q: int)
    requires Cong(a, b, q) && Cong(c, d, q)
    ensures Cong(a + c, b + d, q)
  {
    var k :| a - b == Times(k, q);
    var l :| c - d == Times(l, q);
    assert (a + c) - (b + d) == Times(k + l, q);
  }

  lemma Sub(a: int, b: int, c: int, d: int, q: int)
    requires Cong(a, b, q) && Cong(c, d, q)
    ensures Cong(a - c, b - d, q)
  {
    var k :| a - b == Times(k, q);
    var l :| c - d == Times(l, q);
    assert (a - c) - (b - d) == Times(k - l, q);
  }

  lemma Mul(a: int, b: int, c: int, d: int, q: int)
    requires Cong(a, b, q) && Cong(c, d, q)
    ensures Cong(a * c, b * d, q)
  {
    var k :| a - b == Times(k, q);
    var l :| c - d == Times(l, q);
    assert a * c - b * d == (a - b) * c + b * (c - d);
    assert Times(k, q) * c == Times(k * c, q);
    assert b * Times(l, q) == Times(b * l, q);
    assert a * c - b * d == Times(k * c + b * l, q);
  }

  /** Multiplying both sides by the same factor. */
  lemma Scale(a: int, b: int, c: int, q: int)
    requires Cong(a, b, q)
    ensures Cong(c * a, c * b, q)
  {
    Refl(c, q);
    Mul(c, c, a, b, q);
  }

  /** A unit can be cancelled: if `u` has an inverse, `u * a` determines `a`. */
  lemma Cancel(u: int, inv: int, a: int, b: int, q: int)
    requires Cong(u * inv, 1, q) && Cong(a * u, b, q)
    ensures Cong(a, b * inv, q)
  {
    Scale(a * u, b, inv, q);
    Scale(u * inv, 1, a, q);
    Sym(a * (u * inv), a * 1, q);
    assert a * (u * inv) == inv * (a * u);
    Trans(a, a * (u * inv), inv * b, q);
    assert inv * b == b * inv;
  }

  /** Congruent numbers closer than the modulus are equal. */
  lemma Unique(a: int, b: int, q: int)
    requires Cong(a, b, q) && -q < a - b < q
    ensures a == b
  {
    var k :| a - b == Times(k, q);
    NoSmallMultiple(k, q);
  }

  lemma NoSmallMultiple(k: int, q: int)
    requires -q < k * q < q
    ensures k == 0
  {
  }

  /** For a positive modulus, congruence is equality of Euclidean remainders. */
  lemma FromMod(a: int, b: int, q: int)
    requires q > 0 && a % q == b % q
    ensures Cong(a, b, q)
  {
    assert a - b == Times(a / q - b / q, q);
  }

  lemma ToMod(a: int, b: int, q: int)
    requires q > 0 && Cong(a, b, q)
    ensures a % q == b % q
  {
    var k :| a - b == Times(k, q);
    assert a % q - b % q == Times(k - a / q + b / q, q);
    Unique(a % q, b % q, q);
  }

  /** Quotient and remainder are determined by the division identity. */
  lemma DivUnique(p: int, d: int, t: int, o: int)
    requires p == d * t + o && 0 <= o < d
    ensures p / d == t && p % d == o
  {
    assert d * (p / d - t) == o - p % d;
    NoSmallMultiple(p / d - t, d);
  }

  lemma MulMono(a: int, b: int, c: int)
    requires a <= b && 0 <= c
    ensures a * c <= b * c
  {
  }
}
