/** Integer polynomials of degree below 256: schoolbook multiplication in Z[X]/(X^256 + 1), and
    evaluation at the roots of X^256 + 1 modulo a prime, which turns it into multiplication. */
module Polynomial {
  import opened Congruence
  import opened Params
  import opened Levels

  // -------------------------------------------------------------------------------------------
  // Schoolbook multiplication
  // -------------------------------------------------------------------------------------------

  /** The contribution of `a[i]` to coefficient `k` of `a * b`; X^256 = -1 turns the part that
      overflows around with its sign changed. */
  function NegaTerm(a: Poly, b: Poly, k: nat, i: nat): int
    requires k < 256 && i < 256
  {
    if i <= k then a[i] * b[k - i] else -(a[i] * b[256 + k - i])
  }

  /** The contributions of the first `n` coefficients of `a`. */
  function NegaSum(a: Poly, b: Poly, k: nat, n: nat): int
    requires k < 256 && n <= 256
  {
    if n == 0 then 0 else NegaSum(a, b, k, n - 1) + NegaTerm(a, b, k, n - 1)
  }

  /** `a * b` in Z[X]/(X^256 + 1). */
  function NegaMul(a: Poly, b: Poly): (c: Poly) {
    Partial(a, b, 256)
  }

  function Partial(a: Poly, b: Poly, n: nat): (c: Poly)
    requires n <= 256
  {
    seq(256, k requires 0 <= k < 256 => NegaSum(a, b, k, n))
  }

  // -------------------------------------------------------------------------------------------
  // Evaluation
  // -------------------------------------------------------------------------------------------

  function Eval(s: seq<int>, x: int): int {
    if |s| == 0 then 0 else s[0] + x * Eval(s[1..], x)
  }

  lemma {:induction false} EvalConcat(a: seq<int>, b: seq<int>, x: int)
    ensures Eval(a + b, x) == Eval(a, x) + Pow(x, |a|) * Eval(b, x)
  {
    if a == [] {
      assert a + b == b;
    } else {
      EvalConcat(a[1..], b, x);
      assert (a + b)[1..] == a[1..] + b;
      HornerStep(a[0], x, Eval(a[1..], x), Pow(x, |a| - 1), Eval(b, x));
    }
  }

  lemma HornerStep(c: int, x: int, u: int, p: int, v: int)
    ensures c + x * (u + p * v) == (c + x * u) + (x * p) * v
  {
  }

  /** Evaluation is linear. */
  lemma {:induction false} EvalCombine(a: seq<int>, b: seq<int>, c: seq<int>, z: int, x: int)
    requires |a| == |b| == |c| && forall j :: 0 <= j < |a| ==> c[j] == a[j] + z * b[j]
    ensures Eval(c, x) == Eval(a, x) + z * Eval(b, x)
  {
    if a != [] {
      EvalCombine(a[1..], b[1..], c[1..], z, x);
      CombineStep(a[0], b[0], z, x, Eval(a[1..], x), Eval(b[1..], x));
    }
  }

  lemma CombineStep(a: int, b: int, z: int, x: int, u: int, v: int)
    ensures (a + z * b) + x * (u + z * v) == (a + x * u) + z * (b + x * v)
  {
  }

  lemma {:induction false} EvalZero(s: seq<int>, x: int)
    requires forall j :: 0 <= j < |s| ==> s[j] == 0
    ensures Eval(s, x) == 0
  {
    if s != [] { EvalZero(s[1..], x); }
  }

  lemma {:induction false} EvalCong(s: seq<int>, t: seq<int>, x: int, q: int)
    requires CongSeq(s, t, q)
    ensures Cong(Eval(s, x), Eval(t, x), q)
  {
    hide Cong;
    if s == [] {
      Refl(0, q);
    } else {
      EvalCong(s[1..], t[1..], x, q);
      Scale(Eval(s[1..], x), Eval(t[1..], x), x, q);
      Add(s[0], t[0], x * Eval(s[1..], x), x * Eval(t[1..], x), q);
    }
  }

  // -------------------------------------------------------------------------------------------
  // At a root of X^256 + 1, evaluation is multiplicative
  // -------------------------------------------------------------------------------------------

  /** `X^n * b`. */
  function Rotate(b: Poly, n: nat): (c: Poly)
    requires n < 256
  {
    seq(256, k requires 0 <= k < 256 => if n <= k then b[k - n] else -b[256 + k - n])
  }

  lemma EvalRotate(b: Poly, n: nat, x: int, q: int)
    requires n < 256 && Cong(Pow(x, 256), -1, q)
    ensures Cong(Eval(Rotate(b, n), x), Pow(x, n) * Eval(b, x), q)
  {
    hide Cong, Eval, Pow, Congruence.Times;
    var m := 256 - n;
    var top := seq(n, j requires 0 <= j < n => -b[m + j]);
    var e, f := Eval(b[..m], x), Eval(b[m..], x);
    assert Rotate(b, n) == top + b[..m];
    EvalConcat(top, b[..m], x);
    var zero := seq(n, _ => 0);
    EvalZero(zero, x);
    EvalCombine(zero, b[m..], top, -1, x);
    assert b == b[..m] + b[m..];
    EvalConcat(b[..m], b[m..], x);
    PowAdd(x, n, m);
    RotateAlgebra(Pow(x, n), Pow(x, m), e, f, q);
  }

  lemma RotateAlgebra(pn: int, pm: int, e: int, f: int, q: int)
    requires Cong(pn * pm, -1, q)
    ensures Cong(-1 * f + pn * e, pn * (e + pm * f), q)
  {
    Scale(pn * pm, -1, f, q);
    Refl(pn * e, q);
    Add(f * (pn * pm), f * -1, pn * e, pn * e, q);
    assert f * (pn * pm) + pn * e == pn * (e + pm * f);
    Sym(pn * (e + pm * f), f * -1 + pn * e, q);
  }

  lemma {:induction false} EvalPartial(a: Poly, b: Poly, n: nat, x: int, q: int)
    requires n <= 256 && Cong(Pow(x, 256), -1, q)
    ensures Cong(Eval(Partial(a, b, n), x), Eval(a[..n], x) * Eval(b, x), q)
  {
    hide Cong, Eval, Pow, Congruence.Times;
    if n == 0 {
      EvalZero(Partial(a, b, 0), x);
      EvalZero(a[..0], x);
      assert 0 * Eval(b, x) == 0;
      Refl(0, q);
    } else {
      var i := n - 1;
      EvalPartial(a, b, i, x, q);
      EvalCombine(Partial(a, b, i), Rotate(b, i), Partial(a, b, n), a[i], x);
      EvalRotate(b, i, x, q);
      assert a[..n] == a[..i] + [a[i]];
      EvalConcat(a[..i], [a[i]], x);
      EvalSingle(a[i], x);
      PartialAlgebra(Eval(Partial(a, b, i), x), Eval(a[..i], x), Eval(b, x), a[i], Eval(Rotate(b, i), x), Pow(x, i), q);
    }
  }

  lemma EvalSingle(c: int, x: int)
    ensures Eval([c], x) == c
  {
    assert [c][1..] == [];
  }

  lemma PartialAlgebra(u: int, v: int, e: int, c: int, r: int, p: int, q: int)
    requires Cong(u, v * e, q) && Cong(r, p * e, q)
    ensures Cong(u + c * r, (v + p * c) * e, q)
  {
    Scale(r, p * e, c, q);
    Add(u, v * e, c * r, c * (p * e), q);
    assert v * e + c * (p * e) == (v + p * c) * e;
  }

  /** Evaluating a schoolbook product at a root of X^256 + 1 multiplies the evaluations. */
  lemma EvalProduct(a: Poly, b: Poly, x: int, q: int)
    requires Cong(Pow(x, 256), -1, q)
    ensures Cong(Eval(NegaMul(a, b), x), Eval(a, x) * Eval(b, x), q)
  {
    hide *;
    EvalPartial(a, b, 256, x, q);
    assert a[..256] == a;
    assert NegaMul(a, b) == Partial(a, b, 256) by { NegaMulIsPartial(a, b); }
  }

  lemma NegaMulIsPartial(a: Poly, b: Poly)
    ensures NegaMul(a, b) == Partial(a, b, 256)
  {
  }
}
