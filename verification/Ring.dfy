/** The ring laws of Z[X]/(X^256 + 1) that the scheme's noise identity rests on: multiplication is
    linear, commutative, and commutes with itself. */
module Ring {
  import opened Congruence
  import opened Levels
  import opened Polynomial

  /** `u + c * v`. */
  function Plus(u: Poly, c: int, v: Poly): (w: Poly) {
    seq(256, k requires 0 <= k < 256 => u[k] + c * v[k])
  }

  lemma {:induction false} SumLinear(y: Poly, u: Poly, c: int, v: Poly, k: nat, n: nat)
    requires k < 256 && n <= 256
    ensures NegaSum(y, Plus(u, c, v), k, n) == NegaSum(y, u, k, n) + c * NegaSum(y, v, k, n)
  {
    if n > 0 {
      SumLinear(y, u, c, v, k, n - 1);
      var i := n - 1;
      var j := if i <= k then k - i else 256 + k - i;
      Distribute(y[i], u[j], c, v[j]);
      Distribute(1, NegaSum(y, v, k, i), c, NegaTerm(y, v, k, i));
      Collect(c, NegaSum(y, v, k, i), NegaTerm(y, v, k, i));
    }
  }

  lemma Distribute(y: int, u: int, c: int, v: int)
    ensures y * (u + c * v) == y * u + c * (y * v)
  {
  }

  lemma Collect(c: int, a: int, b: int)
    ensures c * (a + b) == c * a + c * b
  {
  }

  lemma MulLinear(y: Poly, u: Poly, c: int, v: Poly)
    ensures NegaMul(y, Plus(u, c, v)) == Plus(NegaMul(y, u), c, NegaMul(y, v))
  {
    forall k | 0 <= k < 256
      ensures NegaMul(y, Plus(u, c, v))[k] == Plus(NegaMul(y, u), c, NegaMul(y, v))[k]
    {
      SumLinear(y, u, c, v, k, 256);
    }
  }

  /** Multiplication by X. */
  function Turn(b: Poly): (c: Poly) {
    Rotate(b, 1)
  }

  lemma TurnOfRotate(b: Poly, n: nat)
    requires n + 1 < 256
    ensures Rotate(b, n + 1) == Turn(Rotate(b, n))
  {
  }

  lemma RotateZero(b: Poly)
    ensures Rotate(b, 0) == b
  {
  }

  lemma TermOfTurn(y: Poly, x: Poly, k: nat, i: nat)
    requires k < 256 && i < 256
    ensures NegaTerm(y, Turn(x), k, i) == if k > 0 then NegaTerm(y, x, k - 1, i) else -NegaTerm(y, x, 255, i)
  {
    Negated(y[i], x[255]);
  }

  lemma Negated(a: int, b: int)
    ensures a * -b == -(a * b)
  {
  }

  lemma {:induction false} SumOfTurn(y: Poly, x: Poly, k: nat, n: nat)
    requires k < 256 && n <= 256
    ensures NegaSum(y, Turn(x), k, n) == if k > 0 then NegaSum(y, x, k - 1, n) else -NegaSum(y, x, 255, n)
  {
    if n > 0 {
      SumOfTurn(y, x, k, n - 1);
      TermOfTurn(y, x, k, n - 1);
    }
  }

  lemma MulOfTurn(y: Poly, x: Poly)
    ensures NegaMul(y, Turn(x)) == Turn(NegaMul(y, x))
  {
    hide NegaSum;
    forall k | 0 <= k < 256
      ensures NegaMul(y, Turn(x))[k] == Turn(NegaMul(y, x))[k]
    {
      SumOfTurn(y, x, k, 256);
    }
  }

  lemma {:induction false} MulOfRotate(y: Poly, x: Poly, n: nat)
    requires n < 256
    ensures NegaMul(y, Rotate(x, n)) == Rotate(NegaMul(y, x), n)
  {
    hide Rotate, NegaMul, Turn;
    if n == 0 {
      RotateZero(x);
      RotateZero(NegaMul(y, x));
    } else {
      TurnOfRotate(x, n - 1);
      MulOfTurn(y, Rotate(x, n - 1));
      MulOfRotate(y, x, n - 1);
      TurnOfRotate(NegaMul(y, x), n - 1);
    }
  }

  /** One more term of a product. */
  lemma PartialStep(z: Poly, x: Poly, n: nat)
    requires 0 < n <= 256
    ensures Partial(z, x, n) == Plus(Partial(z, x, n - 1), z[n - 1], Rotate(x, n - 1))
  {
  }

  lemma PartialNone(z: Poly, x: Poly)
    ensures Partial(z, x, 0) == seq(256, _ => 0)
  {
  }

  lemma {:induction false} SumOfZero(y: Poly, k: nat, n: nat, zero: Poly)
    requires k < 256 && n <= 256 && zero == seq(256, _ => 0)
    ensures NegaSum(y, zero, k, n) == 0
  {
    if n > 0 { SumOfZero(y, k, n - 1, zero); }
  }

  lemma MulOfZero(y: Poly, zero: Poly)
    requires zero == seq(256, _ => 0)
    ensures NegaMul(y, zero) == zero
  {
    forall k | 0 <= k < 256 ensures NegaMul(y, zero)[k] == 0 { SumOfZero(y, k, 256, zero); }
  }

  /** Multiplication by `y` goes through the terms of a product with `z`. */
  lemma {:induction false} MulOfPartial(y: Poly, z: Poly, x: Poly, n: nat)
    requires n <= 256
    ensures NegaMul(y, Partial(z, x, n)) == Partial(z, NegaMul(y, x), n)
  {
    hide NegaMul, Partial, Rotate, Plus;
    if n == 0 {
      PartialNone(z, x);
      PartialNone(z, NegaMul(y, x));
      MulOfZero(y, Partial(z, x, 0));
    } else {
      PartialStep(z, x, n);
      MulLinear(y, Partial(z, x, n - 1), z[n - 1], Rotate(x, n - 1));
      MulOfPartial(y, z, x, n - 1);
      MulOfRotate(y, x, n - 1);
      PartialStep(z, NegaMul(y, x), n);
    }
  }

  /** `y * (z * x) == z * (y * x)`. */
  lemma MulSwap(y: Poly, z: Poly, x: Poly)
    ensures NegaMul(y, NegaMul(z, x)) == NegaMul(z, NegaMul(y, x))
  {
    hide NegaSum, Partial;
    MulOfPartial(y, z, x, 256);
  }

  function One(): (p: Poly) {
    seq(256, k => if k == 0 then 1 else 0)
  }

  lemma {:induction false} SumOfOne(y: Poly, k: nat, n: nat)
    requires k < 256 && n <= 256
    ensures NegaSum(y, One(), k, n) == if k < n then y[k] else 0
  {
    if n > 0 { SumOfOne(y, k, n - 1); }
  }

  lemma MulOfOne(y: Poly)
    ensures NegaMul(y, One()) == y
  {
    forall k | 0 <= k < 256 ensures NegaMul(y, One())[k] == y[k] { SumOfOne(y, k, 256); }
  }

  /** Multiplication is commutative. */
  lemma MulComm(y: Poly, z: Poly)
    ensures NegaMul(y, z) == NegaMul(z, y)
  {
    hide NegaMul, One;
    MulOfOne(y);
    MulOfOne(z);
    MulSwap(y, z, One());
  }

  /** `(a * b) * c == (a * c) * b`. */
  lemma MulExchange(a: Poly, b: Poly, c: Poly)
    ensures NegaMul(NegaMul(a, b), c) == NegaMul(NegaMul(a, c), b)
  {
    hide NegaMul;
    MulComm(NegaMul(a, b), c);
    MulComm(NegaMul(a, c), b);
    MulSwap(c, a, b);
    MulSwap(b, a, c);
    MulComm(b, c);
  }

  /** Linearity on the other side. */
  lemma MulLinearLeft(u: Poly, c: int, v: Poly, y: Poly)
    ensures NegaMul(Plus(u, c, v), y) == Plus(NegaMul(u, y), c, NegaMul(v, y))
  {
    hide NegaMul, Plus;
    MulComm(Plus(u, c, v), y);
    MulLinear(y, u, c, v);
    MulComm(u, y);
    MulComm(v, y);
  }
}
