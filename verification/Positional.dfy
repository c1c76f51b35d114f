/** Positional notation: a number's digits in a base, least significant first.  Packing and unpacking
    are both changes of base of one number. */
module Positional {
  import opened Congruence
  import opened Bits

  /** The number the digits `ds` stand for. */
  function Num(b: nat, ds: seq<nat>): nat {
    if |ds| == 0 then 0 else ds[0] + b * Num(b, ds[1..])
  }

  /** The lowest `n` digits of `x`. */
  function Digits(b: nat, n: nat, x: nat): (ds: seq<nat>)
    requires b > 0
    ensures |ds| == n
    ensures forall i :: 0 <= i < n ==> ds[i] < b
  {
    if n == 0 then [] else [x % b] + Digits(b, n - 1, x / b)
  }

  function Power(b: nat, n: nat): nat {
    if n == 0 then 1 else b * Power(b, n - 1)
  }

  lemma {:induction false} PowerIsPow2(k: nat, n: nat)
    ensures Power(Pow2(k), n) == Pow2(k * n)
  {
    if n > 0 {
      PowerIsPow2(k, n - 1);
      assert k + k * (n - 1) == k * n;
      Pow2Add(k, k * (n - 1));
    }
  }

  lemma {:induction false} NumBound(b: nat, ds: seq<nat>)
    requires forall i :: 0 <= i < |ds| ==> ds[i] < b
    ensures Num(b, ds) < Power(b, |ds|)
  {
    if |ds| > 0 {
      NumBound(b, ds[1..]);
      Below(b, ds[0], Num(b, ds[1..]), Power(b, |ds| - 1));
    }
  }

  lemma Below(b: nat, d: int, x: int, p: int)
    requires d < b && x < p
    ensures d + b * x < b * p
  {
    MulMono(x + 1, p, b);
  }

  /** Digits of a number small enough to have no more stand for that number. */
  lemma {:induction false} NumOfDigits(b: nat, n: nat, x: nat)
    requires b > 0 && x < Power(b, n)
    ensures Num(b, Digits(b, n, x)) == x
  {
    if n > 0 {
      QuotientBelow(b, x, Power(b, n - 1));
      NumOfDigits(b, n - 1, x / b);
      var ds := Digits(b, n, x);
      assert ds[1..] == Digits(b, n - 1, x / b);
      Divide(x, b);
    }
  }

  lemma Divide(x: nat, b: nat)
    requires b > 0
    ensures x % b + b * (x / b) == x
  {
  }

  lemma ModBound(x: nat, p: nat)
    requires p > 0
    ensures 0 <= x % p < p && x / p >= 0
  {
  }

  lemma QuotientBelow(b: nat, x: nat, p: nat)
    requires b > 0 && x < b * p
    ensures x / b < p
  {
    if x / b >= p {
      MulMono(p, x / b, b);
      Divide(x, b);
    }
  }

  /** Digits recover any sequence of digits. */
  lemma {:induction false} DigitsOfNum(b: nat, ds: seq<nat>)
    requires b > 0 && forall i :: 0 <= i < |ds| ==> ds[i] < b
    ensures Digits(b, |ds|, Num(b, ds)) == ds
  {
    if |ds| > 0 {
      DivUnique(Num(b, ds), b, Num(b, ds[1..]), ds[0]);
      DigitsOfNum(b, ds[1..]);
      assert ds == [ds[0]] + ds[1..];
    }
  }

  /** The least multiple of `k` that is not below `n`. */
  lemma RoundsUp(n: nat, k: nat)
    requires k > 0
    ensures (n + (k - n % k) % k) % k == 0
  {
    var q, r := n / k, n % k;
    Divide(n, k);
    ModBound(n, k);
    if r == 0 {
      DivUnique(k, k, 1, 0);
    } else {
      DivUnique(k - r, k, 0, k - r);
      assert n + (k - r) == k * q + k == (q + 1) * k;
      DivUnique(n + (k - r), k, q + 1, 0);
    }
  }
}
