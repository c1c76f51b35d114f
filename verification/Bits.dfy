/** Bitwise operations on unsigned words, as functions on natural numbers, and the arithmetic they
    amount to where the source uses them. */
module Bits {
  import opened Congruence

  function Pow2(w: nat): (p: nat)
    ensures p > 0
  {
    if w == 0 then 1 else 2 * Pow2(w - 1)
  }

  lemma {:induction false} Pow2Add(v: nat, w: nat)
    ensures Pow2(v + w) == Pow2(v) * Pow2(w)
  {
    if v > 0 {
      Pow2Add(v - 1, w);
      Assoc(2, Pow2(v - 1), Pow2(w));
    }
  }

  lemma Assoc(a: int, b: int, c: int)
    ensures a * b * c == a * (b * c)
  {
  }

  lemma {:induction false} Pow2Mono(v: nat, w: nat)
    requires v <= w
    ensures Pow2(v) <= Pow2(w)
  {
    if v < w { Pow2Mono(v, w - 1); }
  }

  lemma Pow2Values()
    ensures Pow2(0) == 1 && Pow2(1) == 2 && Pow2(2) == 4 && Pow2(3) == 8 && Pow2(4) == 16 && Pow2(5) == 32
    ensures Pow2(6) == 64 && Pow2(7) == 128 && Pow2(8) == 256 && Pow2(9) == 512 && Pow2(10) == 1024
    ensures Pow2(11) == 2048 && Pow2(12) == 4096 && Pow2(13) == 8192 && Pow2(16) == 0x1_0000
    ensures Pow2(21) == 0x20_0000
  {
    assert Pow2(10) == 1024;
    assert Pow2(14) == 0x4000;
    assert Pow2(18) == 0x4_0000;
  }

  /** `x | y`. */
  function BitOr(x: nat, y: nat): nat
    decreases x + y
  {
    if x == 0 && y == 0 then 0
    else (if x % 2 == 1 || y % 2 == 1 then 1 else 0) + 2 * BitOr(x / 2, y / 2)
  }

  /** `x & y`. */
  function BitAnd(x: nat, y: nat): nat
    decreases x + y
  {
    if x == 0 && y == 0 then 0
    else (if x % 2 == 1 && y % 2 == 1 then 1 else 0) + 2 * BitAnd(x / 2, y / 2)
  }

  lemma {:induction false} OrZero(y: nat)
    ensures BitOr(0, y) == y
  {
    if y > 0 { OrZero(y / 2); }
  }

  /** `|` of words that share no bit position is addition. */
  lemma {:induction false} OrIsAdd(x: nat, y: nat, k: nat)
    requires x < Pow2(k)
    ensures BitOr(x, Pow2(k) * y) == x + Pow2(k) * y
  {
    if k == 0 {
      OrZero(y);
    } else {
      OrIsAdd(x / 2, y, k - 1);
      EvenHalf(Pow2(k - 1), y, Pow2(k) * y);
    }
  }

  lemma EvenHalf(p: int, y: int, z: int)
    requires z == 2 * p * y
    ensures z % 2 == 0 && z / 2 == p * y
  {
    assert z == 2 * (p * y);
  }

  /** `&` with a mask of `k` ones keeps the remainder modulo `2^k`. */
  lemma {:induction false} AndIsMod(x: nat, k: nat)
    ensures BitAnd(x, Pow2(k) - 1) == x % Pow2(k)
  {
    if k == 0 {
      AndZero(x);
    } else {
      AndIsMod(x / 2, k - 1);
      ModHalf(x, Pow2(k - 1));
      if x == 0 { AndZero(Pow2(k) - 1); AndComm(0, Pow2(k) - 1); }
    }
  }

  lemma {:induction false} AndZero(x: nat)
    ensures BitAnd(x, 0) == 0
  {
    if x > 0 { AndZero(x / 2); }
  }

  lemma {:induction false} AndComm(x: nat, y: nat)
    ensures BitAnd(x, y) == BitAnd(y, x)
    decreases x + y
  {
    if x + y > 0 { AndComm(x / 2, y / 2); }
  }

  lemma ModHalf(x: nat, p: nat)
    requires p > 0
    ensures x % (2 * p) == x % 2 + 2 * (x / 2 % p)
  {
    var h := x / 2;
    var t, o := h / p, h % p;
    assert h == p * t + o;
    DivUnique(x, 2 * p, t, x % 2 + 2 * o);
  }

  lemma {:induction false} OrComm(x: nat, y: nat)
    ensures BitOr(x, y) == BitOr(y, x)
    decreases x + y
  {
    if x + y > 0 { OrComm(x / 2, y / 2); }
  }
}
