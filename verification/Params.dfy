/** The two NTT primes and their constants, and what the twiddle tables hold.

    `second` plays the part of the source's `SECOND` const generic: false selects 7681 and true
    selects 10753. */
module Params {
  import opened Bits
  import opened Words
  import opened Congruence
  import opened Tables
  import TableFacts

  const R := 0x1_0000
  const CRT_Q := 82593793
  const CRT_Q_HALF := 41296896
  const CRT_Q1_INV_MONT: i16 := 3563

  /** The modulus. */
  function Q(second: bool): i16 {
    if second then 10753 else 7681
  }

  /** The inverse of the modulus mod 2^16. */
  function QInv(second: bool): i16 {
    if second then -10751 else -7679
  }

  /** The Barrett multiplier, 2^27 / q rounded to nearest. */
  function BarrettM(second: bool): i16 {
    if second then 12482 else 17474
  }

  /** The inverse transform's final factor, 2^32 / 256 mod q. */
  function InvNttScale(second: bool): i16 {
    if second then 2536 else 1912
  }

  /** The primitive 512th root of unity the table is built from. */
  function Psi(second: bool): int {
    if second then 10 else 62
  }

  /** The largest centred residue. */
  function HalfQ(second: bool): int {
    if second then 5376 else 3840
  }

  /** An inverse of 2^16 modulo the prime. */
  function RInv(second: bool): int {
    if second then 1764 else 900
  }

  /** A multiplier's q^-1-scaled twin, which gives the Montgomery quotient in one step. */
  function Twin(second: bool, z: i16): i16 {
    Wrap16(z * QInv(second))
  }

  /** `ZETAS_*_QINV[k]`. */
  function ZetaQ(second: bool, k: nat): i16
    requires k < 256
  {
    Twin(second, Zeta(second, k))
  }

  /** The plain twiddle: table entry `k` with its Montgomery factor 2^16 divided out. */
  ghost function Root(second: bool, k: nat): int
    requires k < 256
  {
    Zeta(second, k) * RInv(second)
  }

  lemma Constants(second: bool)
    ensures Cong(QInv(second) * Q(second), 1, R)
    ensures Cong(R * RInv(second), 1, Q(second))
    ensures Cong(RInv(second) * (256 * (InvNttScale(second) * RInv(second))), 1, Q(second))
    ensures 2 * HalfQ(second) + 1 == Q(second)
    ensures CRT_Q == Q(false) * Q(true) && CRT_Q == 2 * CRT_Q_HALF + 1
  {
    FromMod(QInv(second) * Q(second), 1, R);
    FromMod(R * RInv(second), 1, Q(second));
    FromMod(RInv(second) * (256 * (InvNttScale(second) * RInv(second))), 1, Q(second));
  }

  // -------------------------------------------------------------------------------------------
  // The tables hold bit-reversed powers of psi
  // -------------------------------------------------------------------------------------------

  function Pow(x: int, n: nat): int {
    if n == 0 then 1 else x * Pow(x, n - 1)
  }

  lemma {:induction false} PowAdd(x: int, m: nat, n: nat)
    ensures Pow(x, m + n) == Pow(x, m) * Pow(x, n)
  {
    if m > 0 {
      PowAdd(x, m - 1, n);
      assert x * (Pow(x, m - 1) * Pow(x, n)) == x * Pow(x, m - 1) * Pow(x, n);
    }
  }

  lemma {:induction false} PowCong(x: int, y: int, n: nat, q: int)
    requires Cong(x, y, q)
    ensures Cong(Pow(x, n), Pow(y, n), q)
  {
    if n == 0 {
      Refl(1, q);
    } else {
      PowCong(x, y, n - 1, q);
      Mul(x, y, Pow(x, n - 1), Pow(y, n - 1), q);
    }
  }

  /** The low `w` bits of `k`, reversed. */
  function Brv(w: nat, k: nat): nat {
    if w == 0 then 0 else k % 2 * Pow2(w - 1) + Brv(w - 1, k / 2)
  }

  /** `u8::reverse_bits`. */
  function Brv8(k: nat): nat {
    Brv(8, k)
  }

  predicate IsPowerBelow256(n: nat) {
    n == 1 || n == 2 || n == 4 || n == 8 || n == 16 || n == 32 || n == 64 || n == 128
  }

  lemma StepsQ1(n: nat, m: nat)
    requires IsPowerBelow256(n) && 0 < m < n
    ensures TableFacts.StepQ1(n, ZetasQ1(n), m)
  {
    hide TableFacts.StepQ1, Tables.ZetasQ1;
    TableFacts.Q1Powers();
    if n < 16 { TableFacts.Q1First(); }
    else if n == 16 {
      TableFacts.Q1_16_0();
    }
    else if n == 32 {
      TableFacts.Q1_32_0(); TableFacts.Q1_32_16();
    }
    else if n == 64 {
      TableFacts.Q1_64_0(); TableFacts.Q1_64_16(); TableFacts.Q1_64_32(); TableFacts.Q1_64_48();
    }
    else {
      TableFacts.Q1_128_0(); TableFacts.Q1_128_16(); TableFacts.Q1_128_32(); TableFacts.Q1_128_48();
      TableFacts.Q1_128_64(); TableFacts.Q1_128_80(); TableFacts.Q1_128_96(); TableFacts.Q1_128_112();
    }
  }

  lemma StepsQ2(n: nat, m: nat)
    requires IsPowerBelow256(n) && 0 < m < n
    ensures TableFacts.StepQ2(n, ZetasQ2(n), m)
  {
    hide TableFacts.StepQ2, Tables.ZetasQ2;
    TableFacts.Q2Powers();
    if n < 16 { TableFacts.Q2First(); }
    else if n == 16 {
      TableFacts.Q2_16_0();
    }
    else if n == 32 {
      TableFacts.Q2_32_0(); TableFacts.Q2_32_16();
    }
    else if n == 64 {
      TableFacts.Q2_64_0(); TableFacts.Q2_64_16(); TableFacts.Q2_64_32(); TableFacts.Q2_64_48();
    }
    else {
      TableFacts.Q2_128_0(); TableFacts.Q2_128_16(); TableFacts.Q2_128_32(); TableFacts.Q2_128_48();
      TableFacts.Q2_128_64(); TableFacts.Q2_128_80(); TableFacts.Q2_128_96(); TableFacts.Q2_128_112();
    }
  }

  /** Entry `n + m` is centred and is the Montgomery product of entries `n` and `m`. */
  lemma EntryStep(second: bool, n: nat, m: nat)
    requires IsPowerBelow256(n) && 0 < m < n
    ensures -HalfQ(second) <= Zeta(second, n + m) <= HalfQ(second)
    ensures Cong(Zeta(second, n + m) * R, Zeta(second, n) * Zeta(second, m), Q(second))
  {
    hide Tables.ZetasQ1, Tables.ZetasQ2;
    if second {
      StepsQ2(n, m);
      FromZero(ZetasQ2(n + m) * R, ZetasQ2(n) * ZetasQ2(m), 10753);
    } else {
      StepsQ1(n, m);
      FromZero(ZetasQ1(n + m) * R, ZetasQ1(n) * ZetasQ1(m), 7681);
    }
  }

  lemma FromZero(a: int, b: int, q: int)
    requires q > 0 && (a - b) % q == 0
    ensures Cong(a, b, q)
  {
    assert a - b == Times((a - b) / q, q);
  }

  /** Dividing the Montgomery factors out of a product of entries. */
  lemma RootStep(second: bool, k: nat, n: nat, m: nat)
    requires k < 256 && n < 256 && m < 256
    requires Cong(Zeta(second, k) * R, Zeta(second, n) * Zeta(second, m), Q(second))
    ensures Cong(Root(second, k), Root(second, n) * Root(second, m), Q(second))
  {
    hide Tables.Zeta;
    hide Q, RInv;
    var q, r := Q(second), RInv(second);
    var z, x, y := Zeta(second, k), Zeta(second, n), Zeta(second, m);
    Constants(second);
    Scale(z * R, x * y, r * r, q);
    assert r * r * (z * R) == z * r * (R * r);
    assert r * r * (x * y) == x * r * (y * r);
    Scale(R * r, 1, z * r, q);
    Sym(z * r * (R * r), z * r * 1, q);
    assert z * r * 1 == z * r;
    Trans(z * r, z * r * (R * r), x * r * (y * r), q);
  }

  /** Entry `n` for a power of two `n`: the table's generators. */
  lemma PowerEntry(second: bool, n: nat)
    requires IsPowerBelow256(n)
    ensures -HalfQ(second) <= Zeta(second, n) <= HalfQ(second)
    ensures n < 128 ==> Cong(Zeta(second, n) * R, Zeta(second, 2 * n) * Zeta(second, 2 * n), Q(second))
    ensures n == 128 ==> Cong(Root(second, n), Psi(second), Q(second))
    ensures n == 1 ==> Cong(Zeta(second, n) * Zeta(second, n), -(R * R), Q(second))
  {
    PowerRange(second, n);
    if n < 128 { PowerSquare(second, n); } else { LastPower(second); }
    if n == 1 { FirstPower(second); }
    hide *;
  }

  lemma PowerRange(second: bool, n: nat)
    requires IsPowerBelow256(n)
    ensures -HalfQ(second) <= Zeta(second, n) <= HalfQ(second)
  {
    hide Tables.ZetasQ1, Tables.ZetasQ2;
    TableFacts.Q1Powers();
    TableFacts.Q2Powers();
  }

  lemma PowerSquare(second: bool, n: nat)
    requires IsPowerBelow256(n) && n < 128
    ensures Cong(Zeta(second, n) * R, Zeta(second, 2 * n) * Zeta(second, 2 * n), Q(second))
  {
    hide Tables.ZetasQ1, Tables.ZetasQ2, Cong;
    if second {
      TableFacts.Q2Powers();
      SquareQ2(n, Zeta(true, n), Zeta(true, 2 * n));
    } else {
      TableFacts.Q1Powers();
      SquareQ1(n, Zeta(false, n), Zeta(false, 2 * n));
    }
  }

  lemma SquareQ1(n: nat, x: int, y: int)
    requires n == 1 ==> x == 3777 && y == -3182
    requires n == 2 ==> x == -3182 && y == -3696
    requires n == 4 ==> x == -3696 && y == 121
    requires n == 8 ==> x == 121 && y == 2816
    requires n == 16 ==> x == 2816 && y == -3689
    requires n == 32 ==> x == -3689 && y == -1054
    requires n == 64 ==> x == -1054 && y == -17
    requires n == 1 || n == 2 || n == 4 || n == 8 || n == 16 || n == 32 || n == 64
    ensures Cong(x * R, y * y, 7681)
  {
    hide Cong;
    FromZero(x * R, y * y, 7681);
  }

  lemma SquareQ2(n: nat, x: int, y: int)
    requires n == 1 ==> x == 223 && y == 4188
    requires n == 2 ==> x == 4188 && y == 2413
    requires n == 4 ==> x == 2413 && y == 2695
    requires n == 8 ==> x == 2695 && y == 4875
    requires n == 16 ==> x == 4875 && y == -3091
    requires n == 32 ==> x == -3091 && y == 5023
    requires n == 64 ==> x == 5023 && y == -573
    requires n == 1 || n == 2 || n == 4 || n == 8 || n == 16 || n == 32 || n == 64
    ensures Cong(x * R, y * y, 10753)
  {
    hide Cong;
    FromZero(x * R, y * y, 10753);
  }

  lemma LastPower(second: bool)
    ensures Cong(Root(second, 128), Psi(second), Q(second))
  {
    hide Tables.ZetasQ1, Tables.ZetasQ2, Cong;
    TableFacts.Q1Powers();
    TableFacts.Q2Powers();
    FromZero(Root(second, 128), Psi(second), Q(second));
  }

  lemma FirstPower(second: bool)
    ensures Cong(Zeta(second, 1) * Zeta(second, 1), -(R * R), Q(second))
  {
    hide Tables.ZetasQ1, Tables.ZetasQ2, Cong;
    TableFacts.Q1Powers();
    TableFacts.Q2Powers();
    FromZero(Zeta(second, 1) * Zeta(second, 1), -(R * R), Q(second));
  }

  lemma Centred(second: bool, k: nat)
    requires k < 256
    ensures -HalfQ(second) <= Zeta(second, k) <= HalfQ(second)
  {
    hide Tables.ZetasQ1, Tables.ZetasQ2;
    if k == 0 {
      TableFacts.Q1Powers();
      TableFacts.Q2Powers();
    } else {
      var n := TopBit(k);
      if k == n { PowerEntry(second, n); } else { EntryStep(second, n, k - n); }
    }
  }

  /** The largest power of two not above `k`. */
  ghost function TopBit(k: nat): (n: nat)
    requires 0 < k < 256
    ensures IsPowerBelow256(n) && n <= k < 2 * n
  {
    if k < 2 then 1 else if k < 4 then 2 else if k < 8 then 4 else if k < 16 then 8
    else if k < 32 then 16 else if k < 64 then 32 else if k < 128 then 64 else 128
  }

  lemma {:induction false} BrvOfZero(w: nat)
    ensures Brv(w, 0) == 0
  {
    if w > 0 { BrvOfZero(w - 1); }
  }

  lemma {:induction false} BrvOfPower(w: nat, n: nat)
    requires IsPowerBelow256(n) && n < Pow2(w)
    ensures w > 0 && Brv(w, n) * n == Pow2(w - 1)
  {
    if n == 1 { BrvOfZero(w - 1); } else { BrvOfPower(w - 1, n / 2); }
  }

  lemma EvenSum(h: nat, m: nat)
    ensures (2 * h + m) / 2 == h + m / 2 && (2 * h + m) % 2 == m % 2
  {
  }

  /** Reversing adds over a leading bit and the bits below it. */
  lemma {:induction false} BrvStep(w: nat, n: nat, m: nat)
    requires IsPowerBelow256(n) && m < n
    ensures Brv(w, n + m) == Brv(w, n) + Brv(w, m)
  {
    if w > 0 {
      BrvUnfold(w, n + m);
      BrvUnfold(w, n);
      BrvUnfold(w, m);
    }
    if n == 1 {
      BrvOfZero(w);
    } else if w > 0 {
      hide Brv, Pow2;
      EvenSum(n / 2, m);
      BrvStep(w - 1, n / 2, m / 2);
    }
  }

  /** Doubling an index halves its reversal. */
  lemma {:induction false} BrvDouble(w: nat, k: nat)
    requires w > 0 && k < Pow2(w - 1)
    ensures 2 * Brv(w - 1, k) == Brv(w, k)
  {
    if w > 1 { BrvDouble(w - 1, k / 2); }
  }

  /** Indices that mirror each other within one level have reversals that sum to `2^w`. */
  lemma {:induction false} BrvMirror(w: nat, n: nat, k: nat)
    requires IsPowerBelow256(n) && n <= k < 2 * n && n < Pow2(w)
    ensures Brv(w, k) + Brv(w, 3 * n - 1 - k) == Pow2(w)
  {
    if n == 1 {
      BrvOfZero(w - 1);
    } else {
      assert Pow2(w) == 2 * Pow2(w - 1);
      hide Brv, Pow2;
      MirrorBits(n / 2, k, 3 * n - 1 - k);
      BrvMirror(w - 1, n / 2, k / 2);
      BrvUnfold(w, k);
      BrvUnfold(w, 3 * n - 1 - k);
    }
  }

  lemma MirrorBits(h: nat, k: nat, m: nat)
    requires k + m == 6 * h - 1
    ensures k % 2 + m % 2 == 1 && m / 2 == 3 * h - 1 - k / 2
  {
  }

  lemma BrvUnfold(w: nat, k: nat)
    requires w > 0
    ensures Brv(w, k) == (if k % 2 == 0 then 0 else Pow2(w - 1)) + Brv(w - 1, k / 2)
  {
    hide Pow2;
    if k % 2 == 0 { } else { }
  }

  lemma Pow2Of8()
    ensures Pow2(7) == 128 && Pow2(8) == 256
  {
  }

  lemma PowProduct(x: int, y: int, p: int, i: nat, j: nat, q: int)
    requires Cong(x, Pow(p, i), q) && Cong(y, Pow(p, j), q)
    ensures Cong(x * y, Pow(p, i + j), q)
  {
    Mul(x, Pow(p, i), y, Pow(p, j), q);
    PowAdd(p, i, j);
  }

  /** `Root(n)` for a power of two, by repeated squaring from `Root(128) = psi`. */
  lemma {:induction false} PowerRoot(second: bool, n: nat)
    requires IsPowerBelow256(n)
    ensures Cong(Root(second, n), Pow(Psi(second), Brv8(n)), Q(second))
    decreases 256 - n
  {
    hide Root, Q, Psi, Cong, Pow, Brv;
    PowerEntry(second, n);
    PowerExponent(n);
    if n == 128 {
      assert Pow(Psi(second), 1) == Psi(second) by { PowOne(Psi(second)); }
    } else {
      RootStep(second, n, 2 * n, 2 * n);
      PowerRoot(second, 2 * n);
      PowProduct(Root(second, 2 * n), Root(second, 2 * n), Psi(second), Brv8(2 * n), Brv8(2 * n), Q(second));
      Trans(Root(second, n), Root(second, 2 * n) * Root(second, 2 * n), Pow(Psi(second), Brv8(n)), Q(second));
    }
  }

  lemma PowOne(x: int)
    ensures Pow(x, 1) == x
  {
    assert Pow(x, 1) == x * Pow(x, 0);
  }

  lemma PowerExponent(n: nat)
    requires IsPowerBelow256(n)
    ensures n == 128 ==> Brv8(n) == 1
    ensures n < 128 ==> Brv8(n) == Brv8(2 * n) + Brv8(2 * n)
    ensures n == 1 ==> Brv8(n) == 128
  {
    hide Brv, Pow2;
    Pow2Of8();
    BrvOfPower(8, n);
    if n < 128 { BrvOfPower(8, 2 * n); }
  }

  /** What the source says the tables hold: entry `k` is the power of psi whose exponent is `k`
      with its bits reversed. */
  lemma {:induction false} RootIsPower(second: bool, k: nat)
    requires 0 < k < 256
    ensures Cong(Root(second, k), Pow(Psi(second), Brv8(k)), Q(second))
    decreases k
  {
    hide Root, Q, Psi, Cong, Pow, Brv, IsPowerBelow256;
    var n := TopBit(k);
    PowerRoot(second, n);
    if k > n {
      var m := k - n;
      EntryStep(second, n, m);
      RootStep(second, k, n, m);
      RootIsPower(second, m);
      PowProduct(Root(second, n), Root(second, m), Psi(second), Brv8(n), Brv8(m), Q(second));
      BrvStep(8, n, m);
      Trans(Root(second, k), Root(second, n) * Root(second, m), Pow(Psi(second), Brv8(k)), Q(second));
    }
  }

  /** psi is a 512th root of unity: its 256th power is -1. */
  lemma PsiTo256(second: bool)
    ensures Cong(Pow(Psi(second), 256), -1, Q(second))
  {
    hide Q, Psi, RInv, Cong, Pow, Brv, Tables.Zeta;
    var root := Root(second, 1);
    PowerRoot(second, 1);
    PowerExponent(1);
    PowProduct(root, root, Psi(second), 128, 128, Q(second));
    Sym(root * root, Pow(Psi(second), 256), Q(second));
    PowerEntry(second, 1);
    Constants(second);
    UnitSquare(Zeta(second, 1), RInv(second), R, Q(second));
    Trans(Pow(Psi(second), 256), root * root, -1, Q(second));
  }

  lemma UnitSquare(z: int, r: int, m: int, q: int)
    requires Cong(z * z, -(m * m), q) && Cong(m * r, 1, q)
    ensures Cong((z * r) * (z * r), -1, q)
  {
    Scale(z * z, -(m * m), r * r, q);
    assert r * r * (z * z) == (z * r) * (z * r);
    Mul(m * r, 1, m * r, 1, q);
    Scale(m * r * (m * r), 1, -1, q);
    assert r * r * -(m * m) == -1 * (m * r * (m * r));
    Trans((z * r) * (z * r), r * r * -(m * m), -1, q);
  }
}
