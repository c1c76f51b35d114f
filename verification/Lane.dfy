/** The scalar operations one `i16` lane goes through, and what they compute modulo the prime. */
module Lane {
  import opened Words
  import opened Congruence
  import opened Params

  // -------------------------------------------------------------------------------------------
  // Montgomery multiplication
  // -------------------------------------------------------------------------------------------

  /** `mont_mul`: the difference of the high halves of `a * z` and `t * q`, where `t` is the
      Montgomery quotient. */
  function MontMul(a: i16, z: i16, zq: i16, q: i16): i16 {
    var t := Wrap16(a * zq);
    var hi := Asr16(Wrap32(a * z));
    var th := Asr16(Wrap32(t * q));
    Wrap16(hi - th)
  }

  lemma AbsMul(a: int, b: int, m: int, n: int)
    requires -m <= a <= m && -n <= b <= n
    ensures -(m * n) <= a * b <= m * n
  {
    MulMono(-n, b, m);
    MulMono(b, n, m);
    if b >= 0 {
      MulMono(-m, a, b);
      MulMono(a, m, b);
    } else {
      MulMono(-m, a, -b);
      MulMono(a, m, -b);
    }
  }

  lemma Wrap16Cong(x: int)
    ensures Cong(Wrap16(x), x, R)
  {
    Witness(Wrap16(x), x, -((x + 0x8000) / 0x1_0000), R);
  }

  lemma Regroup(a: int, z: int, i: int, q: int)
    ensures q * (a * (z * i)) == a * z * (i * q)
  {
  }

  /** The Montgomery quotient makes the low halves of the two products agree. */
  lemma QuotientCong(a: int, z: int, zq: int, t: int, qinv: int, q: int, r: int)
    requires Cong(zq, z * qinv, r) && Cong(t, a * zq, r) && Cong(qinv * q, 1, r)
    ensures Cong(a * z, t * q, r)
  {
    Scale(zq, z * qinv, a, r);
    Trans(t, a * zq, a * (z * qinv), r);
    Scale(t, a * (z * qinv), q, r);
    Scale(qinv * q, 1, a * z, r);
    Regroup(a, z, qinv, q);
    Trans(q * t, a * z * (qinv * q), a * z * 1, r);
    Sym(q * t, a * z, r);
  }

  /** Subtracting high halves is exact division when the low halves agree. */
  lemma HighHalves(x: int, y: int)
    requires Cong(x, y, R)
    ensures R * (x / R - y / R) == x - y
  {
    ToMod(x, y, R);
  }

  /** The largest result of a Montgomery multiply by a centred factor. */
  function MontBound(second: bool, bound: int): int {
    (bound * HalfQ(second) + 0x8000 * Q(second)) / R
  }

  /** `mont_mul` is the exact quotient `(a * z - t * q) / 2^16` for an `i16` `t`. */
  lemma MontMulExact(a: i16, z: i16, second: bool)
    ensures exists t: i16 :: R * MontMul(a, z, Twin(second, z), Q(second)) == a * z - t * Q(second)
  {
    hide Cong;
    var q, zq := Q(second), Twin(second, z);
    var t := Wrap16(a * zq);
    Constants(second);
    Wrap16Cong(z * QInv(second));
    Wrap16Cong(a * zq);
    QuotientCong(a, z, zq, t, QInv(second), q, R);
    HighHalves(a as int * z as int, t as int * q as int);
    MontMulNoWrap(a, z, t, q);
  }

  /** Neither product leaves an `i32`, and the difference of high halves fits a lane. */
  lemma MontMulNoWrap(a: i16, z: i16, t: i16, q: i16)
    requires 0 < q <= 0x7000 && R * (a * z / R - t * q / R) == a * z - t * q
    ensures Wrap32(a * z) == a * z && Wrap32(t * q) == t * q
    ensures Wrap16(Asr16(Wrap32(a * z)) - Asr16(Wrap32(t * q))) == a * z / R - t * q / R
  {
    AbsMul(a, z, 0x8000, 0x8000);
    AbsMul(t, q, 0x8000, 0x7000);
  }

  /** What `mont_mul` computes: `a * z / 2^16` modulo the prime, no larger than the product's high
      half plus half the prime. */
  lemma MontMulCorrect(a: i16, z: i16, second: bool, m: int, n: int)
    requires -m <= a <= m && -n <= z <= n
    ensures var r := MontMul(a, z, Twin(second, z), Q(second));
            && Cong(r, a * (z * RInv(second)), Q(second))
            && -(m * n + 0x8000 * Q(second)) <= R * r <= m * n + 0x8000 * Q(second)
  {
    hide MontMul, Twin, RInv, Cong;
    var r, q := MontMul(a, z, Twin(second, z), Q(second)), Q(second);
    MontMulExact(a, z, second);
    var t: i16 :| R * r == a * z - t * q;
    AbsMul(a, z, m, n);
    AbsMul(t, q, 0x8000, q);
    Witness(r * R, a * z, 0 - t, q);
    Constants(second);
    Cancel(R, RInv(second), r, a * z, q);
    assert a * z * RInv(second) == a * (z * RInv(second));
  }

  /** The same for a centred factor, with the bound the growth budget uses. */
  lemma MontMulCentred(a: i16, z: i16, second: bool, bound: int)
    requires -bound <= a <= bound && -HalfQ(second) <= z <= HalfQ(second)
    ensures var r := MontMul(a, z, Twin(second, z), Q(second));
            && Cong(r, a * (z * RInv(second)), Q(second))
            && -MontBound(second, bound) <= r <= MontBound(second, bound)
  {
    hide MontMul, Twin, RInv, Cong;
    MontMulCorrect(a, z, second, bound, HalfQ(second));
  }

  // -------------------------------------------------------------------------------------------
  // Barrett reduction
  // -------------------------------------------------------------------------------------------

  /** `barrett`: subtract the multiple of `q` nearest to `x`, found by a multiply and a rounding
      shift by `BARRETT_SH = 11`. */
  function Barrett(x: i16, m: i16, q: i16): i16 {
    var t := Asr16(Wrap32(x * m));
    var t := Wrap16(t + 0x400) / 0x800;
    Wrap16(x - Wrap16(t * q))
  }

  /** Barrett reduction leaves the centred residue, for every `i16`. */
  lemma BarrettCorrect(x: i16, second: bool)
    ensures var r := Barrett(x, BarrettM(second), Q(second));
            Cong(r, x, Q(second)) && -HalfQ(second) <= r <= HalfQ(second)
  {
    hide Cong;
    var m, q := BarrettM(second), Q(second);
    var t := (x * m / R + 0x400) / 0x800;
    assert -HalfQ(second) <= x - t * q <= HalfQ(second);
    assert Barrett(x, m, q) == x - t * q;
    Witness(x - t * q, x, -t, q);
  }

  // -------------------------------------------------------------------------------------------
  // Montgomery reduction of an accumulator lane
  // -------------------------------------------------------------------------------------------

  /** One lane of `reduce_block`: the high half of `a` less that of the Montgomery quotient. */
  function MontReduce(a: i32, qinv: i16, q: i16): i16 {
    var t := Wrap16(Wrap16(a) * qinv);
    Wrap16(Asr16(a) - Asr16(Wrap32(t * q)))
  }

  /** The most that `MAX_L` = 4 products of centred residues can sum to. */
  function AccBound(second: bool): int {
    4 * (HalfQ(second) * HalfQ(second))
  }

  /** An accumulator of at most four products reduces to its 2^-16 multiple, within what the
      inverse transform accepts. */
  lemma MontReduceCorrect(a: i32, second: bool)
    requires -AccBound(second) <= a <= AccBound(second)
    ensures var r := MontReduce(a, QInv(second), Q(second));
            Cong(r, a * RInv(second), Q(second)) && -7141 <= r <= 7141
  {
    hide Cong, Wrap16;
    var q := Q(second);
    var t := Wrap16(Wrap16(a) * QInv(second));
    Wrap16Cong(a);
    Scale(Wrap16(a), a, QInv(second), R);
    Wrap16Cong(Wrap16(a) * QInv(second));
    Trans(t, Wrap16(a) * QInv(second), a * QInv(second), R);
    Constants(second);
    Scale(t, a * QInv(second), q, R);
    Scale(QInv(second) * q, 1, a, R);
    Trans(q * t, q * (a * QInv(second)), a * 1, R) by { assert q * (a * QInv(second)) == a * (QInv(second) * q); }
    Sym(q * t, a, R);
    HighHalves(a, t as int * q as int);
    AbsMul(t, q, 0x8000, q);
    var r := MontReduce(a, QInv(second), q);
    assert R * r == a - t * q;
    Witness(r * R, a, 0 - t, q);
    Cancel(R, RInv(second), r, a, q);
  }

  // -------------------------------------------------------------------------------------------
  // Chinese remaindering
  // -------------------------------------------------------------------------------------------

  /** A residue in (-q, q), moved to [0, q) without a branch. */
  function Canonical(r: i16, q: i16): i16 {
    Wrap16(r + AndMask(SignMask(r), q))
  }

  /** The mixed-radix digit: `(a2 - a1) / q1` modulo `q2`, in [0, q2). */
  function Digit(a1: i16, a2: i16): i16 {
    var t := MontMul(Wrap16(a2 as int - a1 as int), CRT_Q1_INV_MONT, Twin(true, CRT_Q1_INV_MONT), Q(true));
    Canonical(t, Q(true))
  }

  /** `a1 + q1 * t`, centred and truncated. */
  function Recombine(a1: i16, t: i16): u16 {
    var x := Wrap32(a1 as int + Wrap32(t as int * Q(false) as int));
    var over := Wrap32(CRT_Q_HALF - x) / 0x8000_0000;
    WrapU16(Wrap32(x - AndMask(over, CRT_Q)))
  }

  /** Garner reconstruction of one coefficient from its two residues. */
  function Garner(r1: i16, r2: i16): u16 {
    var a1, a2 := Canonical(r1, Q(false)), Canonical(r2, Q(true));
    Recombine(a1, Digit(a1, a2))
  }

  lemma CanonicalCorrect(r: i16, x: int, second: bool)
    requires Cong(r, x, Q(second)) && -Q(second) < r < Q(second)
    ensures 0 <= Canonical(r, Q(second)) < Q(second) && Cong(Canonical(r, Q(second)), x, Q(second))
  {
    hide Cong;
    var q := Q(second);
    if r < 0 {
      Witness(r + q, r, 1, q);
      Trans(r + q, r, x, q);
    }
  }

  /** The mixed-radix digit: `q1 * t` is the difference of the residues, modulo `q2`. */
  lemma GarnerDigit(d: i16)
    requires -Q(false) < d < Q(true)
    ensures var t := Canonical(MontMul(d, CRT_Q1_INV_MONT, Twin(true, CRT_Q1_INV_MONT), Q(true)), Q(true));
            0 <= t < Q(true) && Cong(Q(false) * t, d, Q(true))
  {
    hide Cong, MontMul, Twin, Canonical;
    var q, f := Q(true), CRT_Q1_INV_MONT * RInv(true);
    var r := MontMul(d, CRT_Q1_INV_MONT, Twin(true, CRT_Q1_INV_MONT), Q(true));
    MontMulCorrect(d, CRT_Q1_INV_MONT, true, Q(true), CRT_Q1_INV_MONT);
    CanonicalCorrect(r, d * f, true);
    var t := Canonical(r, Q(true));
    Scale(t, d * f, Q(false), q);
    FromMod(Q(false) * f, 1, q);
    Scale(Q(false) * f, 1, d, q);
    assert Q(false) * (d * f) == d * (Q(false) * f);
    Trans(Q(false) * t, d * (Q(false) * f), d, q);
  }

  /** The two primes are coprime, so their congruences combine. */
  lemma Combine(a: int, b: int)
    requires Cong(a, b, 7681) && Cong(a, b, 10753)
    ensures Cong(a, b, CRT_Q)
  {
    var k :| a - b == Times(k, 7681);
    var l :| a - b == Times(l, 10753);
    assert a - b == Times(3838 * k - 5373 * l, CRT_Q) by { CombineWitness(a - b, k, l); }
  }

  lemma CombineWitness(d: int, k: int, l: int)
    requires d == 7681 * k && d == 10753 * l
    ensures d == (3838 * k - 5373 * l) * CRT_Q
  {
  }

  /** Garner's steps rebuild every integer of the centred range from any representatives of its
      residues, and nothing on the way overflows. */
  lemma GarnerCorrect(r1: i16, r2: i16, x: int)
    requires Cong(r1, x, Q(false)) && -Q(false) < r1 < Q(false)
    requires Cong(r2, x, Q(true)) && -Q(true) < r2 < Q(true)
    requires -CRT_Q_HALF <= x <= CRT_Q_HALF
    ensures Garner(r1, r2) == WrapU16(x)
  {
    hide Cong, MontMul, Twin, Canonical, WrapU16;
    var a1, a2 := Canonical(r1, Q(false)), Canonical(r2, Q(true));
    CanonicalCorrect(r1, x, false);
    CanonicalCorrect(r2, x, true);
    var d := a2 as int - a1 as int;
    GarnerDigit(d);
    var t := Canonical(MontMul(d, CRT_Q1_INV_MONT, Twin(true, CRT_Q1_INV_MONT), Q(true)), Q(true));
    var y := a1 + t * Q(false);
    GarnerCong(a1, a2, t, x);
    Combine(y, x);
    Centre(y, x);
  }

  lemma GarnerCong(a1: int, a2: int, t: int, x: int)
    requires Cong(a1, x, Q(false)) && Cong(a2, x, Q(true)) && Cong(Q(false) * t, a2 - a1, Q(true))
    ensures Cong(a1 + t * Q(false), x, 7681) && Cong(a1 + t * Q(false), x, 10753)
  {
    hide Cong;
    var y := a1 + t * Q(false);
    Witness(y, a1, t, 7681);
    Trans(y, a1, x, 7681);
    Refl(a1, 10753);
    Add(a1, a1, Q(false) * t, a2 - a1, 10753);
    Trans(y, a2, x, 10753);
  }

  lemma Centre(y: int, x: int)
    requires Cong(y, x, CRT_Q) && 0 <= y < CRT_Q && -CRT_Q_HALF <= x <= CRT_Q_HALF
    ensures x == if y > CRT_Q_HALF then y - CRT_Q else y
  {
    var k :| y - x == Times(k, CRT_Q);
    assert k == 0 || k == 1;
  }

  /** `Recombine` on one widened lane, as both vector backends do it: a comparison mask selects what
      to subtract. */
  function CombineLane(a1: i32, t: i32): u16 {
    var x := Wrap32(a1 as int + Wrap32(t as int * Q(false) as int));
    var over := if x > CRT_Q_HALF then -1 else 0;
    WrapU16(Wrap32(x - AndMask(over, CRT_Q)))
  }

  lemma CombineLaneIsRecombine(a1: i16, t: i16)
    requires 0 <= a1 < Q(false) && 0 <= t < Q(true)
    ensures CombineLane(a1, t) == Recombine(a1, t)
  {
  }

  lemma DigitRange(a1: i16, a2: i16)
    requires 0 <= a1 < Q(false) && 0 <= a2 < Q(true)
    ensures 0 <= Digit(a1, a2) < Q(true)
  {
    hide MontMul, Canonical, Twin;
    GarnerDigit(Wrap16(a2 as int - a1 as int));
  }

  lemma CanonicalRange(r: i16, second: bool)
    requires -Q(second) < r < Q(second)
    ensures 0 <= Canonical(r, Q(second)) < Q(second)
  {
  }
}
