/** NEON registers as sequences of lanes, the instructions the transform uses as functions on them,
    and the backend's lane arithmetic. */
module NeonLanes {
  import opened Words
  import opened Congruence
  import opened Params
  import opened Lane
  import opened Levels

  /** A 128-bit register as eight `i16` lanes. */
  type V8 = v: seq<i16> | |v| == 8 witness seq(8, _ => 0)

  /** A 128-bit register as four `i32` lanes. */
  type W4 = w: seq<i32> | |w| == 4 witness seq(4, _ => 0)

  function Dup16(a: i16): V8 { seq(8, _ => a) }

  function Add16(a: V8, b: V8): V8 {
    seq(8, i requires 0 <= i < 8 => Wrap16(a[i] as int + b[i] as int))
  }

  function Sub16(a: V8, b: V8): V8 {
    seq(8, i requires 0 <= i < 8 => Wrap16(a[i] as int - b[i] as int))
  }

  /** The low half of each product. */
  function Mul16(a: V8, b: V8): V8 {
    seq(8, i requires 0 <= i < 8 => Wrap16(a[i] as int * b[i] as int))
  }

  function Saturate16(x: int): i16 {
    if x < -0x8000 then -0x8000 else if x > 0x7FFF then 0x7FFF else x
  }

  /** The high half of the doubled product, saturating. */
  function DoubledHigh(a: i16, b: i16): i16 {
    Saturate16(2 * (a as int * b as int) / 0x1_0000)
  }

  function Sqdmulh(a: V8, b: V8): V8 {
    seq(8, i requires 0 <= i < 8 => DoubledHigh(a[i], b[i]))
  }

  /** Halving subtraction: the floor of half the difference. */
  function Shsub(a: V8, b: V8): V8 {
    seq(8, i requires 0 <= i < 8 => (a[i] as int - b[i] as int) / 2)
  }

  /** Arithmetic right shift of every lane, by the divisor the count stands for. */
  function Sshr(a: V8, divisor: int): V8
    requires divisor >= 1
  {
    seq(8, i requires 0 <= i < 8 => ShiftDown(a[i], divisor))
  }

  function ShiftDown(x: i16, divisor: int): i16
    requires divisor >= 1
  {
    DivRange(x, divisor);
    x / divisor
  }

  lemma DivRange(x: i16, d: int)
    requires d >= 1
    ensures -0x8000 <= x / d < 0x8000
  {
    var t, o := x / d, x % d;
    assert x == d * t + o;
    if t >= 0x8000 { MulMono(1, d, t); } else if t < -0x8000 { MulMono(1, d, -t - 1); }
  }

  // -------------------------------------------------------------------------------------------
  // The backend's arithmetic
  // -------------------------------------------------------------------------------------------

  /** `mulhi`: halve the doubled high half back. */
  function MulHi(a: V8, b: V8): V8 {
    Sshr(Sqdmulh(a, b), 2)
  }

  /** `mont_mul`: subtract the doubled high halves and halve once. */
  function NeonMontMul(a: V8, z: V8, zq: V8, q: V8): V8 {
    var t := Mul16(a, zq);
    Shsub(Sqdmulh(a, z), Sqdmulh(t, q))
  }

  function NeonBarrett(x: V8, m: V8, round: V8, q: V8): V8 {
    var t := Sshr(Add16(MulHi(x, m), round), 0x800);
    Sub16(x, Mul16(t, q))
  }

  /** The doubled high half saturates only on `(-2^15)^2`. */
  lemma NoSaturation(a: i16, b: i16)
    ensures DoubledHigh(a, b) == 2 * (a as int * b as int) / 0x1_0000 <==> !(a == -0x8000 && b == -0x8000)
  {
    AbsMul(a, b, 0x8000, 0x8000);
    if b > -0x8000 { AbsMul(a, b, 0x8000, 0x7FFF); } else if a > -0x8000 { AbsMul(a, b, 0x7FFF, 0x8000); }
  }

  /** Doubled high halves of two products with the same low half differ by twice what the plain high
      halves differ by: the doubling carries the same bit into both. */
  lemma SameCarry(x: int, y: int)
    requires Cong(x, y, R)
    ensures 2 * x / R - 2 * y / R == 2 * (x / R - y / R)
  {
    ToMod(x, y, R);
  }

  /** The doubled-product Montgomery multiply is the portable one, on every lane of every input but
      `a = z = -2^15`. */
  lemma NeonMontMulIsMontMul(a: V8, z: V8, second: bool, i: nat)
    requires i < 8 && !(a[i] == -0x8000 && z[i] == -0x8000)
    ensures NeonMontMul(a, z, seq(8, j requires 0 <= j < 8 => Twin(second, z[j])), Dup16(Q(second)))[i]
            == MontMul(a[i], z[i], Twin(second, z[i]), Q(second))
  {
    hide Cong, Twin, Wrap16;
    var q := Q(second);
    var x, zi: int := a[i], z[i];
    var t: int := Wrap16(x * Twin(second, z[i]));
    NoSaturation(a[i], z[i]);
    NoSaturation(t, q);
    Constants(second);
    Wrap16Cong(zi * QInv(second));
    Wrap16Cong(x * Twin(second, z[i]));
    TwinIs(second, z[i]);
    QuotientCong(x, zi, Twin(second, z[i]), t, QInv(second), q, R);
    SameCarry(x * zi, t * q);
    HighHalves(x * zi, t * q);
    MontMulNoWrap(a[i], z[i], t, q);
  }

  lemma TwinIs(second: bool, z: i16)
    ensures Twin(second, z) == Wrap16(z as int * QInv(second) as int)
  {
  }

  /** The NEON Barrett pass is the portable one, lane by lane. */
  lemma NeonBarrettIsBarrett(x: V8, second: bool, i: nat)
    requires i < 8
    ensures NeonBarrett(x, Dup16(BarrettM(second)), Dup16(0x400), Dup16(Q(second)))[i]
            == Barrett(x[i], BarrettM(second), Q(second))
  {
    var m: int := BarrettM(second);
    NoSaturation(x[i], m);
    AbsMul(x[i], m, 0x8000, 0x7FFF);
    assert 2 * (x[i] * m) / 0x1_0000 / 2 == x[i] * m / 0x1_0000;
  }

  // -------------------------------------------------------------------------------------------
  // Transposes
  // -------------------------------------------------------------------------------------------

  /** Interleaving the even (`odd` = 0) or odd (`odd` = 1) chunks of `w` lanes of two registers:
      `trn1` and `trn2` on 16-, 32- and 64-bit lanes for `w` = 1, 2 and 4. */
  function Trn(a: V8, b: V8, w: nat, odd: nat): V8
    requires (w == 1 || w == 2 || w == 4) && odd < 2
  {
    seq(8, i requires 0 <= i < 8 =>
      TrnIndex(i, w, odd);
      var src := i / (2 * w) * (2 * w) + odd * w + i % w;
      if i / w % 2 == 0 then a[src] else b[src])
  }

  lemma TrnIndex(i: nat, w: nat, odd: nat)
    requires i < 8 && (w == 1 || w == 2 || w == 4) && odd < 2
    ensures 0 <= i / (2 * w) * (2 * w) + odd * w + i % w < 8
  {
    if w == 1 { } else if w == 2 { } else { }
  }

  /** `transpose8`. */
  function Transpose8(v: seq<V8>): (r: seq<V8>)
    requires |v| == 8
    ensures |r| == 8
  {
    var b0, b1 := Trn(v[0], v[1], 1, 0), Trn(v[0], v[1], 1, 1);
    var b2, b3 := Trn(v[2], v[3], 1, 0), Trn(v[2], v[3], 1, 1);
    var b4, b5 := Trn(v[4], v[5], 1, 0), Trn(v[4], v[5], 1, 1);
    var b6, b7 := Trn(v[6], v[7], 1, 0), Trn(v[6], v[7], 1, 1);
    var c0, c2 := Trn(b0, b2, 2, 0), Trn(b0, b2, 2, 1);
    var c1, c3 := Trn(b1, b3, 2, 0), Trn(b1, b3, 2, 1);
    var c4, c6 := Trn(b4, b6, 2, 0), Trn(b4, b6, 2, 1);
    var c5, c7 := Trn(b5, b7, 2, 0), Trn(b5, b7, 2, 1);
    [Trn(c0, c4, 4, 0), Trn(c1, c5, 4, 0), Trn(c2, c6, 4, 0), Trn(c3, c7, 4, 0),
     Trn(c0, c4, 4, 1), Trn(c1, c5, 4, 1), Trn(c2, c6, 4, 1), Trn(c3, c7, 4, 1)]
  }

  lemma Trn1At(a: V8, b: V8, odd: nat, i: nat, s: nat)
    requires odd < 2 && i < 4 && s < 2
    ensures Trn(a, b, 1, odd)[2 * i + s] == (if s == 0 then a else b)[2 * i + odd]
  {
  }

  lemma Trn2At(a: V8, b: V8, odd: nat, i: nat, s: nat, t: nat)
    requires odd < 2 && i < 2 && s < 2 && t < 2
    ensures Trn(a, b, 2, odd)[4 * i + 2 * s + t] == (if s == 0 then a else b)[4 * i + 2 * odd + t]
  {
  }

  lemma Trn4At(a: V8, b: V8, odd: nat, s: nat, t: nat)
    requires odd < 2 && s < 2 && t < 4
    ensures Trn(a, b, 4, odd)[4 * s + t] == (if s == 0 then a else b)[4 * odd + t]
  {
  }

  /** The first two stages, on the four registers from `x`. */
  lemma TrnPair(v: seq<V8>, x: nat, r2: nat, r1: nat, r0: nat, c1: nat, c0: nat)
    requires x + 4 <= |v| && r2 < 2 && r1 < 2 && r0 < 2 && c1 < 2 && c0 < 2
    ensures Trn(Trn(v[x], v[x + 1], 1, r0), Trn(v[x + 2], v[x + 3], 1, r0), 2, r1)[4 * r2 + 2 * c1 + c0]
            == v[x + 2 * c1 + c0][4 * r2 + 2 * r1 + r0]
  {
    hide Trn;
    Trn2At(Trn(v[x], v[x + 1], 1, r0), Trn(v[x + 2], v[x + 3], 1, r0), r1, r2, c1, c0);
    if c1 == 0 {
      Trn1At(v[x], v[x + 1], r0, 2 * r2 + r1, c0);
    } else {
      Trn1At(v[x + 2], v[x + 3], r0, 2 * r2 + r1, c0);
    }
  }

  lemma Transpose8Shape(v: seq<V8>, r2: nat, r1: nat, r0: nat)
    requires |v| == 8 && r2 < 2 && r1 < 2 && r0 < 2
    ensures Transpose8(v)[4 * r2 + 2 * r1 + r0]
            == Trn(Trn(Trn(v[0], v[1], 1, r0), Trn(v[2], v[3], 1, r0), 2, r1),
                   Trn(Trn(v[4], v[5], 1, r0), Trn(v[6], v[7], 1, r0), 2, r1), 4, r2)
  {
    hide Trn;
  }

  /** One output lane, traced back through the three stages; the indices are split into bits. */
  lemma Transpose8Lane(v: seq<V8>, r2: nat, r1: nat, r0: nat, c2: nat, c1: nat, c0: nat)
    requires |v| == 8 && r2 < 2 && r1 < 2 && r0 < 2 && c2 < 2 && c1 < 2 && c0 < 2
    ensures Transpose8(v)[4 * r2 + 2 * r1 + r0][4 * c2 + 2 * c1 + c0] == v[4 * c2 + 2 * c1 + c0][4 * r2 + 2 * r1 + r0]
  {
    hide Trn, Transpose8;
    Transpose8Shape(v, r2, r1, r0);
    var b0 := Trn(Trn(v[0], v[1], 1, r0), Trn(v[2], v[3], 1, r0), 2, r1);
    var b1 := Trn(Trn(v[4], v[5], 1, r0), Trn(v[6], v[7], 1, r0), 2, r1);
    Trn4At(b0, b1, r2, c2, 2 * c1 + c0);
    TrnPair(v, 4 * c2, r2, r1, r0, c1, c0);
  }

  /** `transpose8` is the transpose of the 8x8 matrix of lanes. */
  lemma Transposes8(v: seq<V8>, r: nat, c: nat)
    requires |v| == 8 && r < 8 && c < 8
    ensures Transpose8(v)[r][c] == v[c][r]
  {
    hide Transpose8;
    Transpose8Lane(v, r / 4, r / 2 % 2, r % 2, c / 4, c / 2 % 2, c % 2);
  }

  // -------------------------------------------------------------------------------------------
  // Widening, narrowing, and the reduction of an accumulator
  // -------------------------------------------------------------------------------------------

  /** `smull` and `smull2`: the full products of the lanes from `hi` on. */
  function Smull(a: V8, b: V8, hi: nat): W4
    requires hi == 0 || hi == 4
  {
    var x, y := a[hi..hi + 4], b[hi..hi + 4];
    seq(4, i requires 0 <= i < 4 => Wrap32(x[i] as int * y[i] as int))
  }

  function Add32(a: W4, b: W4): W4 {
    seq(4, i requires 0 <= i < 4 => Wrap32(a[i] as int + b[i] as int))
  }

  /** `xtn` and `xtn2`: the low halves of eight 32-bit lanes. */
  function Xtn(a0: W4, a1: W4): V8 {
    var a := a0 + a1;
    seq(8, i requires 0 <= i < 8 => Wrap16(a[i]))
  }

  /** `shrn` and `shrn2` by 16: the high halves. */
  function Shrn(a0: W4, a1: W4): V8 {
    var a := a0 + a1;
    seq(8, i requires 0 <= i < 8 => Asr16(a[i]))
  }

  function NeonReduce(a0: W4, a1: W4, qinv: V8, q: V8): V8 {
    var t := Mul16(Xtn(a0, a1), qinv);
    Sub16(Shrn(a0, a1), MulHi(t, q))
  }

  /** Halving the doubled high half gives the high half, short of the one saturating product. */
  lemma MulHiLane(a: V8, b: V8, i: nat)
    requires i < 8 && b[i] > -0x8000
    ensures MulHi(a, b)[i] == Asr16(Wrap32(a[i] as int * b[i] as int))
  {
    NoSaturation(a[i], b[i]);
    AbsMul(a[i], b[i], 0x8000, 0x7FFF);
    Halved(a[i] as int * b[i] as int);
  }

  lemma Halved(x: int)
    ensures 2 * x / 0x1_0000 / 2 == x / 0x1_0000
  {
  }

  lemma NeonReduceIsMontReduce(a0: W4, a1: W4, qinv: i16, q: i16, i: nat)
    requires i < 8 && q > -0x8000
    ensures NeonReduce(a0, a1, Dup16(qinv), Dup16(q))[i] == MontReduce(if i < 4 then a0[i] else a1[i - 4], qinv, q)
  {
    hide Wrap16, Wrap32, Asr16, MulHi;
    MulHiLane(Mul16(Xtn(a0, a1), Dup16(qinv)), Dup16(q), i);
  }

  // -------------------------------------------------------------------------------------------
  // Chinese remaindering
  // -------------------------------------------------------------------------------------------

  /** Adding the prime where a lane is negative. */
  function Canonicals(v: V8, q: i16): V8 {
    Add16(v, seq(8, i requires 0 <= i < 8 => AndMask(SignMask(v[i]), q)))
  }

  /** The mixed-radix digits, lane by lane. */
  function Digits(a1: V8, a2: V8): V8 {
    Canonicals(NeonMontMul(Sub16(a2, a1), Dup16(CRT_Q1_INV_MONT), Dup16(Twin(true, CRT_Q1_INV_MONT)), Dup16(Q(true))),
      Q(true))
  }

  /** `sxtl`, `mla`, the centring and `xtn` over both halves of a register. */
  function CombineAll(a1: V8, t: V8): (out: seq<u16>)
    ensures |out| == 8
  {
    seq(8, i requires 0 <= i < 8 => CombineLane(a1[i], t[i]))
  }

  function NeonGarner(r1: V8, r2: V8): (out: seq<u16>)
    ensures |out| == 8
  {
    var a1, a2 := Canonicals(r1, Q(false)), Canonicals(r2, Q(true));
    CombineAll(a1, Digits(a1, a2))
  }

  lemma CanonicalLane(v: V8, q: i16, i: nat)
    requires i < 8
    ensures Canonicals(v, q)[i] == Canonical(v[i], q)
  {
  }

  lemma DigitsAt(a1: V8, a2: V8, i: nat)
    requires i < 8
    ensures Digits(a1, a2)[i] == Digit(a1[i], a2[i])
  {
    hide Twin, NeonMontMul, MontMul, Canonicals, Canonical, Q;
    var d, z, q := Sub16(a2, a1), Dup16(CRT_Q1_INV_MONT), Dup16(Q(true));
    var zq := seq(8, j requires 0 <= j < 8 => Twin(true, z[j]));
    assert zq == Dup16(Twin(true, CRT_Q1_INV_MONT));
    NeonMontMulIsMontMul(d, z, true, i);
    CanonicalLane(NeonMontMul(d, z, zq, q), Q(true), i);
  }

  /** The vector reconstruction is the scalar one, on residues below their primes. */
  lemma NeonGarnerIsGarner(r1: V8, r2: V8, i: nat)
    requires i < 8
    requires -Q(false) < r1[i] < Q(false) && -Q(true) < r2[i] < Q(true)
    ensures NeonGarner(r1, r2)[i] == Garner(r1[i], r2[i])
  {
    CanonicalRange(r1[i], false);
    CanonicalRange(r2[i], true);
    hide Canonical, Canonicals, CombineLane, Digit, Digits, Recombine, Q;
    var a1, a2 := Canonicals(r1, Q(false)), Canonicals(r2, Q(true));
    CanonicalLane(r1, Q(false), i);
    CanonicalLane(r2, Q(true), i);
    DigitsAt(a1, a2, i);
    DigitRange(a1[i], a2[i]);
    CombineLaneIsRecombine(a1[i], Digits(a1, a2)[i]);
  }
}
