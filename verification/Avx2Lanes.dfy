/** AVX2 registers as sequences of lanes, the instructions the transform uses as functions on them,
    and the backend's lane arithmetic and transposes. */
module Avx2Lanes {
  import opened Words
  import opened Params
  import opened Lane

  /** A 256-bit register as sixteen `i16` lanes. */
  type V16 = v: seq<i16> | |v| == 16 witness seq(16, _ => 0)

  function Set16(a: i16): V16 { seq(16, _ => a) }

  function AddEpi16(a: V16, b: V16): V16 {
    seq(16, i requires 0 <= i < 16 => Wrap16(a[i] as int + b[i] as int))
  }

  function SubEpi16(a: V16, b: V16): V16 {
    seq(16, i requires 0 <= i < 16 => Wrap16(a[i] as int - b[i] as int))
  }

  /** The low half of each product. */
  function MulloEpi16(a: V16, b: V16): V16 {
    seq(16, i requires 0 <= i < 16 => Wrap16(a[i] as int * b[i] as int))
  }

  /** The high half of each signed product. */
  function MulhiEpi16(a: V16, b: V16): V16 {
    seq(16, i requires 0 <= i < 16 => Asr16(Wrap32(a[i] as int * b[i] as int)))
  }

  /** Arithmetic right shift by eleven. */
  function SraiEpi16By11(a: V16): V16 {
    seq(16, i requires 0 <= i < 16 => a[i] / 0x800)
  }

  function Avx2MontMul(a: V16, z: V16, zq: V16, q: V16): V16 {
    var t := MulloEpi16(a, zq);
    SubEpi16(MulhiEpi16(a, z), MulhiEpi16(t, q))
  }

  function Avx2Barrett(x: V16, m: V16, round: V16, q: V16): V16 {
    var t := SraiEpi16By11(AddEpi16(MulhiEpi16(x, m), round));
    SubEpi16(x, MulloEpi16(t, q))
  }

  lemma Avx2MontMulIsMontMul(a: V16, z: V16, zq: V16, q: V16, i: nat)
    requires i < 16
    ensures Avx2MontMul(a, z, zq, q)[i] == MontMul(a[i], z[i], zq[i], q[i])
  {
    hide Wrap16, Wrap32, Asr16;
  }

  lemma Avx2BarrettIsBarrett(x: V16, m: V16, q: V16, i: nat)
    requires i < 16
    ensures Avx2Barrett(x, m, Set16(0x400), q)[i] == Barrett(x[i], m[i], q[i])
  {
    hide Wrap16, Wrap32, Asr16;
  }

  // -------------------------------------------------------------------------------------------
  // Shuffles
  // -------------------------------------------------------------------------------------------

  /** Interleaving chunks of `w` lanes, within each 128-bit half, of the first (`hi` = 0) or second
      (`hi` = 4) 64 bits of that half: `vpunpckl*` and `vpunpckh*` for `w` = 1, 2 and 4. */
  function Unpack(a: V16, b: V16, w: nat, hi: nat): V16
    requires (w == 1 || w == 2 || w == 4) && (hi == 0 || hi == 4)
  {
    seq(16, i requires 0 <= i < 16 =>
      var half, j := 8 * (i / 8), i % 8;
      var src := half + hi + j / (2 * w) * w + j % w;
      UnpackIndex(i, w, hi);
      if j / w % 2 == 0 then a[src] else b[src])
  }

  lemma UnpackIndex(i: nat, w: nat, hi: nat)
    requires i < 16 && (w == 1 || w == 2 || w == 4) && (hi == 0 || hi == 4)
    ensures 0 <= 8 * (i / 8) + hi + i % 8 / (2 * w) * w + i % 8 % w < 16
  {
    if w == 1 { } else if w == 2 { } else { }
  }

  /** `inlane_transpose8`: interleave by words, double words, quad words. */
  function InlaneTranspose8(v: seq<V16>): (r: seq<V16>)
    requires |v| == 8
    ensures |r| == 8
  {
    var a0, a1 := Unpack(v[0], v[1], 1, 0), Unpack(v[0], v[1], 1, 4);
    var a2, a3 := Unpack(v[2], v[3], 1, 0), Unpack(v[2], v[3], 1, 4);
    var a4, a5 := Unpack(v[4], v[5], 1, 0), Unpack(v[4], v[5], 1, 4);
    var a6, a7 := Unpack(v[6], v[7], 1, 0), Unpack(v[6], v[7], 1, 4);
    var b0, b1 := Unpack(a0, a2, 2, 0), Unpack(a0, a2, 2, 4);
    var b2, b3 := Unpack(a1, a3, 2, 0), Unpack(a1, a3, 2, 4);
    var b4, b5 := Unpack(a4, a6, 2, 0), Unpack(a4, a6, 2, 4);
    var b6, b7 := Unpack(a5, a7, 2, 0), Unpack(a5, a7, 2, 4);
    [Unpack(b0, b4, 4, 0), Unpack(b0, b4, 4, 4), Unpack(b1, b5, 4, 0), Unpack(b1, b5, 4, 4),
     Unpack(b2, b6, 4, 0), Unpack(b2, b6, 4, 4), Unpack(b3, b7, 4, 0), Unpack(b3, b7, 4, 4)]
  }

  lemma Unpack1At(a: V16, b: V16, h: nat, q: nat, i: nat, s: nat)
    requires h < 2 && q < 2 && i < 4 && s < 2
    ensures Unpack(a, b, 1, 4 * h)[8 * q + 2 * i + s] == (if s == 0 then a else b)[8 * q + 4 * h + i]
  {
    assert (8 * q + 2 * i + s) / 8 == q && (8 * q + 2 * i + s) % 8 == 2 * i + s;
  }

  lemma Unpack2At(a: V16, b: V16, h: nat, q: nat, i: nat, s: nat, t: nat)
    requires h < 2 && q < 2 && i < 2 && s < 2 && t < 2
    ensures Unpack(a, b, 2, 4 * h)[8 * q + 4 * i + 2 * s + t] == (if s == 0 then a else b)[8 * q + 4 * h + 2 * i + t]
  {
    assert (8 * q + 4 * i + 2 * s + t) / 8 == q && (8 * q + 4 * i + 2 * s + t) % 8 == 4 * i + 2 * s + t;
  }

  lemma Unpack4At(a: V16, b: V16, h: nat, q: nat, s: nat, t: nat)
    requires h < 2 && q < 2 && s < 2 && t < 4
    ensures Unpack(a, b, 4, 4 * h)[8 * q + 4 * s + t] == (if s == 0 then a else b)[8 * q + 4 * h + t]
  {
    assert (8 * q + 4 * s + t) / 8 == q && (8 * q + 4 * s + t) % 8 == 4 * s + t;
  }

  /** The first two stages, on the four registers from `x`. */
  lemma InlanePair(v: seq<V16>, x: nat, q: nat, r2: nat, r1: nat, r0: nat, c1: nat, c0: nat)
    requires x + 4 <= |v| && q < 2 && r2 < 2 && r1 < 2 && r0 < 2 && c1 < 2 && c0 < 2
    ensures Unpack(Unpack(v[x], v[x + 1], 1, 4 * r2), Unpack(v[x + 2], v[x + 3], 1, 4 * r2), 2,
            4 * r1)[8 * q + 4 * r0 + 2 * c1 + c0]
            == v[x + 2 * c1 + c0][8 * q + 4 * r2 + 2 * r1 + r0]
  {
    hide Unpack;
    var a, b := Unpack(v[x], v[x + 1], 1, 4 * r2), Unpack(v[x + 2], v[x + 3], 1, 4 * r2);
    Unpack2At(a, b, r1, q, r0, c1, c0);
    if c1 == 0 {
      Unpack1At(v[x], v[x + 1], r2, q, 2 * r1 + r0, c0);
    } else {
      Unpack1At(v[x + 2], v[x + 3], r2, q, 2 * r1 + r0, c0);
    }
  }

  /** One output lane, traced back through the three stages; the indices are split into bits. */
  lemma InlaneLane(v: seq<V16>, q: nat, r2: nat, r1: nat, r0: nat, c2: nat, c1: nat, c0: nat)
    requires |v| == 8 && q < 2 && r2 < 2 && r1 < 2 && r0 < 2 && c2 < 2 && c1 < 2 && c0 < 2
    ensures InlaneTranspose8(v)[4 * r2 + 2 * r1 + r0][8 * q + 4 * c2 + 2 * c1 + c0]
            == v[4 * c2 + 2 * c1 + c0][8 * q + 4 * r2 + 2 * r1 + r0]
  {
    hide Unpack, InlaneTranspose8;
    InlaneShape(v, r2, r1, r0);
    var b0 := Unpack(Unpack(v[0], v[1], 1, 4 * r2), Unpack(v[2], v[3], 1, 4 * r2), 2, 4 * r1);
    var b1 := Unpack(Unpack(v[4], v[5], 1, 4 * r2), Unpack(v[6], v[7], 1, 4 * r2), 2, 4 * r1);
    Unpack4At(b0, b1, r0, q, c2, 2 * c1 + c0);
    InlanePair(v, 4 * c2, q, r2, r1, r0, c1, c0);
  }

  /** After `inlane_transpose8`, each 128-bit half is the transpose of the 8x8 matrix it was. */
  lemma InlaneTransposes(v: seq<V16>, q: nat, r: nat, c: nat)
    requires |v| == 8 && q < 2 && r < 8 && c < 8
    ensures InlaneTranspose8(v)[r][8 * q + c] == v[c][8 * q + r]
  {
    hide InlaneTranspose8;
    InlaneLane(v, q, r / 4, r / 2 % 2, r % 2, c / 4, c / 2 % 2, c % 2);
  }

  lemma InlaneShape(v: seq<V16>, r2: nat, r1: nat, r0: nat)
    requires |v| == 8 && r2 < 2 && r1 < 2 && r0 < 2
    ensures InlaneTranspose8(v)[4 * r2 + 2 * r1 + r0]
            == Unpack(Unpack(Unpack(v[0], v[1], 1, 4 * r2), Unpack(v[2], v[3], 1, 4 * r2), 2, 4 * r1),
                      Unpack(Unpack(v[4], v[5], 1, 4 * r2), Unpack(v[6], v[7], 1, 4 * r2), 2, 4 * r1), 4, 4 * r0)
  {
    hide Unpack;
  }

  // -------------------------------------------------------------------------------------------
  // 32-bit lanes
  // -------------------------------------------------------------------------------------------

  /** A 256-bit register as eight `i32` lanes. */
  type W8 = w: seq<i32> | |w| == 8 witness seq(8, _ => 0)

  /** `vperm2i128`: the low (`hi` = 0) or high (`hi` = 8) halves of both registers. */
  function Permute2x128(a: V16, b: V16, hi: nat): V16
    requires hi == 0 || hi == 8
  {
    a[hi..hi + 8] + b[hi..hi + 8]
  }

  /** Pairs of `i16` lanes read as `i32` lanes, low half first. */
  function AsW8(v: V16): W8 {
    seq(8, i requires 0 <= i < 8 => WrapU16(v[2 * i]) as int + 0x1_0000 * v[2 * i + 1] as int)
  }

  function AddEpi32(a: W8, b: W8): W8 {
    seq(8, i requires 0 <= i < 8 => Wrap32(a[i] as int + b[i] as int))
  }

  /** The 32-bit products of lanes 0..8 (`hi` = 0) or 8..16 (`hi` = 8), rebuilt from their halves. */
  function Products(l: V16, r: V16, hi: nat): W8
    requires hi == 0 || hi == 8
  {
    var lo, high := MulloEpi16(l, r), MulhiEpi16(l, r);
    AsW8(Permute2x128(Unpack(lo, high, 1, 0), Unpack(lo, high, 1, 4), hi))
  }

  /** The low and high halves of a product make up the product. */
  lemma HalvesOfProduct(x: i16, y: i16)
    ensures WrapU16(Wrap16(x as int * y as int)) as int + 0x1_0000 * Asr16(Wrap32(x as int * y as int)) as int
            == x as int * y as int
  {
    AbsMul(x, y, 0x8000, 0x8000);
  }

  /** The interleaving and the half-register swap put the products in coefficient order. */
  lemma ProductsInOrder(l: V16, r: V16, hi: nat, i: nat)
    requires (hi == 0 || hi == 8) && i < 8
    ensures Products(l, r, hi)[i] == l[hi + i] as int * r[hi + i] as int
  {
    hide Unpack, Wrap16, Wrap32, WrapU16, Asr16;
    var lo, high := MulloEpi16(l, r), MulhiEpi16(l, r);
    var h, j := i / 4, i % 4;
    Unpack1At(lo, high, h, hi / 8, j, 0);
    Unpack1At(lo, high, h, hi / 8, j, 1);
    HalvesOfProduct(l[hi + i], r[hi + i]);
  }

  /** `vpackssdw` of both registers and the quad-word permute that repairs its order. */
  function PacksInOrder(a: W8, b: W8): V16 {
    Permute4x64(PacksEpi32(a, b))
  }

  function Saturate(x: int): i16 {
    if x < -0x8000 then -0x8000 else if x > 0x7FFF then 0x7FFF else x
  }

  /** `vpackssdw`: saturated lanes, interleaved by 128-bit half. */
  function PacksEpi32(a: W8, b: W8): V16 {
    seq(16, i requires 0 <= i < 16 =>
      var j := 4 * (i / 8) + i % 4;
      Saturate(if i % 8 < 4 then a[j] else b[j]))
  }

  /** `vpermq` with 0xD8: the two middle quad words swapped. */
  function Permute4x64(v: V16): V16 {
    v[..4] + v[8..12] + v[4..8] + v[12..]
  }

  lemma PermuteAt(v: V16, i: nat)
    requires i < 16
    ensures Permute4x64(v)[i] == v[if 4 <= i < 8 then i + 4 else if 8 <= i < 12 then i - 4 else i]
  {
  }

  lemma PacksOrder(a: W8, b: W8, i: nat)
    requires i < 16
    ensures PacksInOrder(a, b)[i] == Saturate(if i < 8 then a[i] else b[i - 8])
  {
    hide Saturate, Permute4x64;
    PermuteAt(PacksEpi32(a, b), i);
  }

  function SlliEpi32By16(a: W8): W8 {
    seq(8, i requires 0 <= i < 8 => Wrap32(a[i] as int * 0x1_0000))
  }

  function SraiEpi32By16(a: W8): W8 {
    seq(8, i requires 0 <= i < 8 => Asr16(a[i]))
  }

  /** One vector of `reduce_block`. */
  function Avx2Reduce(a0: W8, a1: W8, qinv: V16, q: V16): V16 {
    var lo := PacksInOrder(SraiEpi32By16(SlliEpi32By16(a0)), SraiEpi32By16(SlliEpi32By16(a1)));
    var hi := PacksInOrder(SraiEpi32By16(a0), SraiEpi32By16(a1));
    var t := MulloEpi16(lo, qinv);
    SubEpi16(hi, MulhiEpi16(t, q))
  }

  lemma LowHalf(a: i32)
    ensures Asr16(Wrap32(a as int * 0x1_0000)) == Wrap16(a)
  {
  }

  lemma Avx2ReduceIsMontReduce(a0: W8, a1: W8, qinv: i16, q: i16, i: nat)
    requires i < 16
    ensures Avx2Reduce(a0, a1, Set16(qinv), Set16(q))[i] == MontReduce(if i < 8 then a0[i] else a1[i - 8], qinv, q)
  {
    hide Wrap16, Wrap32, Asr16, PacksInOrder;
    LowHalf(if i < 8 then a0[i] else a1[i - 8]);
    PacksOrder(SraiEpi32By16(SlliEpi32By16(a0)), SraiEpi32By16(SlliEpi32By16(a1)), i);
    PacksOrder(SraiEpi32By16(a0), SraiEpi32By16(a1), i);
  }

  // -------------------------------------------------------------------------------------------
  // Chinese remaindering
  // -------------------------------------------------------------------------------------------

  function AndSign(v: V16, q: i16): V16 {
    seq(16, i requires 0 <= i < 16 => AndMask(SignMask(v[i]), q))
  }

  /** `vpmovzxwd` of one half of a register. */
  function ZeroExtend(v: V16, hi: nat): W8
    requires hi == 0 || hi == 8
  {
    var h := v[hi..hi + 8];
    seq(8, i requires 0 <= i < 8 => ZeroExtended(h[i]))
  }

  function ZeroExtended(x: i16): i32 {
    WrapU16(x)
  }

  /** `vpackusdw` with its repairing permute, on lanes already masked to 16 bits. */
  function CombineAll(a1: V16, t: V16): (out: seq<u16>)
    ensures |out| == 16
  {
    var first := seq(8, i requires 0 <= i < 8 => CombineLane(ZeroExtend(a1, 0)[i], ZeroExtend(t, 0)[i]));
    var second := seq(8, i requires 0 <= i < 8 => CombineLane(ZeroExtend(a1, 8)[i], ZeroExtend(t, 8)[i]));
    first + second
  }

  /** Adding the prime where a lane is negative. */
  function Canonicals(v: V16, q: i16): V16 {
    AddEpi16(v, AndSign(v, q))
  }

  lemma CanonicalLane(v: V16, q: i16, i: nat)
    requires i < 16
    ensures Canonicals(v, q)[i] == Canonical(v[i], q)
  {
  }

  function Avx2Garner(r1: V16, r2: V16): (out: seq<u16>)
    ensures |out| == 16
  {
    var a1, a2 := Canonicals(r1, Q(false)), Canonicals(r2, Q(true));
    CombineAll(a1, Digits(a1, a2))
  }

  lemma CombineAllAt(a1: V16, t: V16, i: nat)
    requires i < 16
    ensures CombineAll(a1, t)[i] == CombineLane(ZeroExtended(a1[i]), ZeroExtended(t[i]))
  {
    hide CombineLane, ZeroExtended;
  }

  /** The mixed-radix digits, lane by lane. */
  function Digits(a1: V16, a2: V16): V16 {
    Canonicals(Avx2MontMul(SubEpi16(a2, a1), Set16(CRT_Q1_INV_MONT), Set16(Twin(true, CRT_Q1_INV_MONT)),
      Set16(Q(true))), Q(true))
  }

  lemma DigitsAt(a1: V16, a2: V16, i: nat)
    requires i < 16
    ensures Digits(a1, a2)[i] == Digit(a1[i], a2[i])
  {
    hide Twin, Avx2MontMul, MontMul, Canonicals, Canonical, Q;
    var d, z, zq, q := SubEpi16(a2, a1), Set16(CRT_Q1_INV_MONT), Set16(Twin(true, CRT_Q1_INV_MONT)), Set16(Q(true));
    Avx2MontMulIsMontMul(d, z, zq, q, i);
    CanonicalLane(Avx2MontMul(d, z, zq, q), Q(true), i);
  }

  /** The vector reconstruction is the scalar one, on residues below their primes. */
  lemma Avx2GarnerIsGarner(r1: V16, r2: V16, i: nat)
    requires i < 16
    requires -Q(false) < r1[i] < Q(false) && -Q(true) < r2[i] < Q(true)
    ensures Avx2Garner(r1, r2)[i] == Garner(r1[i], r2[i])
  {
    CanonicalRange(r1[i], false);
    CanonicalRange(r2[i], true);
    hide Canonical, Canonicals, CombineAll, CombineLane, Digit, Digits, Recombine, ZeroExtended, Q;
    var a1, a2 := Canonicals(r1, Q(false)), Canonicals(r2, Q(true));
    CanonicalLane(r1, Q(false), i);
    CanonicalLane(r2, Q(true), i);
    DigitsAt(a1, a2, i);
    CombineAllAt(a1, Digits(a1, a2), i);
    DigitRange(a1[i], a2[i]);
    ZeroExtendedIs(a1[i]);
    ZeroExtendedIs(Digits(a1, a2)[i]);
    CombineLaneIsRecombine(a1[i], Digits(a1, a2)[i]);
  }

  lemma ZeroExtendedIs(x: i16)
    requires 0 <= x
    ensures ZeroExtended(x) == x
  {
  }
}
