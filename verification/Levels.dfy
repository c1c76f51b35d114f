/** One butterfly level of the transform over a 256-coefficient block: as the source computes it,
    on wrapping `i16` lanes, and as the map it stands for, on integers. */
module Levels {
  import opened Words
  import opened Congruence
  import opened Tables
  import opened Params
  import opened Lane

  /** Forward levels are Cooley-Tukey, inverse levels Gentleman-Sande. */
  datatype Dir = Forward | Inverse

  type Block = s: seq<i16> | |s| == 256 witness seq(256, _ => 0)
  type Poly = s: seq<int> | |s| == 256 witness seq(256, _ => 0)

  // -------------------------------------------------------------------------------------------
  // Positions
  // -------------------------------------------------------------------------------------------

  /** The half-widths a level can have. */
  predicate IsLen(len: int) {
    len == 1 || len == 2 || len == 4 || len == 8 || len == 16 || len == 32 || len == 64 || len == 128
  }

  /** The butterfly block of half-width `len` that position `p` falls in. */
  function Blk(len: int, p: nat): (t: nat)
    requires IsLen(len)
  {
    p / (2 * len)
  }

  /** Whether `p` is in the first half of its block, so that its partner is `p + len`. */
  predicate Low(len: int, p: nat)
    requires IsLen(len)
  {
    p % (2 * len) < len
  }

  /** The table index the level uses at position `p`: upwards forward, downwards inverse. */
  function Idx(dir: Dir, len: int, p: nat): (k: nat)
    requires IsLen(len) && p < 256
  {
    Partner(len, p);
    if dir.Forward? then 128 / len + Blk(len, p) else 256 / len - 1 - Blk(len, p)
  }

  lemma LenFacts(len: int)
    requires IsLen(len)
    ensures 2 * len * (128 / len) == 256 && 256 / len == 2 * (128 / len) && 0 < 128 / len <= 128
    ensures 256 / (2 * len) == 128 / len && 2 * len <= 256
  {
  }

  lemma Partner(len: int, p: nat)
    requires IsLen(len) && p < 256
    ensures Low(len, p) ==> p + len < 256 && !Low(len, p + len) && Blk(len, p + len) == Blk(len, p)
    ensures !Low(len, p) ==> p >= len && Low(len, p - len) && Blk(len, p - len) == Blk(len, p)
    ensures Blk(len, p) < 128 / len && 256 / len == 2 * (128 / len) && 0 < 128 / len <= 128
  {
    hide IsLen;
    LenFacts(len);
    PartnerWithin(len, 2 * len, 128 / len, p);
  }

  lemma PartnerWithin(len: int, d: int, n: int, p: nat)
    requires 0 < len && d == 2 * len && d * n == 256 && p < 256
    ensures p % d < len ==> p + len < 256 && (p + len) % d >= len && (p + len) / d == p / d
    ensures p % d >= len ==> p >= len && (p - len) % d < len && (p - len) / d == p / d
    ensures p / d < n
  {
    DivBelow(p, d, n);
    if p % d < len {
      DivShift(p, d, len);
      DivBelow(p + len, d, n);
    } else {
      DivShift(p, d, -len);
      DivBelow(p - len, d, 0);
    }
  }

  lemma DivShift(p: int, d: int, e: int)
    requires 0 < d && 0 <= p % d + e < d
    ensures (p + e) / d == p / d && (p + e) % d == p % d + e
  {
    DivUnique(p + e, d, p / d, p % d + e);
  }

  lemma DivBelow(p: int, d: int, n: int)
    requires 0 < d
    ensures p / d < n <==> p < d * n
  {
    var t, o := p / d, p % d;
    assert p == d * t + o;
    if t < n { MulMono(t + 1, n, d); } else { MulMono(n, t, d); }
  }

  lemma IdxInRange(dir: Dir, len: int, p: nat)
    requires IsLen(len) && p < 256
    ensures 0 < Idx(dir, len, p) < 256
    ensures dir.Inverse? ==> Idx(dir, len, p) == 3 * (128 / len) - 1 - Idx(Forward, len, p)
  {
    Partner(len, p);
  }

  // -------------------------------------------------------------------------------------------
  // Butterflies and levels
  // -------------------------------------------------------------------------------------------

  /** A butterfly on lanes, given the multiplier and its twin. */
  function LaneFly(dir: Dir, lo: i16, hi: i16, z: i16, zq: i16, q: i16): (i16, i16) {
    if dir.Forward? then
      var t := MontMul(hi, z, zq, q);
      (Wrap16(lo + t), Wrap16(lo - t))
    else
      (Wrap16(lo + hi), MontMul(Wrap16(lo - hi), z, zq, q))
  }

  /** The multiplier a level takes from table entry `k`; inverse levels negate it. */
  function Multiplier(dir: Dir, second: bool, k: nat): i16
    requires k < 256
  {
    if dir.Forward? then Zeta(second, k) else Wrap16(0 - Zeta(second, k))
  }

  /** A butterfly on lanes at table index `k`. */
  function MFly(dir: Dir, second: bool, k: nat, lo: i16, hi: i16): (i16, i16)
    requires k < 256
  {
    var z := Multiplier(dir, second, k);
    LaneFly(dir, lo, hi, z, Twin(second, z), Q(second))
  }

  function MAt(dir: Dir, second: bool, len: int, s: Block, p: nat): i16
    requires IsLen(len) && p < 256
  {
    Partner(len, p);
    IdxInRange(dir, len, p);
    var k := Idx(dir, len, p);
    if Low(len, p) then MFly(dir, second, k, s[p], s[p + len]).0 else MFly(dir, second, k, s[p - len], s[p]).1
  }

  /** A whole level on lanes. */
  function MLevel(dir: Dir, second: bool, len: int, s: Block): (r: Block)
    requires IsLen(len)
  {
    seq(256, p requires 0 <= p < 256 => MAt(dir, second, len, s, p))
  }

  function MBarrett(second: bool, s: Block): (r: Block) {
    seq(256, p requires 0 <= p < 256 => Barrett(s[p], BarrettM(second), Q(second)))
  }

  /** The butterfly a level stands for, on integers with the plain twiddle. */
  ghost function Fly(dir: Dir, second: bool, k: nat, lo: int, hi: int): (int, int)
    requires k < 256
  {
    var z := Root(second, k);
    if dir.Forward? then (lo + hi * z, lo - hi * z) else (lo + hi, (lo - hi) * -z)
  }

  ghost function At(dir: Dir, second: bool, len: int, x: Poly, p: nat): int
    requires IsLen(len) && p < 256
  {
    Partner(len, p);
    IdxInRange(dir, len, p);
    var k := Idx(dir, len, p);
    if Low(len, p) then Fly(dir, second, k, x[p], x[p + len]).0 else Fly(dir, second, k, x[p - len], x[p]).1
  }

  /** A whole level on integers. */
  ghost function Level(dir: Dir, second: bool, len: int, x: Poly): (r: Poly)
    requires IsLen(len)
  {
    seq(256, p requires 0 <= p < 256 => At(dir, second, len, x, p))
  }

  /** What a level on lanes leaves at a pair of partners. */
  lemma MLevelPair(dir: Dir, second: bool, len: int, s: Block, p: nat)
    requires IsLen(len) && p < 256 && Low(len, p)
    ensures p + len < 256 && Idx(dir, len, p) < 256
    ensures MLevel(dir, second, len, s)[p] == MFly(dir, second, Idx(dir, len, p), s[p], s[p + len]).0
    ensures MLevel(dir, second, len, s)[p + len] == MFly(dir, second, Idx(dir, len, p), s[p], s[p + len]).1
  {
    Partner(len, p);
    IdxInRange(dir, len, p);
    IdxInRange(dir, len, p + len);
    IdxOfPartner(dir, len, p);
    hide MFly, Idx, Low, IsLen, Blk;
    assert MLevel(dir, second, len, s)[p] == MAt(dir, second, len, s, p);
    assert MLevel(dir, second, len, s)[p + len] == MAt(dir, second, len, s, p + len);
  }

  lemma IdxOfPartner(dir: Dir, len: int, p: nat)
    requires IsLen(len) && p + len < 256 && Blk(len, p + len) == Blk(len, p)
    ensures Idx(dir, len, p + len) == Idx(dir, len, p)
  {
  }

  /** Position `o` of block `t`, when it lies in the first half. */
  lemma BlockPosition(dir: Dir, len: int, t: nat, o: nat, p: nat)
    requires IsLen(len) && o < len && t < 128 / len && p == 2 * len * t + o
    ensures p + len < 256 && Low(len, p)
    ensures Idx(dir, len, p) == if dir.Forward? then 128 / len + t else 256 / len - 1 - t
  {
    hide IsLen;
    LenFacts(len);
    MulMono(t + 1, 128 / len, 2 * len);
    DivUnique(p, 2 * len, t, o);
  }

  /** The two halves of a butterfly block, spelt out. */
  lemma LevelAt(dir: Dir, second: bool, len: int, x: Poly, p: nat)
    requires IsLen(len) && p < 256
    ensures 0 < Idx(dir, len, p) < 256
    ensures Low(len, p) ==> p + len < 256
    ensures Low(len, p) ==> Level(dir, second, len, x)[p] == Fly(dir, second, Idx(dir, len, p), x[p], x[p + len]).0
    ensures !Low(len, p) ==> p >= len
    ensures !Low(len, p) ==> Level(dir, second, len, x)[p] == Fly(dir, second, Idx(dir, len, p), x[p - len], x[p]).1
  {
    hide Fly, Idx, Low, IsLen, Blk;
    Partner(len, p);
    IdxInRange(dir, len, p);
  }

  /** Both partners at once. */
  lemma LevelPair(dir: Dir, second: bool, len: int, x: Poly, p: nat)
    requires IsLen(len) && p < 256 && Low(len, p)
    ensures p + len < 256 && 0 < Idx(dir, len, p) < 256
    ensures Level(dir, second, len, x)[p] == Fly(dir, second, Idx(dir, len, p), x[p], x[p + len]).0
    ensures Level(dir, second, len, x)[p + len] == Fly(dir, second, Idx(dir, len, p), x[p], x[p + len]).1
  {
    Partner(len, p);
    IdxInRange(dir, len, p);
    IdxInRange(dir, len, p + len);
    IdxOfPartner(dir, len, p);
    hide Fly, Idx, Low, IsLen, Blk;
    assert Level(dir, second, len, x)[p] == At(dir, second, len, x, p);
    assert Level(dir, second, len, x)[p + len] == At(dir, second, len, x, p + len);
  }

  // -------------------------------------------------------------------------------------------
  // A level on lanes is that level on integers, modulo the prime, and stays inside the lane
  // -------------------------------------------------------------------------------------------

  /** Lanes `s` are bounded by `bound` and stand for the integers `x` modulo the prime. */
  ghost predicate Repr(s: Block, x: Poly, second: bool, bound: int) {
    forall p :: 0 <= p < 256 ==> LaneOk(s[p], x[p], second, bound)
  }

  ghost predicate LaneOk(a: i16, x: int, second: bool, bound: int) {
    -bound <= a <= bound && Cong(a, x, Q(second))
  }

  /** The largest lane a level can produce from lanes up to `bound`. */
  function Grow(dir: Dir, second: bool, bound: int): int {
    if dir.Forward? then bound + MontBound(second, bound)
    else if MontBound(second, 2 * bound) <= 2 * bound then 2 * bound
    else MontBound(second, 2 * bound)
  }

  /** No addition or subtraction of the level wraps. */
  predicate Fits(dir: Dir, second: bool, bound: int) {
    Grow(dir, second, bound) <= 0x7FFF
  }

  lemma MultiplierOk(dir: Dir, second: bool, k: nat)
    requires k < 256
    ensures var z := Multiplier(dir, second, k);
            -HalfQ(second) <= z <= HalfQ(second)
            && z == if dir.Forward? then Zeta(second, k) else -Zeta(second, k)
  {
    hide Tables.Zeta;
    Centred(second, k);
  }

  lemma FlyCorrect(dir: Dir, second: bool, k: nat, lo: i16, hi: i16, x: int, y: int, bound: int)
    requires k < 256 && Fits(dir, second, bound)
    requires LaneOk(lo, x, second, bound) && LaneOk(hi, y, second, bound)
    ensures var (a, b) := MFly(dir, second, k, lo, hi);
            var (c, d) := Fly(dir, second, k, x, y);
            LaneOk(a, c, second, Grow(dir, second, bound)) && LaneOk(b, d, second, Grow(dir, second, bound))
  {
    hide Multiplier, MontMul, MontBound, Cong, Twin, Q, HalfQ, Root;
    var q := Q(second);
    if dir.Forward? {
      var t := MFactor(dir, second, k, hi);
      FactorCorrect(dir, second, k, hi, y, bound);
      Add(lo, x, t, y * Root(second, k), q);
      Sub(lo, x, t, y * Root(second, k), q);
    } else {
      Add(lo, x, hi, y, q);
      Sub(lo, x, hi, y, q);
      FactorCorrect(dir, second, k, lo - hi, x - y, 2 * bound);
    }
  }

  /** A lane times the level's multiplier. */
  function MFactor(dir: Dir, second: bool, k: nat, a: i16): i16
    requires k < 256
  {
    var z := Multiplier(dir, second, k);
    MontMul(a, z, Twin(second, z), Q(second))
  }

  lemma FactorCorrect(dir: Dir, second: bool, k: nat, a: i16, x: int, bound: int)
    requires k < 256 && 0 <= bound && -bound <= a <= bound && Cong(a, x, Q(second))
    ensures -MontBound(second, bound) <= MFactor(dir, second, k, a) <= MontBound(second, bound)
    ensures Cong(MFactor(dir, second, k, a), x * (if dir.Forward? then Root(second, k) else -Root(second, k)),
            Q(second))
  {
    hide Multiplier, MontMul, MontBound, Cong, Twin, Q, HalfQ, RInv, Tables.Zeta;
    var z := Multiplier(dir, second, k);
    MultiplierOk(dir, second, k);
    MontMulCentred(a, z, second, bound);
    var w := z * RInv(second);
    Scale(a, x, w, Q(second));
    SignedProduct(Zeta(second, k), RInv(second));
    assert w == if dir.Forward? then Root(second, k) else -Root(second, k);
    Trans(MFactor(dir, second, k, a), a * w, x * w, Q(second));
  }

  lemma SignedProduct(z: int, i: int)
    ensures -z * i == -(z * i)
  {
  }

  lemma LevelCorrect(dir: Dir, second: bool, len: int, s: Block, x: Poly, bound: int)
    requires IsLen(len) && Fits(dir, second, bound) && Repr(s, x, second, bound)
    ensures Repr(MLevel(dir, second, len, s), Level(dir, second, len, x), second, Grow(dir, second, bound))
  {
    hide LaneOk, Fits, Grow, MFly, Fly, Idx, Low;
    var r, y := MLevel(dir, second, len, s), Level(dir, second, len, x);
    forall p | 0 <= p < 256
      ensures LaneOk(r[p], y[p], second, Grow(dir, second, bound))
    {
      Partner(len, p);
      IdxInRange(dir, len, p);
      var i, j := if Low(len, p) then p else p - len, if Low(len, p) then p + len else p;
      FlyCorrect(dir, second, Idx(dir, len, p), s[i], s[j], x[i], x[j], bound);
    }
  }

  lemma BarrettBlockCorrect(second: bool, s: Block, x: Poly, bound: int)
    requires Repr(s, x, second, bound)
    ensures Repr(MBarrett(second, s), x, second, HalfQ(second))
  {
    hide Barrett, Cong, Q, HalfQ, BarrettM;
    var r := MBarrett(second, s);
    forall p | 0 <= p < 256
      ensures LaneOk(r[p], x[p], second, HalfQ(second))
    {
      BarrettCorrect(s[p], second);
      assert LaneOk(s[p], x[p], second, bound);
      Trans(r[p], s[p], x[p], Q(second));
    }
  }
}
