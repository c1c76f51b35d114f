/** The three orders in which the source interleaves butterfly levels with Barrett passes, on lanes.
    Every one of them keeps each lane inside an `i16` and computes the same transform modulo the
    prime; their integers differ. */
module Schedules {
  import opened Words
  import opened Congruence
  import opened Params
  import opened Lane
  import opened Levels
  import opened Transform

  function F(second: bool, len: int, s: Block): Block
    requires IsLen(len)
  {
    MLevel(Forward, second, len, s)
  }

  function I(second: bool, len: int, s: Block): Block
    requires IsLen(len)
  {
    MLevel(Inverse, second, len, s)
  }

  function B(second: bool, s: Block): Block {
    MBarrett(second, s)
  }

  /** Runs of 3, 3 and 2 levels. */
  function PortableNtt(second: bool, s: Block): Block {
    var s := B(second, F(second, 32, F(second, 64, F(second, 128, s))));
    var s := B(second, F(second, 4, F(second, 8, F(second, 16, s))));
    B(second, F(second, 1, F(second, 2, s)))
  }

  /** Runs of 4 and 4 levels. */
  function NeonNtt(second: bool, s: Block): Block {
    var s := B(second, F(second, 16, F(second, 32, F(second, 64, F(second, 128, s)))));
    B(second, F(second, 1, F(second, 2, F(second, 4, F(second, 8, s)))))
  }

  /** Runs of 3, 4 and 1 levels. */
  function Avx2Ntt(second: bool, s: Block): Block {
    var s := B(second, F(second, 32, F(second, 64, F(second, 128, s))));
    var s := B(second, F(second, 2, F(second, 4, F(second, 8, F(second, 16, s)))));
    B(second, F(second, 1, s))
  }

  /** The inverse order, the same in all three backends: a Barrett pass every second level. */
  function InvLevels(second: bool, s: Block): Block {
    var s := B(second, I(second, 2, I(second, 1, s)));
    var s := B(second, I(second, 8, I(second, 4, s)));
    var s := B(second, I(second, 32, I(second, 16, s)));
    I(second, 128, I(second, 64, s))
  }

  /** The final multiply, which removes the 1/256 and a Montgomery factor. */
  function MScale(second: bool, s: Block): Block {
    seq(256, p requires 0 <= p < 256 =>
      MontMul(s[p], InvNttScale(second), Twin(second, InvNttScale(second)), Q(second)))
  }

  function InvBlock(second: bool, s: Block): Block {
    MScale(second, InvLevels(second, s))
  }

  // -------------------------------------------------------------------------------------------
  // Growth budgets
  // -------------------------------------------------------------------------------------------

  /** The bound after `n` levels. */
  function GrowN(dir: Dir, second: bool, bound: int, n: nat): int {
    if n == 0 then bound else Grow(dir, second, GrowN(dir, second, bound, n - 1))
  }

  /** From a centred start four forward levels fit a lane, for either prime; for the larger prime
      a fifth need not. */
  lemma ForwardBudget(second: bool)
    ensures forall n :: 0 <= n < 4 ==> Fits(Forward, second, GrowN(Forward, second, HalfQ(second), n))
    ensures GrowN(Forward, second, HalfQ(second), 4) <= 0x7FFF
    ensures !Fits(Forward, true, GrowN(Forward, true, HalfQ(true), 4))
  {
    ForwardBounds(second);
    ForwardBounds(true);
  }

  lemma ForwardBounds(second: bool)
    ensures var h := HalfQ(second);
            && GrowN(Forward, second, h, 1) == (if second then 11193 else 7905)
            && GrowN(Forward, second, h, 2) == (if second then 17487 else 12208)
            && GrowN(Forward, second, h, 3) == (if second then 24297 else 16763)
            && GrowN(Forward, second, h, 4) == (if second then 31666 else 21585)
  {
    var h := HalfQ(second);
    assert GrowN(Forward, second, h, 1) == Grow(Forward, second, GrowN(Forward, second, h, 0));
    assert GrowN(Forward, second, h, 2) == Grow(Forward, second, GrowN(Forward, second, h, 1));
    assert GrowN(Forward, second, h, 3) == Grow(Forward, second, GrowN(Forward, second, h, 2));
    assert GrowN(Forward, second, h, 4) == Grow(Forward, second, GrowN(Forward, second, h, 3));
  }

  /** Two inverse levels fit, both from a Montgomery-reduced accumulator and from a centred start. */
  lemma InverseBudget(second: bool, bound: int)
    requires bound == 8191 || bound == HalfQ(second)
    ensures Fits(Inverse, second, bound) && Fits(Inverse, second, GrowN(Inverse, second, bound, 1))
    ensures GrowN(Inverse, second, HalfQ(second), 2) == 4 * HalfQ(second)
  {
    var h := HalfQ(second);
    assert GrowN(Inverse, second, h, 1) == Grow(Inverse, second, GrowN(Inverse, second, h, 0)) == 2 * h;
    assert GrowN(Inverse, second, h, 2) == Grow(Inverse, second, GrowN(Inverse, second, h, 1));
    assert GrowN(Inverse, second, bound, 1) == Grow(Inverse, second, GrowN(Inverse, second, bound, 0));
  }

  // -------------------------------------------------------------------------------------------
  // Every schedule computes the transform
  // -------------------------------------------------------------------------------------------

  /** One level further into a forward run. */
  lemma StepF(second: bool, len: int, s: Block, x: Poly, n: nat)
    requires IsLen(len) && n < 4 && Repr(s, x, second, GrowN(Forward, second, HalfQ(second), n))
    ensures Repr(F(second, len, s), Level(Forward, second, len, x), second,
            GrowN(Forward, second, HalfQ(second), n + 1))
  {
    hide MLevel, Level, Repr, Fits, Grow, HalfQ, IsLen;
    ForwardBudget(second);
    LevelCorrect(Forward, second, len, s, x, GrowN(Forward, second, HalfQ(second), n));
  }

  /** One level further into an inverse run. */
  lemma StepI(second: bool, len: int, s: Block, x: Poly, bound: int, n: nat)
    requires IsLen(len) && n < 2 && (bound == 8191 || bound == HalfQ(second))
    requires Repr(s, x, second, GrowN(Inverse, second, bound, n))
    ensures Repr(I(second, len, s), Level(Inverse, second, len, x), second, GrowN(Inverse, second, bound, n + 1))
  {
    hide MLevel, Level, Repr, Fits, Grow, HalfQ, IsLen;
    InverseBudget(second, bound);
    LevelCorrect(Inverse, second, len, s, x, GrowN(Inverse, second, bound, n));
  }

  /** A Barrett pass starts the next run. */
  lemma StepB(dir: Dir, second: bool, s: Block, x: Poly, bound: int)
    requires Repr(s, x, second, bound)
    ensures Repr(B(second, s), x, second, GrowN(dir, second, HalfQ(second), 0))
  {
    hide MBarrett, Repr, HalfQ;
    BarrettBlockCorrect(second, s, x, bound);
  }

  lemma PortableNttCorrect(second: bool, s: Block, x: Poly)
    requires Repr(s, x, second, HalfQ(second))
    ensures Repr(PortableNtt(second, s), Ntt(second, x), second, HalfQ(second))
  {
    hide F, B, Level, Repr, HalfQ, Grow;
    var h := HalfQ(second);
    var s1, x1 := F(second, 128, s), Level(Forward, second, 128, x);
    StepF(second, 128, s, x, 0);
    var s2, x2 := F(second, 64, s1), Level(Forward, second, 64, x1);
    StepF(second, 64, s1, x1, 1);
    var s3, x3 := F(second, 32, s2), Level(Forward, second, 32, x2);
    StepF(second, 32, s2, x2, 2);
    StepB(Forward, second, s3, x3, GrowN(Forward, second, h, 3));
    var t3 := B(second, s3);
    var s4, x4 := F(second, 16, t3), Level(Forward, second, 16, x3);
    StepF(second, 16, t3, x3, 0);
    var s5, x5 := F(second, 8, s4), Level(Forward, second, 8, x4);
    StepF(second, 8, s4, x4, 1);
    var s6, x6 := F(second, 4, s5), Level(Forward, second, 4, x5);
    StepF(second, 4, s5, x5, 2);
    StepB(Forward, second, s6, x6, GrowN(Forward, second, h, 3));
    var t6 := B(second, s6);
    var s7, x7 := F(second, 2, t6), Level(Forward, second, 2, x6);
    StepF(second, 2, t6, x6, 0);
    var s8, x8 := F(second, 1, s7), Level(Forward, second, 1, x7);
    StepF(second, 1, s7, x7, 1);
    StepB(Forward, second, s8, x8, GrowN(Forward, second, h, 2));
  }

  lemma NeonNttCorrect(second: bool, s: Block, x: Poly)
    requires Repr(s, x, second, HalfQ(second))
    ensures Repr(NeonNtt(second, s), Ntt(second, x), second, HalfQ(second))
  {
    hide F, B, Level, Repr, HalfQ, Grow;
    var h := HalfQ(second);
    var s1, x1 := F(second, 128, s), Level(Forward, second, 128, x);
    StepF(second, 128, s, x, 0);
    var s2, x2 := F(second, 64, s1), Level(Forward, second, 64, x1);
    StepF(second, 64, s1, x1, 1);
    var s3, x3 := F(second, 32, s2), Level(Forward, second, 32, x2);
    StepF(second, 32, s2, x2, 2);
    var s4, x4 := F(second, 16, s3), Level(Forward, second, 16, x3);
    StepF(second, 16, s3, x3, 3);
    StepB(Forward, second, s4, x4, GrowN(Forward, second, h, 4));
    var t4 := B(second, s4);
    var s5, x5 := F(second, 8, t4), Level(Forward, second, 8, x4);
    StepF(second, 8, t4, x4, 0);
    var s6, x6 := F(second, 4, s5), Level(Forward, second, 4, x5);
    StepF(second, 4, s5, x5, 1);
    var s7, x7 := F(second, 2, s6), Level(Forward, second, 2, x6);
    StepF(second, 2, s6, x6, 2);
    var s8, x8 := F(second, 1, s7), Level(Forward, second, 1, x7);
    StepF(second, 1, s7, x7, 3);
    StepB(Forward, second, s8, x8, GrowN(Forward, second, h, 4));
  }

  lemma Avx2NttCorrect(second: bool, s: Block, x: Poly)
    requires Repr(s, x, second, HalfQ(second))
    ensures Repr(Avx2Ntt(second, s), Ntt(second, x), second, HalfQ(second))
  {
    hide F, B, Level, Repr, HalfQ, Grow;
    var h := HalfQ(second);
    var s1, x1 := F(second, 128, s), Level(Forward, second, 128, x);
    StepF(second, 128, s, x, 0);
    var s2, x2 := F(second, 64, s1), Level(Forward, second, 64, x1);
    StepF(second, 64, s1, x1, 1);
    var s3, x3 := F(second, 32, s2), Level(Forward, second, 32, x2);
    StepF(second, 32, s2, x2, 2);
    StepB(Forward, second, s3, x3, GrowN(Forward, second, h, 3));
    var t3 := B(second, s3);
    var s4, x4 := F(second, 16, t3), Level(Forward, second, 16, x3);
    StepF(second, 16, t3, x3, 0);
    var s5, x5 := F(second, 8, s4), Level(Forward, second, 8, x4);
    StepF(second, 8, s4, x4, 1);
    var s6, x6 := F(second, 4, s5), Level(Forward, second, 4, x5);
    StepF(second, 4, s5, x5, 2);
    var s7, x7 := F(second, 2, s6), Level(Forward, second, 2, x6);
    StepF(second, 2, s6, x6, 3);
    StepB(Forward, second, s7, x7, GrowN(Forward, second, h, 4));
    var t7 := B(second, s7);
    var s8, x8 := F(second, 1, t7), Level(Forward, second, 1, x7);
    StepF(second, 1, t7, x7, 0);
    StepB(Forward, second, s8, x8, GrowN(Forward, second, h, 1));
  }

  lemma InvLevelsCorrect(second: bool, s: Block, y: Poly)
    requires Repr(s, y, second, 8191)
    ensures Repr(InvLevels(second, s), InvNtt(second, y), second, GrowN(Inverse, second, HalfQ(second), 2))
  {
    hide I, B, Level, Repr, HalfQ, Grow;
    var h := HalfQ(second);
    var s1, y1 := I(second, 1, s), Level(Inverse, second, 1, y);
    StepI(second, 1, s, y, 8191, 0);
    var s2, y2 := I(second, 2, s1), Level(Inverse, second, 2, y1);
    StepI(second, 2, s1, y1, 8191, 1);
    StepB(Inverse, second, s2, y2, GrowN(Inverse, second, 8191, 2));
    var t2 := B(second, s2);
    var s3, y3 := I(second, 4, t2), Level(Inverse, second, 4, y2);
    StepI(second, 4, t2, y2, h, 0);
    var s4, y4 := I(second, 8, s3), Level(Inverse, second, 8, y3);
    StepI(second, 8, s3, y3, h, 1);
    StepB(Inverse, second, s4, y4, GrowN(Inverse, second, h, 2));
    var t4 := B(second, s4);
    var s5, y5 := I(second, 16, t4), Level(Inverse, second, 16, y4);
    StepI(second, 16, t4, y4, h, 0);
    var s6, y6 := I(second, 32, s5), Level(Inverse, second, 32, y5);
    StepI(second, 32, s5, y5, h, 1);
    StepB(Inverse, second, s6, y6, GrowN(Inverse, second, h, 2));
    var t6 := B(second, s6);
    var s7, y7 := I(second, 64, t6), Level(Inverse, second, 64, y6);
    StepI(second, 64, t6, y6, h, 0);
    StepI(second, 128, s7, y7, h, 1);
  }

  /** The whole inverse transform: fed `c` times a forward transform, it returns `2^16 * c` times
      the polynomial, every lane below the prime in magnitude. */
  lemma InvBlockCorrect(second: bool, s: Block, y: Poly, x: Poly, c: int, p: nat)
    requires p < 256 && Repr(s, y, second, 8191) && Multiple(y, c, Ntt(second, x), Q(second))
    ensures Cong(InvBlock(second, s)[p], R * (c * x[p]), Q(second))
    ensures -Q(second) < InvBlock(second, s)[p] < Q(second)
  {
    hide InvLevels, MontMul, Twin, Cong, Multiple, Ntt, InvNtt, Grow;
    InvLevelsCorrect(second, s, y);
    InverseBudget(second, HalfQ(second));
    InverseOfNtt(second, y, x, c);
    var a := InvLevels(second, s)[p];
    assert LaneOk(a, InvNtt(second, y)[p], second, 4 * HalfQ(second));
    var scale := InvNttScale(second);
    MontMulCorrect(a, scale, second, 4 * HalfQ(second), scale);
    MultipleElim(InvNtt(second, y), 256 * c, x, Q(second), p);
    ScaleUndoes(InvBlock(second, s)[p], a, InvNtt(second, y)[p], x[p], c, second);
  }

  lemma ScaleUndoes(r: int, a: int, y: int, x: int, c: int, second: bool)
    requires Cong(r, a * (InvNttScale(second) * RInv(second)), Q(second))
    requires Cong(a, y, Q(second)) && Cong(y, 256 * c * x, Q(second))
    ensures Cong(r, R * (c * x), Q(second))
  {
    hide Cong, Q, RInv, InvNttScale;
    var q, i, f := Q(second), RInv(second), InvNttScale(second) * RInv(second);
    Trans(a, y, 256 * c * x, q);
    Scale(a, 256 * c * x, f, q);
    assert f * a == a * f && f * (256 * c * x) == c * x * (256 * f);
    Trans(r, a * f, c * x * (256 * f), q);
    Constants(second);
    Inverses(256 * f, i, q);
    Scale(256 * f, R, c * x, q);
    Trans(r, c * x * (256 * f), c * x * R, q);
    assert c * x * R == R * (c * x);
  }

  /** `u` and 2^16 are both inverses of `i`, so they agree. */
  lemma Inverses(u: int, i: int, q: int)
    requires Cong(R * i, 1, q) && Cong(i * u, 1, q)
    ensures Cong(u, R, q)
  {
    Scale(R * i, 1, u, q);
    Scale(i * u, 1, R, q);
    assert u * (R * i) == R * (i * u);
    Sym(u * (R * i), u * 1, q);
    Trans(u, u * (R * i), R, q);
  }

  /** The final scaling alone brings every lane below the prime, whatever it was fed. */
  lemma InvBlockRange(second: bool, s: Block, p: nat)
    requires p < 256
    ensures -Q(second) < InvBlock(second, s)[p] < Q(second)
  {
    hide InvLevels, MontMul, Twin, Cong;
    var scale := InvNttScale(second);
    MontMulCorrect(InvLevels(second, s)[p], scale, second, 0x8000, scale);
  }
}
