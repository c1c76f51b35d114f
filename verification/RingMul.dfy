/** The multiplication pipeline as a function of its inputs: transform, accumulate pointwise
    products, reduce, invert, reconstruct.  It returns the exact integer product modulo 2^16,
    whichever backend transformed the operands. */
module RingMul {
  import opened Words
  import opened Congruence
  import opened Params
  import opened Lane
  import opened Levels
  import opened Polynomial
  import opened Transform
  import opened Schedules

  datatype Backend = Portable | Neon | Avx2

  /** A ring element: 256 wrapping 16-bit coefficients, lowest degree first. */
  type Elem = e: seq<u16> | |e| == 256 witness seq(256, _ => 0)

  /** A transformed ring element: residues modulo 7681, then modulo 10753. */
  type NttElem = u: seq<i16> | |u| == 512 witness seq(512, _ => 0)

  /** The pointwise accumulator, laid out the same way. */
  type Acc = a: seq<i32> | |a| == 512 witness seq(512, _ => 0)

  /** The coefficients read as the signed values their 16 bits encode. */
  function Signed(e: Elem): Poly {
    seq(256, i requires 0 <= i < 256 => Wrap16(e[i]))
  }

  function ForwardBlock(backend: Backend, second: bool, s: Block): Block {
    match backend
    case Portable => PortableNtt(second, s)
    case Neon => NeonNtt(second, s)
    case Avx2 => Avx2Ntt(second, s)
  }

  /** The lanes the transform starts from.  Secrets are centred residues already and skip the
      reduction. */
  function Split(second: bool, reduce: bool, e: Elem): Block {
    seq(256, i requires 0 <= i < 256 =>
      if reduce then Barrett(Wrap16(e[i]), BarrettM(second), Q(second)) else Wrap16(e[i]))
  }

  function FromElem(backend: Backend, reduce: bool, e: Elem): NttElem {
    ForwardBlock(backend, false, Split(false, reduce, e)) + ForwardBlock(backend, true, Split(true, reduce, e))
  }

  /** The half of an `NttElem` or accumulator that belongs to one prime. */
  function Half<T>(second: bool, u: seq<T>): (h: seq<T>)
    requires |u| == 512
    ensures |h| == 256
  {
    if second then u[256..] else u[..256]
  }

  function MReduce(second: bool, acc: Acc): Block {
    seq(256, i requires 0 <= i < 256 => MontReduce(Half(second, acc)[i], QInv(second), Q(second)))
  }

  function ReduceInv(acc: Acc): Elem {
    var v1 := InvBlock(false, MReduce(false, acc));
    var v2 := InvBlock(true, MReduce(true, acc));
    seq(256, i requires 0 <= i < 256 => Garner(v1[i], v2[i]))
  }

  // -------------------------------------------------------------------------------------------
  // Forward
  // -------------------------------------------------------------------------------------------

  /** `u` is a transform of `a`: centred, and congruent to it for both primes. */
  ghost predicate IsTransform(u: NttElem, a: Poly) {
    Repr(Half(false, u), Ntt(false, a), false, HalfQ(false)) && Repr(Half(true, u), Ntt(true, a), true, HalfQ(true))
  }

  lemma SplitCorrect(second: bool, reduce: bool, e: Elem)
    requires reduce || forall i :: 0 <= i < 256 ==> -3840 <= Signed(e)[i] <= 3840
    ensures Repr(Split(second, reduce, e), Signed(e), second, HalfQ(second))
  {
    hide Barrett, Cong, Wrap16, BarrettM, Q;
    forall i | 0 <= i < 256
      ensures LaneOk(Split(second, reduce, e)[i], Signed(e)[i], second, HalfQ(second))
    {
      assert Signed(e)[i] == Wrap16(e[i]);
      if reduce { BarrettCorrect(Wrap16(e[i]), second); } else { Refl(Wrap16(e[i]), Q(second)); }
    }
  }

  lemma ForwardBlockCorrect(backend: Backend, second: bool, s: Block, x: Poly)
    requires Repr(s, x, second, HalfQ(second))
    ensures Repr(ForwardBlock(backend, second, s), Ntt(second, x), second, HalfQ(second))
  {
    hide Repr, PortableNtt, NeonNtt, Avx2Ntt, Ntt;
    match backend
    case Portable => PortableNttCorrect(second, s, x);
    case Neon => NeonNttCorrect(second, s, x);
    case Avx2 => Avx2NttCorrect(second, s, x);
  }

  /** What the transforms start from. */
  predicate IsCentred(second: bool, s: Block) {
    forall i :: 0 <= i < 256 ==> -HalfQ(second) <= s[i] <= HalfQ(second)
  }

  /** Whatever the schedule and the data layout, the backends' transforms of a centred block agree
      modulo the prime, entry by entry, and stay centred. */
  lemma BackendsAgree(b1: Backend, b2: Backend, second: bool, s: Block, p: nat)
    requires p < 256 && IsCentred(second, s)
    ensures Cong(ForwardBlock(b1, second, s)[p], ForwardBlock(b2, second, s)[p], Q(second))
    ensures -HalfQ(second) <= ForwardBlock(b1, second, s)[p] <= HalfQ(second)
  {
    CentredRepr(second, s);
    ForwardBlockCorrect(b1, second, s, s);
    ForwardBlockCorrect(b2, second, s, s);
    hide ForwardBlock, Ntt, HalfQ, Q, Cong;
    var u, v, x := ForwardBlock(b1, second, s), ForwardBlock(b2, second, s), Ntt(second, s);
    assert LaneOk(u[p], x[p], second, HalfQ(second)) && LaneOk(v[p], x[p], second, HalfQ(second));
    Sym(v[p], x[p], Q(second));
    Trans(u[p], x[p], v[p], Q(second));
  }

  lemma CentredRepr(second: bool, s: Block)
    requires IsCentred(second, s)
    ensures Repr(s, s, second, HalfQ(second))
  {
    hide Cong, Q, HalfQ;
    forall i | 0 <= i < 256 ensures LaneOk(s[i], s[i], second, HalfQ(second)) { Refl(s[i], Q(second)); }
  }

  /** `t` is `c` times `s`, entry by entry modulo the prime, in representatives smaller than the
      prime. */
  ghost predicate IsScaled(second: bool, c: int, s: Block, t: Block) {
    forall p :: 0 <= p < 256 ==> ScaledAt(second, c, s[p], t[p])
  }

  ghost predicate ScaledAt(second: bool, c: int, x: int, a: i16) {
    Cong(a, c * x, Q(second)) && -Q(second) < a < Q(second)
  }

  /** The inverse transform of any backend's forward transform is 2^16 times the block. */
  lemma InverseUndoesForward(backend: Backend, second: bool, s: Block)
    requires IsCentred(second, s)
    ensures IsScaled(second, R, s, InvBlock(second, ForwardBlock(backend, second, s)))
  {
    hide *;
    CentredRepr(second, s);
    ForwardBlockCorrect(backend, second, s, s);
    var u, y := ForwardBlock(backend, second, s), Ntt(second, s);
    Widened(second, u, y);
    Once(y, Q(second));
    forall p | 0 <= p < 256 ensures ScaledAt(second, R, s[p], InvBlock(second, u)[p]) {
      InvBlockCorrect(second, u, y, s, 1, p);
      ScaledOnce(second, s[p], InvBlock(second, u)[p]);
    }
    ScaledAll(second, R, s, InvBlock(second, u));
  }

  lemma ScaledOnce(second: bool, x: int, a: i16)
    requires Cong(a, R * (1 * x), Q(second)) && -Q(second) < a < Q(second)
    ensures ScaledAt(second, R, x, a)
  {
  }

  lemma ScaledAll(second: bool, c: int, s: Block, t: Block)
    requires forall p :: 0 <= p < 256 ==> ScaledAt(second, c, s[p], t[p])
    ensures IsScaled(second, c, s, t)
  {
    hide ScaledAt;
  }

  lemma Widened(second: bool, s: Block, x: Poly)
    requires Repr(s, x, second, HalfQ(second))
    ensures Repr(s, x, second, 8191)
  {
    hide Cong, Q;
    forall i | 0 <= i < 256 ensures LaneOk(s[i], x[i], second, 8191) {
      assert LaneOk(s[i], x[i], second, HalfQ(second));
    }
  }

  lemma Once(y: Poly, q: int)
    ensures Multiple(y, 1, y, q)
  {
    forall p | 0 <= p < 256 ensures Cong(y[p], 1 * y[p], q) { Refl(y[p], q); }
  }

  /** Every backend's forward transform is a transform of the element it was given. */
  lemma FromElemCorrect(backend: Backend, reduce: bool, e: Elem)
    requires reduce || forall i :: 0 <= i < 256 ==> -3840 <= Signed(e)[i] <= 3840
    ensures IsTransform(FromElem(backend, reduce, e), Signed(e))
  {
    hide Repr, ForwardBlock, Ntt, Split, Signed;
    var u := FromElem(backend, reduce, e);
    SplitCorrect(false, reduce, e);
    SplitCorrect(true, reduce, e);
    ForwardBlockCorrect(backend, false, Split(false, reduce, e), Signed(e));
    ForwardBlockCorrect(backend, true, Split(true, reduce, e), Signed(e));
    assert Half(false, u) == ForwardBlock(backend, false, Split(false, reduce, e));
    assert Half(true, u) == ForwardBlock(backend, true, Split(true, reduce, e));
  }

  // -------------------------------------------------------------------------------------------
  // Inner products
  // -------------------------------------------------------------------------------------------

  /** The sum of the first `n` ring products. */
  function DotPoly(a: seq<Poly>, b: seq<Poly>, n: nat): (c: Poly)
    requires n <= |a| && n <= |b|
  {
    if n == 0 then seq(256, _ => 0)
    else
      var c := DotPoly(a, b, n - 1);
      seq(256, k requires 0 <= k < 256 => c[k] + NegaMul(a[n - 1], b[n - 1])[k])
  }

  /** The sum of the first `n` pointwise products in lane `i`. */
  function DotLane(u: seq<NttElem>, v: seq<NttElem>, n: nat, i: nat): int
    requires n <= |u| && n <= |v| && i < 512
  {
    if n == 0 then 0 else DotLane(u, v, n - 1, i) + u[n - 1][i] as int * v[n - 1][i] as int
  }

  ghost predicate AreTransforms(u: seq<NttElem>, a: seq<Poly>) {
    |u| == |a| && forall j :: 0 <= j < |u| ==> IsTransform(u[j], a[j])
  }

  /** The lane of prime `second` at position `p`. */
  function LaneIndex(second: bool, p: nat): nat {
    if second then 256 + p else p
  }

  lemma TransformLane(u: NttElem, a: Poly, second: bool, p: nat)
    requires p < 256 && IsTransform(u, a)
    ensures var x := u[LaneIndex(second, p)];
            -HalfQ(second) <= x <= HalfQ(second) && Cong(x, Eval(a, Leaf(second, p)), Q(second))
  {
    hide Ntt, Cong, Leaf, Eval;
    assert Half(second, u)[p] == u[LaneIndex(second, p)];
    assert LaneOk(Half(second, u)[p], Ntt(second, a)[p], second, HalfQ(second));
    NttIsEval(second, a, p);
    Trans(u[LaneIndex(second, p)], Ntt(second, a)[p], Eval(a, Leaf(second, p)), Q(second));
  }

  /** At most four products keep the accumulator in its budget, and the sum of pointwise products
      is the value of the sum of ring products at the lane's leaf. */
  lemma {:induction false} DotLaneCorrect(u: seq<NttElem>, v: seq<NttElem>, a: seq<Poly>, b: seq<Poly>, n: nat,
                                          second: bool, p: nat)
    requires AreTransforms(u, a) && AreTransforms(v, b) && n <= |u| && n <= |v| && p < 256
    ensures var x := DotLane(u, v, n, LaneIndex(second, p));
            && -(n * (HalfQ(second) * HalfQ(second))) <= x <= n * (HalfQ(second) * HalfQ(second))
            && Cong(x, Eval(DotPoly(a, b, n), Leaf(second, p)), Q(second))
  {
    hide Ntt, Cong, Leaf, Eval, Q, HalfQ, IsTransform, NegaMul;
    var leaf, q, h := Leaf(second, p), Q(second), HalfQ(second);
    if n == 0 {
      EvalZero(DotPoly(a, b, 0), leaf);
      Refl(0, q);
    } else {
      var j, i := n - 1, LaneIndex(second, p);
      DotLaneCorrect(u, v, a, b, j, second, p);
      var x: int, y: int := u[j][i], v[j][i];
      TransformLane(u[j], a[j], second, p);
      TransformLane(v[j], b[j], second, p);
      LaneProduct(x, y, a[j], b[j], second, p);
      EvalCombine(DotPoly(a, b, j), NegaMul(a[j], b[j]), DotPoly(a, b, n), 1, leaf);
      Add(DotLane(u, v, j, i), Eval(DotPoly(a, b, j), leaf), x * y, Eval(NegaMul(a[j], b[j]), leaf), q);
      assert n * (h * h) == j * (h * h) + h * h;
    }
  }

  lemma LaneProduct(x: int, y: int, a: Poly, b: Poly, second: bool, p: nat)
    requires p < 256
    requires -HalfQ(second) <= x <= HalfQ(second) && Cong(x, Eval(a, Leaf(second, p)), Q(second))
    requires -HalfQ(second) <= y <= HalfQ(second) && Cong(y, Eval(b, Leaf(second, p)), Q(second))
    ensures -(HalfQ(second) * HalfQ(second)) <= x * y <= HalfQ(second) * HalfQ(second)
    ensures Cong(x * y, Eval(NegaMul(a, b), Leaf(second, p)), Q(second))
  {
    hide *;
    var leaf, q := Leaf(second, p), Q(second);
    AbsMul(x, y, HalfQ(second), HalfQ(second));
    Mul(x, Eval(a, leaf), y, Eval(b, leaf), q);
    LeafTo256(second, p);
    EvalProduct(a, b, leaf, q);
    Sym(Eval(NegaMul(a, b), leaf), Eval(a, leaf) * Eval(b, leaf), q);
    Trans(x * y, Eval(a, leaf) * Eval(b, leaf), Eval(NegaMul(a, b), leaf), q);
  }

  // -------------------------------------------------------------------------------------------
  // Inverse
  // -------------------------------------------------------------------------------------------

  /** The accumulator holds centred-residue inner products of the transforms. */
  ghost predicate Accumulates(acc: Acc, c: Poly) {
    forall second, p :: 0 <= p < 256 ==>
      var x := acc[LaneIndex(second, p)];
      -AccBound(second) <= x <= AccBound(second) && Cong(x, Eval(c, Leaf(second, p)), Q(second))
  }

  /** What the inverse transform is fed, as integers: the accumulator times 2^-16. */
  ghost function Fed(second: bool, acc: Acc): Poly {
    seq(256, p requires 0 <= p < 256 => Half(second, acc)[p] * RInv(second))
  }

  lemma FedCorrect(second: bool, acc: Acc, c: Poly)
    requires Accumulates(acc, c)
    ensures Repr(MReduce(second, acc), Fed(second, acc), second, 8191)
    ensures Multiple(Fed(second, acc), RInv(second), Ntt(second, c), Q(second))
  {
    hide Cong, Q, RInv, QInv, Ntt, MontReduce, AccBound, Eval, Leaf;
    var y := Fed(second, acc);
    forall p | 0 <= p < 256
      ensures LaneOk(MReduce(second, acc)[p], y[p], second, 8191)
      ensures Cong(y[p], RInv(second) * Ntt(second, c)[p], Q(second))
    {
      var a := acc[LaneIndex(second, p)];
      assert Half(second, acc)[p] == a;
      MontReduceCorrect(a, second);
      NttIsEval(second, c, p);
      Sym(Ntt(second, c)[p], Eval(c, Leaf(second, p)), Q(second));
      Trans(a, Eval(c, Leaf(second, p)), Ntt(second, c)[p], Q(second));
      Scale(a, Ntt(second, c)[p], RInv(second), Q(second));
    }
  }

  lemma ResidueCorrect(second: bool, acc: Acc, c: Poly, p: nat)
    requires p < 256 && Accumulates(acc, c)
    ensures var r := InvBlock(second, MReduce(second, acc))[p];
            Cong(r, c[p], Q(second)) && -Q(second) < r < Q(second)
  {
    hide *;
    var r, i, q := InvBlock(second, MReduce(second, acc))[p], RInv(second), Q(second);
    FedCorrect(second, acc, c);
    InvBlockCorrect(second, MReduce(second, acc), Fed(second, acc), c, i, p);
    Constants(second);
    Scale(R * i, 1, c[p], q);
    assert c[p] * (R * i) == R * (i * c[p]);
    Trans(r, R * (i * c[p]), c[p], q);
  }

  /** An accumulator of transforms of an integer polynomial within the CRT range is turned back into
      exactly that polynomial, modulo 2^16. */
  lemma ReduceInvCorrect(acc: Acc, c: Poly, p: nat)
    requires p < 256 && Accumulates(acc, c) && -CRT_Q_HALF <= c[p] <= CRT_Q_HALF
    ensures ReduceInv(acc)[p] == WrapU16(c[p])
  {
    hide InvBlock, MReduce, Garner, WrapU16, Accumulates, Cong;
    ResidueCorrect(false, acc, c, p);
    ResidueCorrect(true, acc, c, p);
    GarnerCorrect(InvBlock(false, MReduce(false, acc))[p], InvBlock(true, MReduce(true, acc))[p], c[p]);
  }

  // -------------------------------------------------------------------------------------------
  // The exactness bound, and the whole pipeline
  // -------------------------------------------------------------------------------------------

  ghost predicate Bounded(a: Poly, m: int) {
    forall i :: 0 <= i < 256 ==> -m <= a[i] <= m
  }

  lemma {:induction false} NegaSumBound(a: Poly, b: Poly, k: nat, n: nat, l: int, m: int)
    requires k < 256 && n <= 256 && Bounded(a, l) && Bounded(b, m)
    ensures -(n * (l * m)) <= NegaSum(a, b, k, n) <= n * (l * m)
  {
    if n > 0 {
      var i := n - 1;
      NegaSumBound(a, b, k, i, l, m);
      AbsMul(a[i], b[if i <= k then k - i else 256 + k - i], l, m);
      assert n * (l * m) == i * (l * m) + l * m;
    }
  }

  lemma DotPolyAt(a: seq<Poly>, b: seq<Poly>, n: nat, k: nat)
    requires 0 < n <= |a| && n <= |b| && k < 256
    ensures DotPoly(a, b, n)[k] == DotPoly(a, b, n - 1)[k] + NegaSum(a[n - 1], b[n - 1], k, 256)
  {
    assert DotPoly(a, b, n)[k] == DotPoly(a, b, n - 1)[k] + NegaMul(a[n - 1], b[n - 1])[k];
  }

  lemma {:induction false} DotPolyBound(a: seq<Poly>, b: seq<Poly>, n: nat, k: nat, l: int, m: int)
    requires n <= |a| && n <= |b| && k < 256
    requires forall j :: 0 <= j < n ==> Bounded(a[j], l) && Bounded(b[j], m)
    ensures -(n * (256 * (l * m))) <= DotPoly(a, b, n)[k] <= n * (256 * (l * m))
  {
    if n > 0 {
      var w := 256 * (l * m);
      DotPolyBound(a, b, n - 1, k, l, m);
      NegaSumBound(a[n - 1], b[n - 1], k, 256, l, m);
      DotPolyAt(a, b, n, k);
      assert n * w == (n - 1) * w + w;
    }
  }

  /** The pipeline returns the inner product modulo 2^16.  `acc` holds the sums of pointwise
      products of the transforms; the operands may come from any of the backends. */
  lemma PipelineCorrect(u: seq<NttElem>, v: seq<NttElem>, a: seq<Poly>, b: seq<Poly>, acc: Acc, l: int, m: int, k: nat)
    requires AreTransforms(u, a) && AreTransforms(v, b) && |u| == |v| <= 4 && k < 256
    requires forall i :: 0 <= i < 512 ==> acc[i] == DotLane(u, v, |u|, i)
    requires forall j :: 0 <= j < |a| ==> Bounded(a[j], l) && Bounded(b[j], m)
    requires |a| * (256 * (l * m)) <= CRT_Q_HALF
    ensures ReduceInv(acc)[k] == WrapU16(DotPoly(a, b, |a|)[k])
  {
    hide IsTransform, ReduceInv, Cong, Leaf, Eval, DotPoly, DotLane, WrapU16, Bounded, Q;
    var n, c := |a|, DotPoly(a, b, |a|);
    forall second, p | 0 <= p < 256
      ensures var x := acc[LaneIndex(second, p)];
              -AccBound(second) <= x <= AccBound(second) && Cong(x, Eval(c, Leaf(second, p)), Q(second))
    {
      DotLaneCorrect(u, v, a, b, n, second, p);
      MulMono(n, 4, HalfQ(second) * HalfQ(second));
    }
    DotPolyBound(a, b, n, k, l, m);
    ReduceInvCorrect(acc, c, k);
  }
}
