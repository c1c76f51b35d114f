/** What the eight levels compute, on integers modulo the prime: forward, the values of the
    polynomial at the 256 roots of X^256 + 1; inverse, the way back. */
module Transform {
  import opened Bits
  import opened Congruence
  import opened Params
  import opened Levels
  import opened Polynomial

  // -------------------------------------------------------------------------------------------
  // The tree of roots
  // -------------------------------------------------------------------------------------------

  /** The tree splits X^256 + 1 down to linear factors.  Node `j` holds a factor X^len - c, and this
      is `c`: node 1 is the whole polynomial, and node `k` splits with `Root(k)` and its negation. */
  ghost function NodeRoot(second: bool, j: nat): int
    requires 0 < j < 512
  {
    if j == 1 then -1 else if j % 2 == 0 then Root(second, j / 2) else -Root(second, j / 2)
  }

  lemma SquareExponent(k: nat)
    requires 0 < k < 256
    ensures k == 1 ==> Brv8(k) + Brv8(k) == 256
    ensures k > 1 ==> Brv8(k) + Brv8(k) == (if k % 2 == 0 then 0 else 256) + Brv8(k / 2)
  {
    hide Pow2;
    Pow2Of8();
    if k == 1 { PowerExponent(1); } else { BrvDouble(8, k / 2); }
  }

  /** The twiddle a node splits with squares to the node's own root. */
  lemma NodeSquare(second: bool, k: nat)
    requires 0 < k < 256
    ensures Cong(Root(second, k) * Root(second, k), NodeRoot(second, k), Q(second))
  {
    hide Root, Q, Psi, Cong, Pow, Brv;
    var r, p, q := Root(second, k), Psi(second), Q(second);
    RootIsPower(second, k);
    PowProduct(r, r, p, Brv8(k), Brv8(k), q);
    SquareExponent(k);
    PsiTo256(second);
    if k == 1 {
      Trans(r * r, Pow(p, 256), -1, q);
    } else {
      var h := Root(second, k / 2);
      RootIsPower(second, k / 2);
      Sym(h, Pow(p, Brv8(k / 2)), q);
      if k % 2 == 0 {
        Trans(r * r, Pow(p, Brv8(k / 2)), h, q);
      } else {
        PowAdd(p, 256, Brv8(k / 2));
        Mul(Pow(p, 256), -1, Pow(p, Brv8(k / 2)), h, q);
        Trans(r * r, Pow(p, 256 + Brv8(k / 2)), -1 * h, q);
      }
    }
  }

  /** Table entries that mirror each other within a level are negated inverses. */
  lemma MirrorRoots(second: bool, n: nat, k: nat)
    requires IsPowerBelow256(n) && n <= k < 2 * n
    ensures Cong(Root(second, k) * Root(second, 3 * n - 1 - k), -1, Q(second))
  {
    hide Root, Q, Psi, Cong, Pow, Brv;
    var k' := 3 * n - 1 - k;
    RootIsPower(second, k);
    RootIsPower(second, k');
    PowProduct(Root(second, k), Root(second, k'), Psi(second), Brv8(k), Brv8(k'), Q(second));
    Pow2Of8();
    BrvMirror(8, n, k);
    PsiTo256(second);
    Trans(Root(second, k) * Root(second, k'), Pow(Psi(second), 256), -1, Q(second));
  }

  /** The root of X^256 + 1 that position `p` of the transform belongs to. */
  ghost function Leaf(second: bool, p: nat): int
    requires p < 256
  {
    NodeRoot(second, 256 + p)
  }

  /** The source's formula for it: psi to the power `2 * brv8(p) + 1`. */
  lemma LeafIsOddPower(second: bool, p: nat)
    requires p < 256
    ensures Cong(Leaf(second, p), Pow(Psi(second), 2 * Brv8(p) + 1), Q(second))
  {
    hide Root, Q, Psi, Cong, Pow, Brv;
    var psi, q := Psi(second), Q(second);
    var k := 128 + p / 2;
    RootIsPower(second, k);
    LeafExponent(p);
    if p % 2 == 1 {
      PsiTo256(second);
      PowAdd(psi, 256, Brv8(k));
      Mul(Pow(psi, 256), -1, Pow(psi, Brv8(k)), Pow(psi, Brv8(k)), q) by { Refl(Pow(psi, Brv8(k)), q); }
      Scale(Root(second, k), Pow(psi, Brv8(k)), -1, q);
      Sym(Pow(psi, 256 + Brv8(k)), -1 * Pow(psi, Brv8(k)), q);
      Trans(-1 * Root(second, k), -1 * Pow(psi, Brv8(k)), Pow(psi, 256 + Brv8(k)), q);
    }
  }

  lemma LeafExponent(p: nat)
    requires p < 256
    ensures 2 * Brv8(p) + 1 == (if p % 2 == 0 then 0 else 256) + Brv8(128 + p / 2)
  {
    hide Pow2;
    Pow2Of8();
    BrvStep(8, 128, p / 2);
    PowerExponent(128);
    BrvDouble(8, p / 2);
    assert Brv8(p) == p % 2 * 128 + Brv(7, p / 2);
  }

  /** The node of half-width-`len` factors above leaf `p`. */
  function NodeAbove(len: int, p: nat): (j: nat)
    requires IsLen(len) || len == 256
    requires p < 256
  {
    256 / len + p / len
  }

  lemma HalfOfBlock(len: int, p: nat)
    requires IsLen(len)
    ensures Blk(len, p) == p / len / 2
    ensures Low(len, p) <==> p / len % 2 == 0
  {
    assert len > 0;
    hide IsLen;
    var a, b := p / len, p % len;
    if a % 2 == 0 {
      EvenHalf(len, p, a, b, a / 2);
    } else {
      OddHalf(len, p, a, b, a / 2);
    }
  }

  lemma EvenHalf(len: int, p: nat, a: int, b: int, t: int)
    requires 0 < len && p == len * a + b && 0 <= b < len && a == 2 * t
    ensures p / (2 * len) == t && p % (2 * len) == b
  {
    assert len * a == 2 * len * t;
    DivUnique(p, 2 * len, t, b);
  }

  lemma OddHalf(len: int, p: nat, a: int, b: int, t: int)
    requires 0 < len && p == len * a + b && 0 <= b < len && a == 2 * t + 1
    ensures p / (2 * len) == t && p % (2 * len) == len + b
  {
    assert len * a == 2 * len * t + len;
    DivUnique(p, 2 * len, t, len + b);
  }

  lemma NodeAboveRange(len: int, p: nat)
    requires IsLen(len) && p < 256
    ensures 0 < NodeAbove(len, p) < 512
    ensures NodeAbove(len, p) / 2 == Idx(Forward, len, p) && 0 < NodeAbove(len, p) / 2 < 256
    ensures NodeAbove(len, p) % 2 == 0 <==> Low(len, p)
  {
    hide IsLen, Blk, Low;
    LenFacts(len);
    HalfOfBlock(len, p);
    Partner(len, p);
  }

  lemma NodeAboveParent(len: int, p: nat)
    requires IsLen(len) && p < 256
    ensures 2 * len <= 256 && (IsLen(2 * len) || 2 * len == 256)
    ensures NodeAbove(2 * len, p) == Idx(Forward, len, p)
  {
    LenFacts(len);
  }

  lemma LeafPowerStep(second: bool, x: int, h: nat, j: nat)
    requires 1 < j < 512 && Cong(Pow(x, h), NodeRoot(second, j), Q(second))
    ensures Cong(Pow(x, h + h), NodeRoot(second, j / 2), Q(second))
  {
    hide Root, Q, Cong, Pow;
    var r, z, q := Root(second, j / 2), NodeRoot(second, j), Q(second);
    Mul(Pow(x, h), z, Pow(x, h), z, q);
    PowAdd(x, h, h);
    assert z * z == r * r;
    NodeSquare(second, j / 2);
    Trans(Pow(x, h + h), r * r, NodeRoot(second, j / 2), q);
  }

  lemma HalfLen(len: int)
    requires (IsLen(len) || len == 256) && len != 1
    ensures IsLen(len / 2) && len == len / 2 + len / 2 == 2 * (len / 2) && 0 < len / 2
  {
  }

  lemma LeafPowerBase(second: bool, p: nat)
    requires p < 256
    ensures NodeAbove(1, p) == 256 + p
    ensures Cong(Pow(Leaf(second, p), 1), NodeRoot(second, NodeAbove(1, p)), Q(second))
  {
    hide Q, Cong, NodeRoot, Pow;
    PowOne(Leaf(second, p));
    Refl(Leaf(second, p), Q(second));
  }

  /** A leaf satisfies the equation of every node above it. */
  lemma {:induction false} LeafPower(second: bool, len: int, p: nat)
    requires (IsLen(len) || len == 256) && p < 256
    ensures 0 < NodeAbove(len, p) < 512
    ensures Cong(Pow(Leaf(second, p), len), NodeRoot(second, NodeAbove(len, p)), Q(second))
    decreases len
  {
    hide *;
    if len == 1 {
      LeafPowerBase(second, p);
    } else {
      HalfLen(len);
      var h := len / 2;
      LeafPower(second, h, p);
      NodeAboveRange(h, p);
      NodeAboveParent(h, p);
      LeafPowerStep(second, Leaf(second, p), h, NodeAbove(h, p));
    }
  }

  lemma LeafTo256(second: bool, p: nat)
    requires p < 256
    ensures Cong(Pow(Leaf(second, p), 256), -1, Q(second))
  {
    hide Root, Q, Cong, Pow;
    LeafPower(second, 256, p);
    assert NodeAbove(256, p) == 1;
  }

  // -------------------------------------------------------------------------------------------
  // Forward: evaluation at the leaves
  // -------------------------------------------------------------------------------------------

  /** The eight Cooley-Tukey levels. */
  ghost function Ntt(second: bool, x: Poly): (y: Poly) {
    NttTail(second, Level(Forward, second, 32, Level(Forward, second, 64, Level(Forward, second, 128, x))))
  }

  ghost function NttTail(second: bool, x: Poly): (y: Poly) {
    Level(Forward, second, 1, Level(Forward, second, 2, Level(Forward, second, 4, Level(Forward, second, 8,
      Level(Forward, second, 16, x)))))
  }

  /** Where the length-`len` block that holds position `p` starts. */
  function Base(len: int, p: nat): (b: nat)
    requires (IsLen(len) || len == 256) && p < 256
    ensures b <= p < b + len <= 256
  {
    len * (p / len)
  }

  /** The length-`len` block of `x` that holds position `p`. */
  ghost function BlockOf(len: int, x: Poly, p: nat): (b: seq<int>)
    requires (IsLen(len) || len == 256) && p < 256
    ensures |b| == len && forall j :: 0 <= j < len ==> b[j] == x[Base(len, p) + j]
  {
    x[Base(len, p)..Base(len, p) + len]
  }

  /** Block by block, `x` still takes the values of `a` at the leaves. */
  ghost predicate Evaluates(len: int, x: Poly, a: Poly, second: bool)
    requires IsLen(len) || len == 256
  {
    forall p :: 0 <= p < 256 ==> Cong(Eval(BlockOf(len, x, p), Leaf(second, p)), Eval(a, Leaf(second, p)), Q(second))
  }

  lemma SameBlock(len: int, p: nat, j: nat)
    requires IsLen(len) && p < 256 && j < len
    requires 2 * len <= 256 && (IsLen(2 * len) || 2 * len == 256)
    ensures var i := Base(len, p) + j;
            Blk(len, i) == Blk(len, p) && (Low(len, i) <==> Low(len, p))
    ensures Base(len, p) == Base(2 * len, p) + (if Low(len, p) then 0 else len)
  {
    assert len > 0;
    hide IsLen, Low, Blk;
    DivUnique(Base(len, p) + j, len, p / len, j);
    HalfOfBlock(len, Base(len, p) + j);
    HalfOfBlock(len, p);
    BaseOfHalf(len, p / len, p / len / 2);
    BlkIs(len, p);
  }

  lemma BlkIs(len: int, p: nat)
    requires IsLen(len)
    ensures Blk(len, p) == p / (2 * len)
  {
  }

  lemma BaseOfHalf(len: int, a: int, t: int)
    requires t == a / 2
    ensures len * a == 2 * len * t + (if a % 2 == 0 then 0 else len)
  {
    if a % 2 == 0 { assert a == 2 * t; } else { assert a == 2 * t + 1; }
  }

  /** A forward level folds the two halves of a block together. */
  lemma ChildBlock(second: bool, len: int, x: Poly, p: nat, j: nat)
    requires IsLen(len) && p < 256 && j < len
    requires 2 * len <= 256 && (IsLen(2 * len) || 2 * len == 256) && Idx(Forward, len, p) < 256
    ensures BlockOf(len, Level(Forward, second, len, x), p)[j]
            == BlockOf(2 * len, x, p)[j]
               + (if Low(len, p) then Root(second, Idx(Forward, len, p)) else -Root(second, Idx(Forward, len, p)))
                 * BlockOf(2 * len, x, p)[len + j]
  {
    assert len > 0;
    hide *;
    var k, lo, hi := Idx(Forward, len, p), BlockOf(2 * len, x, p)[j], BlockOf(2 * len, x, p)[len + j];
    ChildEntry(second, len, x, p, j, k, lo, hi);
    FlyForward(second, k, lo, hi);
  }

  lemma ChildEntry(second: bool, len: int, x: Poly, p: nat, j: nat, k: nat, lo: int, hi: int)
    requires IsLen(len) && p < 256 && j < len && k == Idx(Forward, len, p) < 256
    requires 2 * len <= 256 && (IsLen(2 * len) || 2 * len == 256)
    requires lo == BlockOf(2 * len, x, p)[j] && hi == BlockOf(2 * len, x, p)[len + j]
    ensures BlockOf(len, Level(Forward, second, len, x), p)[j]
            == if Low(len, p) then Fly(Forward, second, k, lo, hi).0 else Fly(Forward, second, k, lo, hi).1
  {
    assert len > 0;
    hide *;
    var i := Base(len, p) + j;
    SameBlock(len, p, j);
    IdxSame(len, i, p);
    LevelAt(Forward, second, len, x, i);
  }

  lemma IdxSame(len: int, i: nat, p: nat)
    requires IsLen(len) && i < 256 && p < 256 && Blk(len, i) == Blk(len, p)
    ensures Idx(Forward, len, i) == Idx(Forward, len, p)
  {
  }

  lemma FlyForward(second: bool, k: nat, lo: int, hi: int)
    requires k < 256
    ensures Fly(Forward, second, k, lo, hi).0 == lo + Root(second, k) * hi
    ensures Fly(Forward, second, k, lo, hi).1 == lo + -Root(second, k) * hi
  {
    hide Root;
    assert hi * Root(second, k) == Root(second, k) * hi;
  }

  /** Evaluating a child block at a leaf below it is evaluating the parent block. */
  lemma EvalChild(second: bool, len: int, x: Poly, p: nat)
    requires IsLen(len) && p < 256
    requires 2 * len <= 256 && (IsLen(2 * len) || 2 * len == 256)
    ensures Cong(Eval(BlockOf(2 * len, x, p), Leaf(second, p)),
                 Eval(BlockOf(len, Level(Forward, second, len, x), p), Leaf(second, p)), Q(second))
  {
    assert len > 0;
    NodeAboveRange(len, p);
    LeafPower(second, len, p);
    SignedRoot(second, len, p);
    hide *;
    var leaf := Leaf(second, p);
    var parent, child := BlockOf(2 * len, x, p), BlockOf(len, Level(Forward, second, len, x), p);
    var k := Idx(Forward, len, p);
    var z := if Low(len, p) then Root(second, k) else -Root(second, k);
    forall j | 0 <= j < len
      ensures child[j] == parent[j] + z * parent[len + j]
    {
      ChildBlock(second, len, x, p, j);
    }
    EvalFolded(parent, child, len, z, leaf, Q(second));
  }

  lemma EvalFolded(parent: seq<int>, child: seq<int>, len: nat, z: int, x: int, q: int)
    requires |parent| == 2 * len && |child| == len
    requires forall j :: 0 <= j < len ==> child[j] == parent[j] + z * parent[len + j]
    requires Cong(Pow(x, len), z, q)
    ensures Cong(Eval(parent, x), Eval(child, x), q)
  {
    hide *;
    var lo, hi := parent[..len], parent[len..];
    EvalCombine(lo, hi, child, z, x);
    assert parent == lo + hi;
    EvalConcat(lo, hi, x);
    FoldAlgebra(Pow(x, len), z, Eval(lo, x), Eval(hi, x), q);
  }

  lemma SignedRoot(second: bool, len: int, p: nat)
    requires IsLen(len) && p < 256
    ensures 0 < NodeAbove(len, p) < 512 && Idx(Forward, len, p) < 256
    ensures NodeRoot(second, NodeAbove(len, p))
            == if Low(len, p) then Root(second, Idx(Forward, len, p)) else -Root(second, Idx(Forward, len, p))
  {
    hide Root, NodeAbove, Low, Idx, IsLen;
    NodeAboveRange(len, p);
    IdxInRange(Forward, len, p);
  }

  lemma FoldAlgebra(power: int, z: int, e: int, f: int, q: int)
    requires Cong(power, z, q)
    ensures Cong(e + power * f, e + z * f, q)
  {
    Refl(e, q);
    Scale(power, z, f, q);
    Add(e, e, f * power, f * z, q);
    assert f * power == power * f && f * z == z * f;
  }

  lemma EvaluatesStep(second: bool, len: int, x: Poly, a: Poly)
    requires IsLen(len) && (IsLen(2 * len) || 2 * len == 256)
    requires Evaluates(2 * len, x, a, second)
    ensures Evaluates(len, Level(Forward, second, len, x), a, second)
  {
    assert 2 * len <= 256;
    hide Cong, Eval, BlockOf, Leaf, Level, IsLen;
    forall p | 0 <= p < 256
      ensures Cong(Eval(BlockOf(len, Level(Forward, second, len, x), p), Leaf(second, p)), Eval(a, Leaf(second, p)),
              Q(second))
    {
      EvalChild(second, len, x, p);
      var e, f := Eval(BlockOf(2 * len, x, p), Leaf(second, p)),
        Eval(BlockOf(len, Level(Forward, second, len, x), p), Leaf(second, p));
      Sym(e, f, Q(second));
      Trans(f, e, Eval(a, Leaf(second, p)), Q(second));
    }
  }

  lemma EvaluatesStart(second: bool, a: Poly)
    ensures Evaluates(256, a, a, second)
  {
    hide Cong, Eval, Leaf;
    forall p | 0 <= p < 256
      ensures Cong(Eval(BlockOf(256, a, p), Leaf(second, p)), Eval(a, Leaf(second, p)), Q(second))
    {
      assert BlockOf(256, a, p) == a;
      Refl(Eval(a, Leaf(second, p)), Q(second));
    }
  }

  /** The forward transform evaluates at the leaves. */
  lemma NttIsEval(second: bool, a: Poly, p: nat)
    requires p < 256
    ensures Cong(Ntt(second, a)[p], Eval(a, Leaf(second, p)), Q(second))
  {
    hide Cong, Eval, BlockOf, Leaf, Level, Evaluates;
    EvaluatesStart(second, a);
    EvaluatesStep(second, 128, a, a);
    var x := Level(Forward, second, 128, a);
    EvaluatesStep(second, 64, x, a);
    x := Level(Forward, second, 64, x);
    EvaluatesStep(second, 32, x, a);
    x := Level(Forward, second, 32, x);
    EvaluatesStep(second, 16, x, a);
    x := Level(Forward, second, 16, x);
    EvaluatesStep(second, 8, x, a);
    x := Level(Forward, second, 8, x);
    EvaluatesStep(second, 4, x, a);
    x := Level(Forward, second, 4, x);
    EvaluatesStep(second, 2, x, a);
    x := Level(Forward, second, 2, x);
    EvaluatesStep(second, 1, x, a);
    x := Level(Forward, second, 1, x);
    EvaluatesEnd(second, x, a, p);
  }

  lemma EvaluatesEnd(second: bool, x: Poly, a: Poly, p: nat)
    requires p < 256 && Evaluates(1, x, a, second)
    ensures Cong(x[p], Eval(a, Leaf(second, p)), Q(second))
  {
    hide Cong, Eval, Leaf;
    assert BlockOf(1, x, p) == [x[p]];
    EvalSingle(x[p], Leaf(second, p));
  }

  /** Pointwise products of transforms are the transform of the negacyclic product. */
  lemma NttOfProduct(second: bool, a: Poly, b: Poly, p: nat)
    requires p < 256
    ensures Cong(Ntt(second, a)[p] * Ntt(second, b)[p], Ntt(second, NegaMul(a, b))[p], Q(second))
  {
    hide *;
    var x, q := Leaf(second, p), Q(second);
    var c := NegaMul(a, b);
    NttIsEval(second, a, p);
    NttIsEval(second, b, p);
    NttIsEval(second, c, p);
    LeafTo256(second, p);
    EvalProduct(a, b, x, q);
    Mul(Ntt(second, a)[p], Eval(a, x), Ntt(second, b)[p], Eval(b, x), q);
    Sym(Eval(c, x), Eval(a, x) * Eval(b, x), q);
    Sym(Ntt(second, c)[p], Eval(c, x), q);
    Trans(Ntt(second, a)[p] * Ntt(second, b)[p], Eval(a, x) * Eval(b, x), Eval(c, x), q);
    Trans(Ntt(second, a)[p] * Ntt(second, b)[p], Eval(c, x), Ntt(second, c)[p], q);
  }

  // -------------------------------------------------------------------------------------------
  // Inverse: each Gentleman-Sande level undoes the Cooley-Tukey level of its width, up to 2
  // -------------------------------------------------------------------------------------------

  /** The eight Gentleman-Sande levels, without the final scaling. */
  ghost function InvNtt(second: bool, y: Poly): (x: Poly) {
    Level(Inverse, second, 128, Level(Inverse, second, 64, Level(Inverse, second, 32, InvHead(second, y))))
  }

  ghost function InvHead(second: bool, y: Poly): (x: Poly) {
    Level(Inverse, second, 16, Level(Inverse, second, 8, Level(Inverse, second, 4, Level(Inverse, second, 2,
      Level(Inverse, second, 1, y)))))
  }

  /** `y` is `c * x`, entry by entry, modulo `q`. */
  ghost predicate Multiple(y: Poly, c: int, x: Poly, q: int) {
    forall p :: 0 <= p < 256 ==> Cong(y[p], c * x[p], q)
  }

  /** One butterfly and its mirror image. */
  lemma FlyUndone(y0: int, y1: int, x0: int, x1: int, r: int, r': int, c: int, q: int)
    requires Cong(r * r', -1, q)
    requires Cong(y0, c * (x0 + x1 * r), q) && Cong(y1, c * (x0 - x1 * r), q)
    ensures Cong(y0 + y1, 2 * c * x0, q)
    ensures Cong((y0 - y1) * -r', 2 * c * x1, q)
  {
    var u, v := c * (x0 + x1 * r), c * (x0 - x1 * r);
    Add(y0, u, y1, v, q);
    Sub(y0, u, y1, v, q);
    assert u + v == 2 * c * x0 by { FlySums(x0, x1, r, c); }
    assert u - v == 2 * c * x1 * r by { FlySums(x0, x1, r, c); }
    Scale(y0 - y1, u - v, -r', q);
    assert -r' * (y0 - y1) == (y0 - y1) * -r';
    Scale(r * r', -1, -(2 * c * x1), q);
    MirrorFactor(2 * c * x1, r, r');
    Trans((y0 - y1) * -r', -r' * (2 * c * x1 * r), 2 * c * x1, q);
  }

  lemma FlySums(x0: int, x1: int, r: int, c: int)
    ensures c * (x0 + x1 * r) + c * (x0 - x1 * r) == 2 * c * x0
    ensures c * (x0 + x1 * r) - c * (x0 - x1 * r) == 2 * c * x1 * r
  {
    assert c * (x0 + x1 * r) == c * x0 + c * x1 * r;
    assert c * (x0 - x1 * r) == c * x0 - c * x1 * r;
  }

  lemma MirrorFactor(w: int, r: int, r': int)
    ensures -w * (r * r') == -r' * (w * r) && -w * -1 == w
  {
  }

  lemma MirrorAt(second: bool, len: int, p: nat)
    requires IsLen(len) && p < 256
    ensures 0 < Idx(Forward, len, p) < 256 && 0 < Idx(Inverse, len, p) < 256
    ensures Cong(Root(second, Idx(Forward, len, p)) * Root(second, Idx(Inverse, len, p)), -1, Q(second))
  {
    hide Root, Cong, Q;
    Partner(len, p);
    IdxInRange(Forward, len, p);
    IdxInRange(Inverse, len, p);
    MirrorRoots(second, 128 / len, Idx(Forward, len, p));
  }

  lemma MirrorFly(second: bool, k: nat, k': nat, y0: int, y1: int, x0: int, x1: int, c: int, d: int)
    requires k < 256 && k' < 256 && d == 2 * c
    requires Cong(Root(second, k) * Root(second, k'), -1, Q(second))
    requires Cong(y0, c * Fly(Forward, second, k, x0, x1).0, Q(second))
    requires Cong(y1, c * Fly(Forward, second, k, x0, x1).1, Q(second))
    ensures Cong(Fly(Inverse, second, k', y0, y1).0, d * x0, Q(second))
    ensures Cong(Fly(Inverse, second, k', y0, y1).1, d * x1, Q(second))
  {
    hide Root, Cong, Q;
    FlyUndone(y0, y1, x0, x1, Root(second, k), Root(second, k'), c, Q(second));
  }

  lemma InverseAt(second: bool, len: int, y: Poly, x: Poly, c: int, d: int, p: nat)
    requires IsLen(len) && p < 256 && Low(len, p) && d == 2 * c
    requires Multiple(y, c, Level(Forward, second, len, x), Q(second))
    ensures p + len < 256
    ensures Cong(Level(Inverse, second, len, y)[p], d * x[p], Q(second))
    ensures Cong(Level(Inverse, second, len, y)[p + len], d * x[p + len], Q(second))
  {
    assert len > 0;
    hide *;
    LevelPair(Forward, second, len, x, p);
    LevelPair(Inverse, second, len, y, p);
    var r := p + len;
    MirrorAt(second, len, p);
    MultipleElim(y, c, Level(Forward, second, len, x), Q(second), p);
    MultipleElim(y, c, Level(Forward, second, len, x), Q(second), r);
    MirrorFly(second, Idx(Forward, len, p), Idx(Inverse, len, p), y[p], y[r], x[p], x[r], c, d);
  }

  lemma MultipleElim(y: Poly, c: int, x: Poly, q: int, p: nat)
    requires p < 256 && Multiple(y, c, x, q)
    ensures Cong(y[p], c * x[p], q)
  {
  }

  lemma InverseAnywhere(second: bool, len: int, y: Poly, x: Poly, c: int, d: int, p: nat)
    requires IsLen(len) && p < 256 && d == 2 * c
    requires Multiple(y, c, Level(Forward, second, len, x), Q(second))
    ensures Cong(Level(Inverse, second, len, y)[p], d * x[p], Q(second))
  {
    Partner(len, p);
    hide *;
    if Low(len, p) {
      InverseAt(second, len, y, x, c, d, p);
    } else {
      InverseAt(second, len, y, x, c, d, p - len);
    }
  }

  lemma MultipleIntro(y: Poly, c: int, x: Poly, q: int)
    requires forall p :: 0 <= p < 256 ==> Cong(y[p], c * x[p], q)
    ensures Multiple(y, c, x, q)
  {
  }

  lemma InverseStep(second: bool, len: int, y: Poly, x: Poly, c: int, d: int)
    requires IsLen(len) && d == 2 * c && Multiple(y, c, Level(Forward, second, len, x), Q(second))
    ensures Multiple(Level(Inverse, second, len, y), d, x, Q(second))
  {
    hide *;
    forall p | 0 <= p < 256
      ensures Cong(Level(Inverse, second, len, y)[p], d * x[p], Q(second))
    {
      InverseAnywhere(second, len, y, x, c, d, p);
    }
    MultipleIntro(Level(Inverse, second, len, y), d, x, Q(second));
  }

  /** The inverse transform of `c * Ntt(x)` is `256 * c * x`. */
  lemma InverseOfNtt(second: bool, y: Poly, x: Poly, c: int)
    requires Multiple(y, c, Ntt(second, x), Q(second))
    ensures Multiple(InvNtt(second, y), 256 * c, x, Q(second))
  {
    hide Multiple, Level, Q;
    var x1 := Level(Forward, second, 128, x);
    var x2 := Level(Forward, second, 64, x1);
    var x3 := Level(Forward, second, 32, x2);
    var x4 := Level(Forward, second, 16, x3);
    var x5 := Level(Forward, second, 8, x4);
    var x6 := Level(Forward, second, 4, x5);
    var x7 := Level(Forward, second, 2, x6);
    var y7 := Level(Inverse, second, 1, y);
    InverseStep(second, 1, y, x7, c, 2 * c);
    var y6 := Level(Inverse, second, 2, y7);
    InverseStep(second, 2, y7, x6, 2 * c, 4 * c);
    var y5 := Level(Inverse, second, 4, y6);
    InverseStep(second, 4, y6, x5, 4 * c, 8 * c);
    var y4 := Level(Inverse, second, 8, y5);
    InverseStep(second, 8, y5, x4, 8 * c, 16 * c);
    var y3 := Level(Inverse, second, 16, y4);
    InverseStep(second, 16, y4, x3, 16 * c, 32 * c);
    var y2 := Level(Inverse, second, 32, y3);
    InverseStep(second, 32, y3, x2, 32 * c, 64 * c);
    var y1 := Level(Inverse, second, 64, y2);
    InverseStep(second, 64, y2, x1, 64 * c, 128 * c);
    InverseStep(second, 128, y1, x, 128 * c, 256 * c);
  }
}
