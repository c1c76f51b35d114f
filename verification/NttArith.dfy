/** Matrices of ring elements and of transforms, their products, and the exactness theorem: a product
    taken in the transform domain is the schoolbook product. */
module NttArith {
  import opened Words
  import opened Congruence
  import opened Params
  import opened Lane
  import opened Levels
  import opened RingMul
  import opened Schoolbook
  import Avx2Ntt
  import NeonNtt
  import NttCrt

  // -------------------------------------------------------------------------------------------
  // Matrices
  // -------------------------------------------------------------------------------------------

  /** A matrix, row by row. */
  type Matrix<T> = seq<seq<T>>

  predicate IsMatrix<T>(m: Matrix<T>, x: nat, y: nat) {
    |m| == x && forall i :: 0 <= i < x ==> |m[i]| == y
  }

  function Row<T>(m: Matrix<T>, x: nat, y: nat, i: nat): (r: seq<T>)
    requires IsMatrix(m, x, y) && i < x
    ensures |r| == y
  {
    m[i]
  }

  function Column<T>(m: Matrix<T>, x: nat, y: nat, j: nat): (r: seq<T>)
    requires IsMatrix(m, x, y) && j < y
    ensures |r| == x
  {
    seq(x, i requires 0 <= i < x => m[i][j])
  }

  const ZERO_ELEM: Elem := seq(256, _ => 0)
  const ZERO_NTT: NttElem := seq(512, _ => 0)

  /** The value a filled two-dimensional array holds. */
  function Filled<T>(a: array2<T>): (m: Matrix<T>)
    reads a
    ensures IsMatrix(m, a.Length0, a.Length1)
    ensures forall i, j :: 0 <= i < a.Length0 && 0 <= j < a.Length1 ==> m[i][j] == a[i, j]
  {
    seq(a.Length0, i requires 0 <= i < a.Length0 reads a => seq(a.Length1,
      j requires 0 <= j < a.Length1 reads a => a[i, j]))
  }

  // -------------------------------------------------------------------------------------------
  // Dispatch
  // -------------------------------------------------------------------------------------------

  /** `NttElem::from_uniform` with `reduce`, `NttElem::from_secret` without. */
  method TransformElem(backend: Backend, reduce: bool, elem: Elem) returns (out: NttElem)
    ensures out == FromElem(backend, reduce, elem)
  {
    hide FromElem;
    match backend
    case Portable => out := NttCrt.FromRingElem(reduce, elem);
    case Neon => out := NeonNtt.FromRingElem(reduce, elem);
    case Avx2 => out := Avx2Ntt.FromRingElem(reduce, elem);
  }

  /** `pointwise_mul_acc`. */
  method PointwiseMulAcc(backend: Backend, acc: array<i32>, lhs: NttElem, rhs: NttElem)
    requires acc.Length == 512
    modifies acc
    ensures forall i :: 0 <= i < 512 ==> acc[i] == Wrap32(old(acc[i]) + Wrap32(lhs[i] as int * rhs[i] as int))
  {
    hide Wrap32;
    match backend
    case Portable => NttCrt.PointwiseMulAcc(acc, lhs, rhs);
    case Neon => NeonNtt.PointwiseMulAcc(acc, lhs, rhs);
    case Avx2 => Avx2Ntt.PointwiseMulAcc(acc, lhs, rhs);
  }

  /** `reduce_invntt_to_ring_elem`. */
  method ReduceInvNtt(backend: Backend, acc: Acc) returns (out: Elem)
    ensures out == ReduceInv(acc)
  {
    hide ReduceInv;
    match backend
    case Portable => out := NttCrt.ReduceInvNtt(acc);
    case Neon => out := NeonNtt.ReduceInvNtt(acc);
    case Avx2 => out := Avx2Ntt.ReduceInvNtt(acc);
  }

  // -------------------------------------------------------------------------------------------
  // Transforms and products of matrices
  // -------------------------------------------------------------------------------------------

  function FromMatrix(backend: Backend, reduce: bool, m: Matrix<Elem>, x: nat, y: nat): (u: Matrix<NttElem>)
    requires IsMatrix(m, x, y)
    ensures IsMatrix(u, x, y)
  {
    seq(x, i requires 0 <= i < x => seq(y, j requires 0 <= j < y => FromElem(backend, reduce, m[i][j])))
  }

  /** `from_uniform_matrix` with `reduce`, `from_secret_matrix` without. */
  method TransformMatrix(backend: Backend, reduce: bool, m: Matrix<Elem>, x: nat, y: nat) returns (u: Matrix<NttElem>)
    requires IsMatrix(m, x, y)
    ensures u == FromMatrix(backend, reduce, m, x, y)
  {
    hide FromElem;
    var ret := new NttElem[x, y]((_, _) => ZERO_NTT);
    for i := 0 to x
      invariant forall i', j' :: 0 <= i' < i && 0 <= j' < y ==> ret[i', j'] == FromElem(backend, reduce, m[i'][j'])
    {
      for j := 0 to y
        invariant forall i', j' :: 0 <= i' < i && 0 <= j' < y ==> ret[i', j'] == FromElem(backend, reduce, m[i'][j'])
        invariant forall j' :: 0 <= j' < j ==> ret[i, j'] == FromElem(backend, reduce, m[i][j'])
      {
        ret[i, j] := TransformElem(backend, reduce, m[i][j]);
      }
    }
    u := Filled(ret);
    assert forall i :: 0 <= i < x ==> u[i] == FromMatrix(backend, reduce, m, x, y)[i];
  }

  /** One accumulator lane, wrapping at every step. */
  function WrapDot(u: seq<NttElem>, v: seq<NttElem>, n: nat, i: nat): i32
    requires n <= |u| && n <= |v| && i < 512
  {
    if n == 0 then 0
    else Wrap32(WrapDot(u, v, n - 1, i) as int + Wrap32(u[n - 1][i] as int * v[n - 1][i] as int) as int)
  }

  function AccOf(u: seq<NttElem>, v: seq<NttElem>): Acc
    requires |u| == |v|
  {
    seq(512, i requires 0 <= i < 512 => WrapDot(u, v, |u|, i))
  }

  /** The entry both products compute from a line of the left operand and one of the right. */
  function Entry(u: seq<NttElem>, v: seq<NttElem>): Elem
    requires |u| == |v|
  {
    ReduceInv(AccOf(u, v))
  }

  /** The inner loop of both products. */
  method Line(backend: Backend, u: seq<NttElem>, v: seq<NttElem>) returns (e: Elem)
    requires |u| == |v|
    ensures e == Entry(u, v)
  {
    hide ReduceInv, Wrap32;
    var acc := new i32[512](_ => 0);
    for j := 0 to |u|
      invariant forall i :: 0 <= i < 512 ==> acc[i] == WrapDot(u, v, j, i)
    {
      PointwiseMulAcc(backend, acc, u[j], v[j]);
    }
    assert acc[..] == AccOf(u, v);
    e := ReduceInvNtt(backend, acc[..]);
  }

  /** `NttMatrix::mul`. */
  method Mul(backend: Backend, a: Matrix<NttElem>, b: Matrix<NttElem>, x: nat, y: nat, z: nat) returns (r: Matrix<Elem>)
    requires IsMatrix(a, x, y) && IsMatrix(b, y, z) && y <= MAX_L
    ensures IsMatrix(r, x, z)
    ensures forall i, k :: 0 <= i < x && 0 <= k < z ==> r[i][k] == Entry(Row(a, x, y, i), Column(b, y, z, k))
  {
    hide Entry, Row, Column;
    var result := new Elem[x, z]((_, _) => ZERO_ELEM);
    for i := 0 to x
      invariant forall i', k' :: 0 <= i' < i && 0 <= k' < z ==>
                result[i', k'] == Entry(Row(a, x, y, i'), Column(b, y, z, k'))
    {
      for k := 0 to z
        invariant forall i', k' :: 0 <= i' < i && 0 <= k' < z ==>
                  result[i', k'] == Entry(Row(a, x, y, i'), Column(b, y, z, k'))
        invariant forall k' :: 0 <= k' < k ==> result[i, k'] == Entry(Row(a, x, y, i), Column(b, y, z, k'))
      {
        result[i, k] := Line(backend, Row(a, x, y, i), Column(b, y, z, k));
      }
    }
    r := Filled(result);
  }

  /** `NttMatrix::mul_transpose`. */
  method MulTranspose(backend: Backend, a: Matrix<NttElem>, b: Matrix<NttElem>, x: nat, y: nat, z: nat)
    returns (r: Matrix<Elem>)
    requires IsMatrix(a, x, y) && IsMatrix(b, x, z) && x <= MAX_L
    ensures IsMatrix(r, y, z)
    ensures forall j, k :: 0 <= j < y && 0 <= k < z ==> r[j][k] == Entry(Column(a, x, y, j), Column(b, x, z, k))
  {
    hide Entry, Row, Column;
    var result := new Elem[y, z]((_, _) => ZERO_ELEM);
    for j := 0 to y
      invariant forall j', k' :: 0 <= j' < j && 0 <= k' < z ==>
                result[j', k'] == Entry(Column(a, x, y, j'), Column(b, x, z, k'))
    {
      for k := 0 to z
        invariant forall j', k' :: 0 <= j' < j && 0 <= k' < z ==>
                  result[j', k'] == Entry(Column(a, x, y, j'), Column(b, x, z, k'))
        invariant forall k' :: 0 <= k' < k ==> result[j, k'] == Entry(Column(a, x, y, j), Column(b, x, z, k'))
      {
        result[j, k] := Line(backend, Column(a, x, y, j), Column(b, x, z, k));
      }
    }
    r := Filled(result);
  }

  // -------------------------------------------------------------------------------------------
  // Exactness
  // -------------------------------------------------------------------------------------------

  const MAX_L: nat := 4

  /** Plain coefficients of at most 13 bits. */
  predicate IsUniform(e: Elem) {
    forall i :: 0 <= i < 256 ==> e[i] < 0x2000
  }

  /** Coefficients that encode signed values of magnitude at most `half`. */
  predicate IsSecret(e: Elem, half: int) {
    forall i :: 0 <= i < 256 ==> -half <= Signed(e)[i] <= half
  }

  /** The bound `crate::impls` asserts for each parameter set. */
  predicate IsExact(n: nat, half: int) {
    n <= MAX_L && 0 <= half <= 3840 && n * (256 * (8191 * half)) <= CRT_Q_HALF
  }

  /** All three parameter sets are within it. */
  lemma ParameterSetsAreExact()
    ensures IsExact(2, 5) && IsExact(3, 4) && IsExact(4, 3)
    ensures 2 * (256 * (8191 * 5)) <= 25_162_752 && 3 * (256 * (8191 * 4)) == 4 * (256 * (8191 * 3)) == 25_162_752
  {
  }

  lemma UniformBounded(e: Elem)
    requires IsUniform(e)
    ensures Bounded(Signed(e), 8191)
  {
    forall i | 0 <= i < 256 ensures -8191 <= Signed(e)[i] <= 8191 {
      assert Signed(e)[i] == Wrap16(e[i]) == e[i];
    }
  }

  /** Products of centred residues, up to four of them, never wrap the accumulator. */
  lemma {:induction false} AccNeverWraps(u: seq<NttElem>, v: seq<NttElem>, a: seq<Poly>, b: seq<Poly>, n: nat,
                                         second: bool, p: nat)
    requires AreTransforms(u, a) && AreTransforms(v, b) && n <= |u| && n <= |v| && n <= MAX_L && p < 256
    ensures WrapDot(u, v, n, LaneIndex(second, p)) == DotLane(u, v, n, LaneIndex(second, p))
  {
    if n > 0 {
      AccNeverWraps(u, v, a, b, n - 1, second, p);
      AccStep(u, v, a, b, n, second, p);
    }
  }

  lemma AccStep(u: seq<NttElem>, v: seq<NttElem>, a: seq<Poly>, b: seq<Poly>, n: nat, second: bool, p: nat)
    requires AreTransforms(u, a) && AreTransforms(v, b) && 0 < n <= |u| && n <= |v| && n <= MAX_L && p < 256
    requires WrapDot(u, v, n - 1, LaneIndex(second, p)) == DotLane(u, v, n - 1, LaneIndex(second, p))
    ensures WrapDot(u, v, n, LaneIndex(second, p)) == DotLane(u, v, n, LaneIndex(second, p))
  {
    var i := LaneIndex(second, p);
    DotLaneCorrect(u, v, a, b, n, second, p);
    LaneLimit(second, n);
    AbsMul(u[n - 1][i], v[n - 1][i], 0x8000, 0x8000);
    hide IsTransform, HalfQ, LaneIndex;
    assert DotLane(u, v, n, i) == DotLane(u, v, n - 1, i) + u[n - 1][i] as int * v[n - 1][i] as int;
  }

  lemma LaneLimit(second: bool, n: nat)
    requires n <= MAX_L
    ensures n * (HalfQ(second) * HalfQ(second)) <= 115_605_504
  {
    MulMono(n, 4, HalfQ(second) * HalfQ(second));
  }

  /** `u` is some backend's transform of `e`. */
  predicate Transforms(reduce: bool, u: NttElem, e: Elem) {
    exists backend: Backend :: u == FromElem(backend, reduce, e)
  }

  lemma TransformsCorrect(reduce: bool, u: NttElem, e: Elem)
    requires Transforms(reduce, u, e) && (reduce || IsSecret(e, 3840))
    ensures IsTransform(u, Signed(e))
  {
    hide IsTransform, FromElem;
    var backend: Backend :| u == FromElem(backend, reduce, e);
    FromElemCorrect(backend, reduce, e);
  }

  /** An entry computed from transforms is the schoolbook inner product of what was transformed, bit
      for bit: any backend may have made either operand. */
  lemma EntryIsSchoolbook(x: seq<Elem>, s: seq<Elem>, u: seq<NttElem>, v: seq<NttElem>, half: int)
    requires |x| == |s| == |u| == |v| && IsExact(|x|, half)
    requires forall j :: 0 <= j < |x| ==> IsUniform(x[j]) && IsSecret(s[j], half)
    requires forall j :: 0 <= j < |x| ==> Transforms(true, u[j], x[j]) && Transforms(false, v[j], s[j])
    ensures Entry(u, v) == Dot(x, s)
  {
    hide ReduceInv, IsTransform, Signed, DotLane, WrapDot, DotPoly, Bounded, IsUniform, Transforms, WrapU16, IsSecret,
      Dot;
    var a, b, acc := SignedAll(x), SignedAll(s), AccOf(u, v);
    forall j | 0 <= j < |x|
      ensures IsTransform(u[j], a[j]) && IsTransform(v[j], b[j]) && Bounded(a[j], 8191) && Bounded(b[j], half)
    {
      SecretBounded(s[j], half);
      TransformsCorrect(true, u[j], x[j]);
      TransformsCorrect(false, v[j], s[j]);
      UniformBounded(x[j]);
    }
    forall i | 0 <= i < 512
      ensures acc[i] == DotLane(u, v, |u|, i)
    {
      var second, p := i >= 256, i % 256;
      AccNeverWraps(u, v, a, b, |u|, second, p);
    }
    forall k | 0 <= k < 256
      ensures Entry(u, v)[k] == Dot(x, s)[k]
    {
      PipelineCorrect(u, v, a, b, acc, 8191, half, k);
      DotIsSigned(x, s, k);
    }
  }

  lemma SecretBounded(e: Elem, half: int)
    requires IsSecret(e, half) && half <= 3840
    ensures Bounded(Signed(e), half) && IsSecret(e, 3840)
  {
    hide Signed;
    forall i | 0 <= i < 256 ensures -3840 <= Signed(e)[i] <= 3840 { }
  }

  predicate UniformMatrix(m: Matrix<Elem>) {
    forall i, j :: 0 <= i < |m| && 0 <= j < |m[i]| ==> IsUniform(m[i][j])
  }

  predicate SecretMatrix(m: Matrix<Elem>, half: int) {
    forall i, j :: 0 <= i < |m| && 0 <= j < |m[i]| ==> IsSecret(m[i][j], half)
  }

  lemma MatrixTransforms(backend: Backend, reduce: bool, m: Matrix<Elem>, x: nat, y: nat)
    requires IsMatrix(m, x, y)
    ensures forall i, j :: 0 <= i < x && 0 <= j < y ==>
            Transforms(reduce, FromMatrix(backend, reduce, m, x, y)[i][j], m[i][j])
  {
    hide FromElem;
  }

  /** Every entry of `mul` on transformed matrices is the schoolbook entry. */
  lemma MulIsSchoolbook(b1: Backend, b2: Backend, a: Matrix<Elem>, s: Matrix<Elem>, x: nat, y: nat, z: nat, half: int,
                        i: nat, k: nat)
    requires IsMatrix(a, x, y) && IsMatrix(s, y, z) && i < x && k < z
    requires UniformMatrix(a) && SecretMatrix(s, half) && IsExact(y, half)
    ensures Entry(Row(FromMatrix(b1, true, a, x, y), x, y, i), Column(FromMatrix(b2, false, s, y, z), y, z, k))
            == Dot(Row(a, x, y, i), Column(s, y, z, k))
  {
    MatrixTransforms(b1, true, a, x, y);
    MatrixTransforms(b2, false, s, y, z);
    hide Entry, Dot, FromMatrix, Transforms, IsExact, IsUniform, IsSecret;
    EntryIsSchoolbook(Row(a, x, y, i), Column(s, y, z, k),
                      Row(FromMatrix(b1, true, a, x, y), x, y, i), Column(FromMatrix(b2, false, s, y, z), y, z, k),
                        half);
  }

  /** Every entry of `mul_transpose` on transformed matrices is the schoolbook entry of the transpose. */
  lemma MulTransposeIsSchoolbook(b1: Backend, b2: Backend, a: Matrix<Elem>, s: Matrix<Elem>, x: nat, y: nat, z: nat,
                                 half: int, j: nat, k: nat)
    requires IsMatrix(a, x, y) && IsMatrix(s, x, z) && j < y && k < z
    requires UniformMatrix(a) && SecretMatrix(s, half) && IsExact(x, half)
    ensures Entry(Column(FromMatrix(b1, true, a, x, y), x, y, j), Column(FromMatrix(b2, false, s, x, z), x, z, k))
            == Dot(Column(a, x, y, j), Column(s, x, z, k))
  {
    MatrixTransforms(b1, true, a, x, y);
    MatrixTransforms(b2, false, s, x, z);
    hide Entry, Dot, FromMatrix, Transforms, IsExact, IsUniform, IsSecret;
    EntryIsSchoolbook(Column(a, x, y, j), Column(s, x, z, k),
                      Column(FromMatrix(b1, true, a, x, y), x, y, j), Column(FromMatrix(b2, false, s, x, z), x, z, k),
                        half);
  }
}
