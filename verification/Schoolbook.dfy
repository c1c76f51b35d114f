/** The reference the multiplier is held to: schoolbook products of wrapping-`u16` ring elements,
    as the source's own double loop computes them. */
module Schoolbook {
  import opened Words
  import opened Congruence
  import opened Params
  import opened Levels
  import opened Polynomial
  import opened RingMul

  /** The coefficients as the unsigned words they are stored as. */
  function Raw(e: Elem): Poly {
    e
  }

  function RawAll(es: seq<Elem>): (r: seq<Poly>)
    ensures |r| == |es|
  {
    seq(|es|, j requires 0 <= j < |es| => Raw(es[j]))
  }

  function SignedAll(es: seq<Elem>): (r: seq<Poly>)
    ensures |r| == |es|
  {
    seq(|es|, j requires 0 <= j < |es| => Signed(es[j]))
  }

  /** The inner product of two vectors of ring elements in (Z / 2^16)[X] / (X^256 + 1). */
  function Dot(a: seq<Elem>, b: seq<Elem>): (c: Elem)
    requires |a| == |b|
  {
    seq(256, k requires 0 <= k < 256 => WrapU16(DotPoly(RawAll(a), RawAll(b), |a|)[k]))
  }

  lemma WrapU16Cong(x: int, y: int)
    requires Cong(x, y, R)
    ensures WrapU16(x) == WrapU16(y)
  {
    ToMod(x, y, R);
  }

  lemma SignedCong(e: Elem)
    ensures CongSeq(Signed(e), Raw(e), R)
  {
    forall i | 0 <= i < 256 ensures Cong(Signed(e)[i], Raw(e)[i], R) {
      Witness(Wrap16(e[i]), e[i], 0 - (e[i] as int + 0x8000) / 0x1_0000, R);
    }
  }

  lemma {:induction false} NegaSumCong(a: Poly, a': Poly, b: Poly, b': Poly, k: nat, n: nat, q: int)
    requires k < 256 && n <= 256 && CongSeq(a, a', q) && CongSeq(b, b', q)
    ensures Cong(NegaSum(a, b, k, n), NegaSum(a', b', k, n), q)
  {
    hide Cong;
    if n == 0 {
      Refl(0, q);
    } else {
      var i := n - 1;
      var j := if i <= k then k - i else 256 + k - i;
      NegaSumCong(a, a', b, b', k, i, q);
      Mul(a[i], a'[i], b[j], b'[j], q);
      if i > k { Scale(a[i] * b[j], a'[i] * b'[j], -1, q); }
      Add(NegaSum(a, b, k, i), NegaSum(a', b', k, i), NegaTerm(a, b, k, i), NegaTerm(a', b', k, i), q);
    }
  }

  ghost predicate CongAll(a: seq<Poly>, b: seq<Poly>, q: int) {
    |a| == |b| && forall j :: 0 <= j < |a| ==> CongSeq(a[j], b[j], q)
  }

  /** Congruent vectors have congruent inner products. */
  lemma {:induction false} DotPolyCong(a: seq<Poly>, a': seq<Poly>, b: seq<Poly>, b': seq<Poly>, n: nat, k: nat, q: int)
    requires CongAll(a, a', q) && CongAll(b, b', q) && n <= |a| && n <= |b| && k < 256
    ensures Cong(DotPoly(a, b, n)[k], DotPoly(a', b', n)[k], q)
  {
    hide Cong, NegaSum, CongSeq;
    if n == 0 {
      Refl(0, q);
    } else {
      var j := n - 1;
      DotPolyCong(a, a', b, b', j, k, q);
      NegaSumCong(a[j], a'[j], b[j], b'[j], k, 256, q);
      DotPolyAt(a, b, n, k);
      DotPolyAt(a', b', n, k);
      hide DotPoly;
      Add(DotPoly(a, b, j)[k], DotPoly(a', b', j)[k], NegaSum(a[j], b[j], k, 256), NegaSum(a'[j], b'[j], k, 256), q);
    }
  }

  lemma CongAllRefl(a: seq<Poly>, q: int)
    ensures CongAll(a, a, q)
  {
    hide Cong;
    forall j, i | 0 <= j < |a| && 0 <= i < 256 ensures Cong(a[j][i], a[j][i], q) { Refl(a[j][i], q); }
  }

  lemma SignedAllCong(a: seq<Elem>)
    ensures CongAll(SignedAll(a), RawAll(a), R)
  {
    hide Signed, Raw, CongSeq;
    forall j | 0 <= j < |a| ensures CongSeq(SignedAll(a)[j], RawAll(a)[j], R) { SignedCong(a[j]); }
  }

  /** Reading the words as signed or unsigned makes no difference modulo 2^16. */
  lemma DotIsSigned(a: seq<Elem>, b: seq<Elem>, k: nat)
    requires |a| == |b| && k < 256
    ensures Dot(a, b)[k] == WrapU16(DotPoly(SignedAll(a), SignedAll(b), |a|)[k])
  {
    hide WrapU16, DotPoly, Cong;
    SignedAllCong(a);
    SignedAllCong(b);
    DotPolyCong(SignedAll(a), RawAll(a), SignedAll(b), RawAll(b), |a|, k, R);
    WrapU16Cong(DotPoly(SignedAll(a), SignedAll(b), |a|)[k], DotPoly(RawAll(a), RawAll(b), |a|)[k]);
  }

  // -------------------------------------------------------------------------------------------
  // The reference loops
  // -------------------------------------------------------------------------------------------

  /** Whether row `i` of the double loop has updated coefficient `k` once it has reached column `j`. */
  predicate Touched(i: nat, j: nat, k: nat) {
    i <= k < i + j || k + 256 < i + j
  }

  lemma WrapShift(x: int, k: int)
    ensures WrapU16(x + 0x1_0000 * k) == WrapU16(x)
  {
  }

  lemma WrapAdd(x: int, m: int)
    ensures WrapU16(WrapU16(x) + WrapU16(m)) == WrapU16(x + m)
    ensures WrapU16(WrapU16(x) - WrapU16(m)) == WrapU16(x + -m)
  {
    var j, k := x / 0x1_0000, m / 0x1_0000;
    assert WrapU16(x) == x - 0x1_0000 * j && WrapU16(m) == m - 0x1_0000 * k;
    hide WrapU16;
    WrapShift(x + m, 0 - j - k);
    WrapShift(x - m, k - j);
  }

  function Product(a: Elem, b: Elem, i: nat, j: nat): int
    requires i < 256 && j < 256
  {
    a[i] as int * b[j] as int
  }

  lemma TermAt(a: Elem, b: Elem, i: nat, j: nat)
    requires i < 256 && j < 256
    ensures NegaTerm(Raw(a), Raw(b), (i + j) % 256, i)
            == if i + j < 256 then Product(a, b, i, j) else -Product(a, b, i, j)
  {
    if i + j >= 256 { assert (i + j) % 256 == i + j - 256; }
  }

  /** One turn of the inner loop brings its coefficient from `i` terms to `i + 1`. */
  lemma RowStep(c: int, w: u16, a: Elem, b: Elem, i: nat, j: nat)
    requires i < 256 && j < 256 && w == WrapU16(c + NegaSum(Raw(a), Raw(b), (i + j) % 256, i))
    ensures WrapU16(c + NegaSum(Raw(a), Raw(b), (i + j) % 256, i + 1))
            == if i + j < 256 then WrapU16(w as int + WrapU16(Product(a, b, i, j)) as int)
               else WrapU16(w as int - WrapU16(Product(a, b, i, j)) as int)
  {
    hide WrapU16, NegaTerm, Product, Raw;
    TermAt(a, b, i, j);
    WrapAdd(c + NegaSum(Raw(a), Raw(b), (i + j) % 256, i), Product(a, b, i, j));
  }

  /** `schoolbook_ring_mul_acc`: adds `a * b` into `acc`. */
  method SchoolbookRingMulAcc(acc: array<u16>, a: Elem, b: Elem)
    requires acc.Length == 256
    modifies acc
    ensures forall k :: 0 <= k < 256 ==> acc[k] == WrapU16(old(acc[k]) + NegaMul(Raw(a), Raw(b))[k])
  {
    hide NegaSum, Product, Raw;
    ghost var s: Elem := acc[..];
    NegaSumStart(a, b);
    for i := 0 to 256
      invariant forall k :: 0 <= k < 256 ==> acc[k] == WrapU16(s[k] + NegaSum(Raw(a), Raw(b), k, i))
    {
      RowOf(acc, a, b, i, s);
    }
  }

  lemma NegaSumStart(a: Elem, b: Elem)
    ensures forall k :: 0 <= k < 256 ==> NegaSum(Raw(a), Raw(b), k, 0) == 0
  {
  }

  /** The inner loop of `schoolbook_ring_mul_acc`. */
  method RowOf(acc: array<u16>, a: Elem, b: Elem, i: nat, ghost s: Elem)
    requires acc.Length == 256 && i < 256
    requires forall k :: 0 <= k < 256 ==> acc[k] == WrapU16(s[k] + NegaSum(Raw(a), Raw(b), k, i))
    modifies acc
    ensures forall k :: 0 <= k < 256 ==> acc[k] == WrapU16(s[k] + NegaSum(Raw(a), Raw(b), k, i + 1))
  {
    hide WrapU16, NegaSum, Raw;
    for j := 0 to 256
      invariant forall k :: 0 <= k < 256 && Touched(i, j, k) ==>
                acc[k] == WrapU16(s[k] + NegaSum(Raw(a), Raw(b), k, i + 1))
      invariant forall k :: 0 <= k < 256 && !Touched(i, j, k) ==>
                acc[k] == WrapU16(s[k] + NegaSum(Raw(a), Raw(b), k, i))
    {
      var prod := WrapU16(a[i] as int * b[j] as int);
      var idx := i + j;
      ghost var k := idx % 256;
      assert !Touched(i, j, k);
      RowStep(s[k], acc[k], a, b, i, j);
      if idx < 256 {
        acc[idx] := WrapU16(acc[idx] as int + prod as int);
      } else {
        assert k == idx - 256;
        acc[idx - 256] := WrapU16(acc[idx - 256] as int - prod as int);
      }
    }
  }

  /** What `schoolbook_mul` and `schoolbook_mul_transpose` accumulate into one entry. */
  method SchoolbookEntry(a: seq<Elem>, b: seq<Elem>) returns (e: Elem)
    requires |a| == |b|
    ensures e == Dot(a, b)
  {
    hide NegaMul, Raw;
    var acc := new u16[256](_ => 0);
    for j := 0 to |a|
      invariant forall k :: 0 <= k < 256 ==> acc[k] == WrapU16(DotPoly(RawAll(a), RawAll(b), j)[k])
    {
      ghost var was: Elem := acc[..];
      SchoolbookRingMulAcc(acc, a[j], b[j]);
      EntryStep(a, b, j, was, acc[..]);
    }
    e := acc[..];
  }

  lemma EntryStep(a: seq<Elem>, b: seq<Elem>, j: nat, was: Elem, now: Elem)
    requires j < |a| == |b|
    requires forall k :: 0 <= k < 256 ==> was[k] == WrapU16(DotPoly(RawAll(a), RawAll(b), j)[k])
    requires forall k :: 0 <= k < 256 ==> now[k] == WrapU16(was[k] + NegaMul(Raw(a[j]), Raw(b[j]))[k])
    ensures forall k :: 0 <= k < 256 ==> now[k] == WrapU16(DotPoly(RawAll(a), RawAll(b), j + 1)[k])
  {
    hide NegaMul, Raw, WrapU16;
    forall k | 0 <= k < 256
      ensures now[k] == WrapU16(DotPoly(RawAll(a), RawAll(b), j + 1)[k])
    {
      WrapLeft(DotPoly(RawAll(a), RawAll(b), j)[k], NegaMul(Raw(a[j]), Raw(b[j]))[k]);
    }
  }

  lemma WrapLeft(x: int, y: int)
    ensures WrapU16(WrapU16(x) + y) == WrapU16(x + y)
  {
    WrapShift(WrapU16(x) + y, x / 0x1_0000);
  }
}
