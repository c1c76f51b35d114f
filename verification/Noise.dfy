/** The noise of the encryption scheme.  With `e` and `e'` what the two roundings throw away,
    8 (v - v') == (4 - e')^T s - (4 - e)^T s' modulo 2^13. */
module Noise {
  import opened Words
  import opened Congruence
  import opened Bits
  import opened Ser
  import opened Levels
  import opened Polynomial
  import opened Ring
  import opened RingMul
  import opened Schoolbook
  import opened NttArith
  import opened PlainArith
  import opened Pke
  import opened PkeCorrect

  // -------------------------------------------------------------------------------------------
  // (A s')^T s == (A^T s)^T s'
  // -------------------------------------------------------------------------------------------

  /** An `n` by `m` matrix of polynomials. */
  ghost predicate IsGrid(a: seq<seq<Poly>>, n: nat, m: nat) {
    |a| == n && forall i :: 0 <= i < n ==> |a[i]| == m
  }

  function PolyColumn(a: seq<seq<Poly>>, n: nat, m: nat, j: nat): (c: seq<Poly>)
    requires IsGrid(a, n, m) && j < m
    ensures |c| == n
  {
    seq(n, i requires 0 <= i < n => a[i][j])
  }

  /** Coefficient `k` of `A[i][j] * t[j] * s[i]`. */
  function Term(a: seq<seq<Poly>>, s: seq<Poly>, t: seq<Poly>, n: nat, m: nat, i: nat, j: nat, k: nat): int
    requires IsGrid(a, n, m) && |s| == n && |t| == m && i < n && j < m && k < 256
  {
    NegaMul(NegaMul(a[i][j], t[j]), s[i])[k]
  }

  function RowTotal(a: seq<seq<Poly>>, s: seq<Poly>, t: seq<Poly>, n: nat, m: nat, i: nat, j: nat, k: nat): int
    requires IsGrid(a, n, m) && |s| == n && |t| == m && i < n && j <= m && k < 256
  {
    if j == 0 then 0 else RowTotal(a, s, t, n, m, i, j - 1, k) + Term(a, s, t, n, m, i, j - 1, k)
  }

  function ColumnTotal(a: seq<seq<Poly>>, s: seq<Poly>, t: seq<Poly>, n: nat, m: nat, i: nat, j: nat, k: nat): int
    requires IsGrid(a, n, m) && |s| == n && |t| == m && i <= n && j < m && k < 256
  {
    if i == 0 then 0 else ColumnTotal(a, s, t, n, m, i - 1, j, k) + Term(a, s, t, n, m, i - 1, j, k)
  }

  /** The first `i` rows, and the first `j` columns cut off after `i` rows. */
  function Rows(a: seq<seq<Poly>>, s: seq<Poly>, t: seq<Poly>, n: nat, m: nat, i: nat, k: nat): int
    requires IsGrid(a, n, m) && |s| == n && |t| == m && i <= n && k < 256
  {
    if i == 0 then 0 else Rows(a, s, t, n, m, i - 1, k) + RowTotal(a, s, t, n, m, i - 1, m, k)
  }

  function Columns(a: seq<seq<Poly>>, s: seq<Poly>, t: seq<Poly>, n: nat, m: nat, i: nat, j: nat, k: nat): int
    requires IsGrid(a, n, m) && |s| == n && |t| == m && i <= n && j <= m && k < 256
    decreases j
  {
    if j == 0 then 0 else Columns(a, s, t, n, m, i, j - 1, k) + ColumnTotal(a, s, t, n, m, i, j - 1, k)
  }

  lemma {:induction false} OneMoreRow(a: seq<seq<Poly>>, s: seq<Poly>, t: seq<Poly>, n: nat, m: nat, i: nat, j: nat,
                                      k: nat)
    requires IsGrid(a, n, m) && |s| == n && |t| == m && 0 < i <= n && j <= m && k < 256
    ensures Columns(a, s, t, n, m, i, j, k)
            == Columns(a, s, t, n, m, i - 1, j, k) + RowTotal(a, s, t, n, m, i - 1, j, k)
    decreases j
  {
    hide Term;
    if j > 0 { OneMoreRow(a, s, t, n, m, i, j - 1, k); }
  }

  lemma {:induction false} NoRows(a: seq<seq<Poly>>, s: seq<Poly>, t: seq<Poly>, n: nat, m: nat, j: nat, k: nat)
    requires IsGrid(a, n, m) && |s| == n && |t| == m && j <= m && k < 256
    ensures Columns(a, s, t, n, m, 0, j, k) == 0
  {
    if j > 0 { NoRows(a, s, t, n, m, j - 1, k); }
  }

  lemma {:induction false} Exchange(a: seq<seq<Poly>>, s: seq<Poly>, t: seq<Poly>, n: nat, m: nat, i: nat, k: nat)
    requires IsGrid(a, n, m) && |s| == n && |t| == m && i <= n && k < 256
    ensures Rows(a, s, t, n, m, i, k) == Columns(a, s, t, n, m, i, m, k)
  {
    hide RowTotal, ColumnTotal, Columns;
    if i == 0 {
      NoRows(a, s, t, n, m, m, k);
    } else {
      Exchange(a, s, t, n, m, i - 1, k);
      OneMoreRow(a, s, t, n, m, i, m, k);
    }
  }

  lemma DotStep(a: seq<Poly>, b: seq<Poly>, n: nat)
    requires 0 < n <= |a| && n <= |b|
    ensures DotPoly(a, b, n) == Plus(DotPoly(a, b, n - 1), 1, NegaMul(a[n - 1], b[n - 1]))
  {
    hide NegaMul;
  }

  /** Multiplying an inner product by `c`, one term at a time. */
  lemma DotTimes(a: seq<Poly>, b: seq<Poly>, n: nat, c: Poly, k: nat)
    requires n <= |a| && n <= |b| && k < 256
    ensures n == 0 ==> NegaMul(DotPoly(a, b, n), c)[k] == 0
    ensures n > 0 ==> NegaMul(DotPoly(a, b, n), c)[k]
                      == NegaMul(DotPoly(a, b, n - 1), c)[k] + NegaMul(NegaMul(a[n - 1], b[n - 1]), c)[k]
  {
    hide NegaMul;
    if n == 0 {
      MulComm(DotPoly(a, b, 0), c);
      MulOfZero(c, DotPoly(a, b, 0));
    } else {
      DotStep(a, b, n);
      MulLinearLeft(DotPoly(a, b, n - 1), 1, NegaMul(a[n - 1], b[n - 1]), c);
    }
  }

  lemma {:induction false} RowIs(a: seq<seq<Poly>>, s: seq<Poly>, t: seq<Poly>, n: nat, m: nat, i: nat, j: nat, k: nat)
    requires IsGrid(a, n, m) && |s| == n && |t| == m && i < n && j <= m && k < 256
    ensures NegaMul(DotPoly(a[i], t, j), s[i])[k] == RowTotal(a, s, t, n, m, i, j, k)
  {
    hide NegaMul, DotPoly;
    DotTimes(a[i], t, j, s[i], k);
    if j > 0 { RowIs(a, s, t, n, m, i, j - 1, k); }
  }

  lemma {:induction false} ColumnIs(a: seq<seq<Poly>>, s: seq<Poly>, t: seq<Poly>, n: nat, m: nat, i: nat, j: nat,
                                    k: nat)
    requires IsGrid(a, n, m) && |s| == n && |t| == m && i <= n && j < m && k < 256
    ensures NegaMul(DotPoly(PolyColumn(a, n, m, j), s, i), t[j])[k] == ColumnTotal(a, s, t, n, m, i, j, k)
  {
    hide NegaMul, DotPoly;
    DotTimes(PolyColumn(a, n, m, j), s, i, t[j], k);
    if i > 0 {
      ColumnIs(a, s, t, n, m, i - 1, j, k);
      MulExchange(a[i - 1][j], s[i - 1], t[j]);
    }
  }

  lemma {:induction false} RowsAre(a: seq<seq<Poly>>, s: seq<Poly>, t: seq<Poly>, n: nat, m: nat, u: seq<Poly>, i: nat,
                                   k: nat)
    requires IsGrid(a, n, m) && |s| == n && |t| == m && |u| == n && i <= n && k < 256
    requires forall r :: 0 <= r < n ==> u[r] == DotPoly(a[r], t, m)
    ensures DotPoly(u, s, i)[k] == Rows(a, s, t, n, m, i, k)
  {
    hide NegaMul, RowTotal;
    if i > 0 {
      RowsAre(a, s, t, n, m, u, i - 1, k);
      DotStep(u, s, i);
      RowIs(a, s, t, n, m, i - 1, m, k);
    }
  }

  lemma {:induction false} ColumnsAre(a: seq<seq<Poly>>, s: seq<Poly>, t: seq<Poly>, n: nat, m: nat, w: seq<Poly>,
                                      j: nat, k: nat)
    requires IsGrid(a, n, m) && |s| == n && |t| == m && |w| == m && j <= m && k < 256
    requires forall c :: 0 <= c < m ==> w[c] == DotPoly(PolyColumn(a, n, m, c), s, n)
    ensures DotPoly(w, t, j)[k] == Columns(a, s, t, n, m, n, j, k)
  {
    hide NegaMul, ColumnTotal, PolyColumn;
    if j > 0 {
      ColumnsAre(a, s, t, n, m, w, j - 1, k);
      DotStep(w, t, j);
      ColumnIs(a, s, t, n, m, n, j - 1, k);
    }
  }

  /** The two ways round a bilinear form: `u` is the matrix times `t`, `w` its transpose times `s`. */
  lemma Adjoint(a: seq<seq<Poly>>, s: seq<Poly>, t: seq<Poly>, n: nat, m: nat, u: seq<Poly>, w: seq<Poly>, k: nat)
    requires IsGrid(a, n, m) && |s| == n && |t| == m && |u| == n && |w| == m && k < 256
    requires forall r :: 0 <= r < n ==> u[r] == DotPoly(a[r], t, m)
    requires forall c :: 0 <= c < m ==> w[c] == DotPoly(PolyColumn(a, n, m, c), s, n)
    ensures DotPoly(u, s, n)[k] == DotPoly(w, t, m)[k]
  {
    RowsAre(a, s, t, n, m, u, n, k);
    ColumnsAre(a, s, t, n, m, w, m, k);
    Exchange(a, s, t, n, m, n, k);
  }

  // -------------------------------------------------------------------------------------------
  // What rounding throws away
  // -------------------------------------------------------------------------------------------

  /** `4 - e`, with `e` the three bits the rounding of `x` drops. */
  function Remainder(x: Elem): (p: Poly) {
    seq(256, k requires 0 <= k < 256 => 4 - AddToAll(x, 4)[k] as int % 8)
  }

  lemma EightRounded(x: Elem, k: nat)
    requires k < 256
    ensures Cong(8 * Rounded(x)[k] as int, x[k] as int + Remainder(x)[k], 8192)
  {
    Pow2Values();
    var y: int := AddToAll(x, 4)[k];
    assert Rounded(x)[k] == y / 8 by { hide Pow2, AddToAll; }
    assert y == WrapU16(x[k] as int + 4);
    hide Pow2, Rounded, Cong;
    Witness(8 * (y / 8), x[k] as int + (4 - y % 8), 0 - 8 * ((x[k] as int + 4) / 0x1_0000), 8192);
  }

  lemma EightLow(b: seq<Elem>, i: nat, k: nat)
    requires i < |b| && k < 256
    ensures Cong(8 * LowVector(b)[i][k] as int, 8 * b[i][k] as int, 8192)
  {
    hide PackElem, UnpackElem, Cong;
    LowElemAt(b[i], k);
    var x: int := b[i][k];
    Witness(8 * (x % 1024), 8 * x, 0 - x / 1024, 8192);
  }

  lemma {:induction false} DotPolyLinear(u: seq<Poly>, c: int, v: seq<Poly>, w: seq<Poly>, b: seq<Poly>, n: nat, k: nat)
    requires |u| == |v| == |w| == |b| && n <= |b| && k < 256
    requires forall j :: 0 <= j < |b| ==> w[j] == Plus(u[j], c, v[j])
    ensures DotPoly(w, b, n)[k] == DotPoly(u, b, n)[k] + c * DotPoly(v, b, n)[k]
  {
    if n > 0 {
      var j := n - 1;
      DotPolyLinear(u, c, v, w, b, j, k);
      hide NegaMul;
      MulLinearLeft(u[j], c, v[j], b[j]);
      DotStep(u, b, n);
      DotStep(v, b, n);
      DotStep(w, b, n);
      hide DotPoly;
      LinearStep(DotPoly(v, b, j)[k], NegaMul(v[j], b[j])[k], c);
    }
  }

  lemma LinearStep(x: int, y: int, c: int)
    ensures c * (x + y) == c * x + c * y
  {
  }

  lemma EightWrap(y: int)
    ensures Cong(8 * WrapU16(y) as int, 8 * y, 8192)
  {
    Witness(8 * WrapU16(y) as int, 8 * y, 0 - 64 * (y / 0x1_0000), 8192);
  }

  /** Eight times an inner product, when eight times the vector is `d + f`. */
  lemma EightDot(u: seq<Elem>, d: seq<Poly>, f: seq<Poly>, s: seq<Elem>, k: nat)
    requires |u| == |d| == |f| == |s| && k < 256
    requires forall i, c :: 0 <= i < |u| && 0 <= c < 256 ==> Cong(8 * u[i][c] as int, d[i][c] + f[i][c], 8192)
    ensures Cong(8 * Dot(u, s)[k] as int, DotPoly(d, RawAll(s), |s|)[k] + DotPoly(f, RawAll(s), |s|)[k], 8192)
  {
    hide *;
    EightAll(u, d, f, Combined(RawAll(u), 7, RawAll(u)), Combined(d, 1, f));
    EightDotFrom(u, d, f, s, k, Combined(RawAll(u), 7, RawAll(u)), Combined(d, 1, f));
  }

  lemma CombinedDot(u: seq<Poly>, c: int, v: seq<Poly>, b: seq<Poly>, k: nat)
    requires |u| == |v| == |b| && k < 256
    ensures DotPoly(Combined(u, c, v), b, |b|)[k] == DotPoly(u, b, |b|)[k] + c * DotPoly(v, b, |b|)[k]
  {
    hide DotPoly, Combined, Plus;
    DotPolyLinear(u, c, v, Combined(u, c, v), b, |b|, k);
  }

  lemma EightDotFrom(u: seq<Elem>, d: seq<Poly>, f: seq<Poly>, s: seq<Elem>, k: nat, eight: seq<Poly>, both: seq<Poly>)
    requires |u| == |d| == |f| == |s| && k < 256 && CongAll(eight, both, 8192)
    requires eight == Combined(RawAll(u), 7, RawAll(u)) && both == Combined(d, 1, f)
    ensures Cong(8 * Dot(u, s)[k] as int, DotPoly(d, RawAll(s), |s|)[k] + DotPoly(f, RawAll(s), |s|)[k], 8192)
  {
    var r := RawAll(s);
    assert |r| == |s|;
    hide *;
    DotAt(u, s, k);
    CongAllRefl(r, 8192);
    DotPolyCong(eight, both, r, r, |r|, k, 8192);
    CombinedDot(RawAll(u), 7, RawAll(u), r, k);
    CombinedDot(d, 1, f, r, k);
    var x, e, y, z, w := DotPoly(RawAll(u), r, |r|)[k], DotPoly(eight, r, |r|)[k], DotPoly(d, r, |r|)[k],
      DotPoly(f, r, |r|)[k], DotPoly(both, r, |r|)[k];
    EightFrom(x, e, y, z, w);
  }

  lemma EightFrom(x: int, eight: int, d: int, f: int, both: int)
    requires eight == x + 7 * x && both == d + 1 * f && Cong(eight, both, 8192)
    ensures Cong(8 * WrapU16(x) as int, d + f, 8192)
  {
    EightWrap(x);
    hide *;
    Trans(8 * WrapU16(x) as int, eight, both, 8192);
  }

  function Combined(u: seq<Poly>, c: int, v: seq<Poly>): (w: seq<Poly>)
    requires |u| == |v|
    ensures |w| == |u| && forall j :: 0 <= j < |u| ==> w[j] == Plus(u[j], c, v[j])
  {
    seq(|u|, i requires 0 <= i < |u| => Plus(u[i], c, v[i]))
  }

  lemma EightAll(u: seq<Elem>, d: seq<Poly>, f: seq<Poly>, eight: seq<Poly>, both: seq<Poly>)
    requires |u| == |d| == |f| && eight == Combined(RawAll(u), 7, RawAll(u)) && both == Combined(d, 1, f)
    requires forall i, c :: 0 <= i < |u| && 0 <= c < 256 ==> Cong(8 * u[i][c] as int, d[i][c] + f[i][c], 8192)
    ensures CongAll(eight, both, 8192)
  {
    hide Cong, Combined;
    forall i | 0 <= i < |u| ensures CongSeq(eight[i], both[i], 8192) {
      forall c | 0 <= c < 256 ensures Cong(eight[i][c], both[i][c], 8192) {
        assert eight[i][c] == 8 * u[i][c] as int && both[i][c] == d[i][c] + f[i][c];
      }
    }
  }

  lemma DotAt(x: seq<Elem>, s: seq<Elem>, k: nat)
    requires |x| == |s| && k < 256
    ensures Dot(x, s)[k] == WrapU16(DotPoly(RawAll(x), RawAll(s), |s|)[k])
  {
    hide DotPoly, WrapU16;
  }

  // -------------------------------------------------------------------------------------------
  // The identity
  // -------------------------------------------------------------------------------------------

  /** `4 - e'`, for the encryption vector, and `4 - e`, for the key's. */
  function RowRemainders(l: nat, a: Matrix<Elem>, sp: seq<Elem>): (f: seq<Poly>)
    requires IsMatrix(a, l, l) && |sp| == l
    ensures |f| == l
  {
    seq(l, i requires 0 <= i < l => Remainder(Dot(Row(a, l, l, i), sp)))
  }

  function ColumnRemainders(l: nat, a: Matrix<Elem>, s: seq<Elem>): (f: seq<Poly>)
    requires IsMatrix(a, l, l) && |s| == l
    ensures |f| == l
  {
    seq(l, j requires 0 <= j < l => Remainder(Dot(Column(a, l, l, j), s)))
  }

  function Grid(a: Matrix<Elem>, l: nat): (g: seq<seq<Poly>>)
    requires IsMatrix(a, l, l)
    ensures IsGrid(g, l, l)
  {
    seq(l, i requires 0 <= i < l => RawAll(a[i]))
  }

  lemma GridColumn(a: Matrix<Elem>, l: nat, j: nat)
    requires IsMatrix(a, l, l) && j < l
    ensures PolyColumn(Grid(a, l), l, l, j) == RawAll(Column(a, l, l, j))
  {
    hide Raw;
  }

  /** One rounded product, times eight. */
  lemma EightProduct(x: seq<Elem>, s: seq<Elem>, c: nat)
    requires |x| == |s| && c < 256
    ensures Cong(8 * Rounded(Dot(x, s))[c] as int, DotPoly(RawAll(x), RawAll(s), |s|)[c] + Remainder(Dot(x, s))[c],
            8192)
  {
    hide *;
    var y := DotPoly(RawAll(x), RawAll(s), |s|)[c];
    DotAt(x, s, c);
    EightRounded(Dot(x, s), c);
    UnwrapTerm(8 * Rounded(Dot(x, s))[c] as int, y, Remainder(Dot(x, s))[c]);
  }

  lemma UnwrapTerm(z: int, y: int, e: int)
    requires Cong(z, WrapU16(y) as int + e, 8192)
    ensures Cong(z, y + e, 8192)
  {
    Witness(WrapU16(y) as int + e, y + e, 0 - 8 * (y / 0x1_0000), 8192);
    hide WrapU16, Cong;
    Trans(z, WrapU16(y) as int + e, y + e, 8192);
  }

  /** Encryption's inner product with the key vector. */
  lemma SentSide(l: nat, a: Matrix<Elem>, s: seq<Elem>, sp: seq<Elem>, w: seq<Poly>, k: nat)
    requires IsMatrix(a, l, l) && |s| == |sp| == |w| == l && k < 256
    requires forall j :: 0 <= j < l ==> w[j] == DotPoly(RawAll(Column(a, l, l, j)), RawAll(s), l)
    ensures Cong(8 * Dot(KeyVector(l, a, s), sp)[k] as int,
                 DotPoly(w, RawAll(sp), l)[k] + DotPoly(ColumnRemainders(l, a, s), RawAll(sp), l)[k], 8192)
  {
    hide Cong, DotPoly, Dot, Rounded, Remainder, Column;
    var b, f := KeyVector(l, a, s), ColumnRemainders(l, a, s);
    forall j, c | 0 <= j < l && 0 <= c < 256
      ensures Cong(8 * b[j][c] as int, w[j][c] + f[j][c], 8192)
    {
      EightProduct(Column(a, l, l, j), s, c);
    }
    EightDot(b, w, f, sp, k);
  }

  /** Decryption's inner product with the received vector. */
  lemma ReceivedSide(l: nat, a: Matrix<Elem>, s: seq<Elem>, sp: seq<Elem>, u: seq<Poly>, k: nat)
    requires IsMatrix(a, l, l) && |s| == |sp| == |u| == l && k < 256
    requires forall i :: 0 <= i < l ==> u[i] == DotPoly(RawAll(Row(a, l, l, i)), RawAll(sp), l)
    ensures Cong(8 * Received(l, a, sp, s)[k] as int,
                 DotPoly(u, RawAll(s), l)[k] + DotPoly(RowRemainders(l, a, sp), RawAll(s), l)[k], 8192)
  {
    hide Cong, DotPoly, Dot, Rounded, Remainder, Row, LowVector;
    var b, f := BPrime(l, a, sp), RowRemainders(l, a, sp);
    forall i, c | 0 <= i < l && 0 <= c < 256
      ensures Cong(8 * LowVector(b)[i][c] as int, u[i][c] + f[i][c], 8192)
    {
      EightLow(b, i, c);
      EightProduct(Row(a, l, l, i), sp, c);
      Trans(8 * LowVector(b)[i][c] as int, 8 * b[i][c] as int, u[i][c] + f[i][c], 8192);
    }
    EightDot(LowVector(b), u, f, s, k);
  }

  /** With the key vector of `s`, decryption's and encryption's inner products differ, times eight, by
      the two rounding remainders' inner products with the secrets, modulo 2^13. */
  lemma NoiseIdentity(l: nat, a: Matrix<Elem>, s: seq<Elem>, sp: seq<Elem>, k: nat)
    requires IsMatrix(a, l, l) && |s| == |sp| == l && k < 256
    ensures Cong(8 * (Received(l, a, sp, s)[k] as int - Dot(KeyVector(l, a, s), sp)[k] as int),
                 DotPoly(RowRemainders(l, a, sp), RawAll(s), l)[k]
                   - DotPoly(ColumnRemainders(l, a, s), RawAll(sp), l)[k], 8192)
  {
    hide *;
    var u, w := RowProducts(l, a, sp), ColumnProducts(l, a, s);
    AdjointProducts(l, a, s, sp, k);
    ReceivedSide(l, a, s, sp, u, k);
    SentSide(l, a, s, sp, w, k);
    var x, y := Received(l, a, sp, s)[k] as int, Dot(KeyVector(l, a, s), sp)[k] as int;
    var z, p, q := DotPoly(u, RawAll(s), l)[k], DotPoly(RowRemainders(l, a, sp), RawAll(s), l)[k],
                   DotPoly(ColumnRemainders(l, a, s), RawAll(sp), l)[k];
    Sub(8 * x, z + p, 8 * y, z + q, 8192);
  }

  /** The unrounded products `A s'` and `A^T s`, over the integers. */
  function RowProducts(l: nat, a: Matrix<Elem>, sp: seq<Elem>): (u: seq<Poly>)
    requires IsMatrix(a, l, l) && |sp| == l
    ensures |u| == l && forall i :: 0 <= i < l ==> u[i] == DotPoly(RawAll(Row(a, l, l, i)), RawAll(sp), l)
  {
    seq(l, i requires 0 <= i < l => DotPoly(RawAll(Row(a, l, l, i)), RawAll(sp), l))
  }

  function ColumnProducts(l: nat, a: Matrix<Elem>, s: seq<Elem>): (w: seq<Poly>)
    requires IsMatrix(a, l, l) && |s| == l
    ensures |w| == l && forall j :: 0 <= j < l ==> w[j] == DotPoly(RawAll(Column(a, l, l, j)), RawAll(s), l)
  {
    seq(l, j requires 0 <= j < l => DotPoly(RawAll(Column(a, l, l, j)), RawAll(s), l))
  }

  lemma AdjointProducts(l: nat, a: Matrix<Elem>, s: seq<Elem>, sp: seq<Elem>, k: nat)
    requires IsMatrix(a, l, l) && |s| == |sp| == l && k < 256
    ensures DotPoly(RowProducts(l, a, sp), RawAll(s), l)[k] == DotPoly(ColumnProducts(l, a, s), RawAll(sp), l)[k]
  {
    hide DotPoly, RowProducts, ColumnProducts, Column, PolyColumn, Raw;
    var g, u, w := Grid(a, l), RowProducts(l, a, sp), ColumnProducts(l, a, s);
    forall j | 0 <= j < l
      ensures w[j] == DotPoly(PolyColumn(g, l, l, j), RawAll(s), l)
    {
      GridColumn(a, l, j);
    }
    Adjoint(g, RawAll(s), RawAll(sp), l, l, u, w, k);
  }

  // -------------------------------------------------------------------------------------------
  // Honest ciphertexts
  // -------------------------------------------------------------------------------------------

  /** The noise in coefficient `k`, an integer, with the secrets read as the signed values they are. */
  function NoiseAt(l: nat, a: Matrix<Elem>, s: seq<Elem>, sp: seq<Elem>, k: nat): int
    requires IsMatrix(a, l, l) && |s| == |sp| == l && k < 256
  {
    DotPoly(RowRemainders(l, a, sp), SignedAll(s), l)[k] - DotPoly(ColumnRemainders(l, a, s), SignedAll(sp), l)[k]
  }

  lemma SignedDot(f: seq<Poly>, s: seq<Elem>, k: nat)
    requires |f| == |s| && k < 256
    ensures Cong(DotPoly(f, RawAll(s), |s|)[k], DotPoly(f, SignedAll(s), |s|)[k], 8192)
  {
    hide Cong, DotPoly, RawAll, SignedAll;
    SignedAllCong(s);
    CongAllRefl(f, 0x1_0000);
    DotPolyCong(f, f, SignedAll(s), RawAll(s), |s|, k, 0x1_0000);
    Coarser(DotPoly(f, SignedAll(s), |s|)[k], DotPoly(f, RawAll(s), |s|)[k]);
  }

  lemma Coarser(x: int, y: int)
    requires Cong(x, y, 0x1_0000)
    ensures Cong(y, x, 8192)
  {
    var k :| x - y == Times(k, 0x1_0000);
    Witness(y, x, -8 * k, 8192);
  }

  lemma SignedNoise(l: nat, a: Matrix<Elem>, s: seq<Elem>, sp: seq<Elem>, k: nat)
    requires IsMatrix(a, l, l) && |s| == |sp| == l && k < 256
    ensures Cong(8 * (Received(l, a, sp, s)[k] as int - Dot(KeyVector(l, a, s), sp)[k] as int), NoiseAt(l, a, s, sp, k),
            8192)
  {
    var f, g := RowRemainders(l, a, sp), ColumnRemainders(l, a, s);
    hide *;
    NoiseIdentity(l, a, s, sp, k);
    SignedDot(f, s, k);
    SignedDot(g, sp, k);
    Sub(DotPoly(f, RawAll(s), l)[k], DotPoly(f, SignedAll(s), l)[k], DotPoly(g, RawAll(sp), l)[k],
      DotPoly(g, SignedAll(sp), l)[k], 8192);
    NoiseAtIs(l, a, s, sp, k);
    Trans(8 * (Received(l, a, sp, s)[k] as int - Dot(KeyVector(l, a, s), sp)[k] as int),
          DotPoly(f, RawAll(s), l)[k] - DotPoly(g, RawAll(sp), l)[k], NoiseAt(l, a, s, sp, k), 8192);
  }

  lemma NoiseAtIs(l: nat, a: Matrix<Elem>, s: seq<Elem>, sp: seq<Elem>, k: nat)
    requires IsMatrix(a, l, l) && |s| == |sp| == l && k < 256
    ensures NoiseAt(l, a, s, sp, k)
            == DotPoly(RowRemainders(l, a, sp), SignedAll(s), l)[k]
              - DotPoly(ColumnRemainders(l, a, s), SignedAll(sp), l)[k]
  {
  }

  lemma DivideByEight(d: int, n: int)
    requires Cong(8 * d, n, 8192)
    ensures Cong(d, n / 8, 1024)
  {
    var k :| 8 * d - n == Times(k, 8192);
    Witness(d, n / 8, k, 1024);
  }

  /** An honest ciphertext decrypts whenever the noise of every coefficient is within
      `8 * (2^8 - 2^(9 - t))`. */
  lemma SmallNoiseDecrypts(ps: ParamSet, a: Matrix<Elem>, s: seq<Elem>, sp: seq<Elem>, msg: Bytes)
    requires IsParamSet(ps) && IsMatrix(a, ps.l, ps.l) && |s| == |sp| == ps.l && |msg| == 32
    requires forall k :: 0 <= k < 256 ==>
      -(8 * (256 - Pow2(9 - ps.t))) <= NoiseAt(ps.l, a, s, sp, k) <= 8 * (256 - Pow2(9 - ps.t))
    ensures Plaintext(ps, s, CiphertextOf(ps, a, KeyVector(ps.l, a, s), sp, msg)) == msg
  {
    Shape(ps);
    hide *;
    var b := KeyVector(ps.l, a, s);
    forall k | 0 <= k < 256
      ensures Survives(ps.t, Received(ps.l, a, sp, s), Dot(b, sp), msg, k)
    {
      SignedNoise(ps.l, a, s, sp, k);
      var n := NoiseAt(ps.l, a, s, sp, k);
      DivideByEight(Received(ps.l, a, sp, s)[k] as int - Dot(b, sp)[k] as int, n);
      SmallNoiseSurvives(ps.t, Received(ps.l, a, sp, s), Dot(b, sp), msg, k, n / 8);
    }
    DecryptsIff(ps, a, b, sp, s, msg);
  }
}
