/** The AVX2 transform: sixteen lanes at a time, the four inner levels on a transposed block. */
module Avx2Ntt {
  import opened Words
  import opened Congruence
  import opened Tables
  import opened Params
  import opened Lane
  import opened Levels
  import opened Schedules
  import opened RingMul
  import opened Avx2Lanes
  import NttCrt

  // -------------------------------------------------------------------------------------------
  // Vectors in memory
  // -------------------------------------------------------------------------------------------

  /** `load_i16`. */
  function Load(s: seq<i16>, i: nat): (v: V16)
    requires 16 * i + 16 <= |s|
    ensures forall p :: 16 * i <= p < 16 * i + 16 ==> v[p - 16 * i] == s[p]
  {
    s[16 * i..16 * i + 16]
  }

  /** `store_i16`. */
  method Store(b: array<i16>, i: nat, v: V16)
    requires 16 * i + 16 <= b.Length
    modifies b
    ensures forall p :: 0 <= p < b.Length ==> b[p] == if 16 * i <= p < 16 * i + 16 then v[p - 16 * i] else old(b[p])
  {
    forall m | 0 <= m < 16 {
      b[16 * i + m] := v[m];
    }
  }

  /** `ct_butterfly` and `gs_butterfly`. */
  method Butterfly(dir: Dir, lo: V16, hi: V16, z: V16, zq: V16, q: V16) returns (a: V16, b: V16)
    ensures forall m :: 0 <= m < 16 ==> (a[m], b[m]) == LaneFly(dir, lo[m], hi[m], z[m], zq[m], q[m])
  {
    hide MontMul, Wrap16, Avx2MontMul;
    if dir.Forward? {
      var t := Avx2MontMul(hi, z, zq, q);
      b := SubEpi16(lo, t);
      a := AddEpi16(lo, t);
      forall m | 0 <= m < 16 ensures t[m] == MontMul(hi[m], z[m], zq[m], q[m]) {
        Avx2MontMulIsMontMul(hi, z, zq, q, m);
      }
    } else {
      var diff := SubEpi16(lo, hi);
      a := AddEpi16(lo, hi);
      b := Avx2MontMul(diff, z, zq, q);
      forall m | 0 <= m < 16 ensures b[m] == MontMul(diff[m], z[m], zq[m], q[m]) {
        Avx2MontMulIsMontMul(diff, z, zq, q, m);
      }
    }
  }

  method BarrettBlock(second: bool, b: array<i16>)
    requires b.Length == 256
    modifies b
    ensures b[..] == B(second, old(b[..]))
  {
    hide Barrett, Avx2Barrett, BarrettM, Q;
    var q, m := Set16(Q(second)), Set16(BarrettM(second));
    ghost var s: Block := b[..];
    for i := 0 to 16
      invariant forall p :: 0 <= p < 16 * i ==> b[p] == Barrett(s[p], BarrettM(second), Q(second))
      invariant forall p :: 16 * i <= p < 256 ==> b[p] == s[p]
    {
      var x := Load(b[..], i);
      forall j | 0 <= j < 16
        ensures Avx2Barrett(x, m, Set16(0x400), q)[j] == Barrett(x[j], BarrettM(second), Q(second))
      {
        Avx2BarrettIsBarrett(x, m, q, j);
      }
      Store(b, i, Avx2Barrett(x, m, Set16(0x400), q));
    }
  }

  /** The lane of a register that memory position `p` meets. */
  function Cyclic(v: V16, p: nat): i16 {
    v[p % 16]
  }

  lemma CyclicAt(v: V16, i: nat, half: nat)
    ensures forall p :: 16 * i <= p < 16 * i + 16 ==> Cyclic(v, p) == v[p - 16 * i]
    ensures forall p :: 16 * (i + half) <= p < 16 * (i + half) + 16 ==> Cyclic(v, p) == v[p - 16 * (i + half)]
  {
    hide Cyclic;
    forall p | 16 * i <= p < 16 * i + 16 ensures Cyclic(v, p) == v[p - 16 * i] { CyclicOne(v, i, p); }
    var k := i + half;
    forall p | 16 * k <= p < 16 * k + 16 ensures Cyclic(v, p) == v[p - 16 * k] { CyclicOne(v, k, p); }
  }

  lemma CyclicOne(v: V16, i: nat, p: nat)
    requires 16 * i <= p < 16 * i + 16
    ensures Cyclic(v, p) == v[p - 16 * i]
  {
    DivUnique(p, 16, i, p - 16 * i);
  }

  /** Lanes `j` and `j + len` of `b` are the butterfly of those of `s` with their lane's multiplier. */
  ghost predicate LaneFlyAt(dir: Dir, second: bool, len: nat, s: Block, b: Block, j: nat, z: V16, zq: V16) {
    j + len < 256 && (b[j], b[j + len]) == LaneFly(dir, s[j], s[j + len], Cyclic(z, j), Cyclic(zq, j), Q(second))
  }

  lemma CyclicShift(v: V16, p: nat, half: nat)
    ensures Cyclic(v, p + 16 * half) == Cyclic(v, p)
  {
    DivUnique(p + 16 * half, 16, p / 16 + half, p % 16);
  }

  /** One pair of vectors: load, butterfly, store. */
  method PairOne(dir: Dir, second: bool, b: array<i16>, i: nat, half: nat, z: V16, zq: V16)
    requires b.Length == 256 && 0 < half && i + half < 16
    modifies b
    ensures forall p :: 16 * i <= p < 16 * i + 16 ==>
      b[p] == old(LaneFly(dir, b[p], b[p + 16 * half], Cyclic(z, p), Cyclic(zq, p), Q(second)).0)
    ensures forall p :: 16 * (i + half) <= p < 16 * (i + half) + 16 ==>
      b[p] == old(LaneFly(dir, b[p - 16 * half], b[p], Cyclic(z, p), Cyclic(zq, p), Q(second)).1)
    ensures forall p :: 0 <= p < 16 * i || 16 * i + 16 <= p < 16 * (i + half) || 16 * (i + half) + 16 <= p < 256 ==>
      b[p] == old(b[p])
  {
    hide LaneFly, Q, Cyclic, Load;
    CyclicAt(z, i, half);
    CyclicAt(zq, i, half);
    ghost var s := b[..];
    var x, y := Butterfly(dir, Load(b[..], i), Load(b[..], i + half), z, zq, Set16(Q(second)));
    Store(b, i, x);
    Store(b, i + half, y);
    forall p | 16 * i <= p < 16 * i + 16
      ensures b[p] == LaneFly(dir, s[p], s[p + 16 * half], Cyclic(z, p), Cyclic(zq, p), Q(second)).0
    {
      assert Load(s, i + half)[p + 16 * half - 16 * (i + half)] == s[p + 16 * half];
    }
  }

  /** One run of butterflies: vectors `start..start + half` against those `half` further on. */
  method PairVectors(dir: Dir, second: bool, b: array<i16>, start: nat, half: nat, z: V16, zq: V16)
    requires b.Length == 256 && start + 2 * half <= 16
    modifies b
    ensures forall j :: 16 * start <= j < 16 * start + 16 * half ==>
            LaneFlyAt(dir, second, 16 * half, old(b[..]), b[..], j, z, zq)
    ensures forall p :: 0 <= p < 256 && !(16 * start <= p < 16 * start + 32 * half) ==> b[p] == old(b[p])
  {
    hide LaneFly, Q, Cyclic;
    ghost var s: Block := b[..];
    for i := start to start + half
      invariant forall p :: 16 * start <= p < 16 * i ==>
        b[p] == LaneFly(dir, s[p], s[p + 16 * half], Cyclic(z, p), Cyclic(zq, p), Q(second)).0
      invariant forall p :: 16 * start + 16 * half <= p < 16 * i + 16 * half ==>
        b[p] == LaneFly(dir, s[p - 16 * half], s[p], Cyclic(z, p), Cyclic(zq, p), Q(second)).1
      invariant forall p :: 0 <= p < 16 * start ==> b[p] == s[p]
      invariant forall p :: 16 * i <= p < 16 * start + 16 * half ==> b[p] == s[p]
      invariant forall p :: 16 * i + 16 * half <= p < 256 ==> b[p] == s[p]
    {
      PairOne(dir, second, b, i, half, z, zq);
    }
    forall j | 16 * start <= j < 16 * start + 16 * half
      ensures LaneFlyAt(dir, second, 16 * half, s, b[..], j, z, zq)
    {
      assert b[j + 16 * half] == LaneFly(dir, s[j], s[j + 16 * half], Cyclic(z, j + 16 * half),
             Cyclic(zq, j + 16 * half), Q(second)).1;
      CyclicShift(z, j, half);
      CyclicShift(zq, j, half);
    }
  }

  // -------------------------------------------------------------------------------------------
  // Levels whose halves are whole vectors
  // -------------------------------------------------------------------------------------------

  predicate IsHalf(half: nat) {
    half == 8 || half == 4 || half == 2 || half == 1
  }

  lemma HalfFacts(half: nat)
    requires IsHalf(half)
    ensures IsLen(16 * half) && 128 / (16 * half) == 8 / half && 256 / (16 * half) == 16 / half == 2 * (8 / half)
    ensures 2 * half * (8 / half) == 16 && 0 < 8 / half <= 8
  {
  }

  lemma VecProgress(half: nat, n: nat, t: nat)
    requires 0 < half && 2 * half * n == 16 && t <= n
    ensures 2 * half * t < 16 <==> t < n
    ensures t < n ==> 2 * half * t + 2 * half <= 16 && 2 * half * (t + 1) == 2 * half * t + 2 * half
    ensures 2 * (16 * half) * t == 16 * (2 * half * t)
  {
    if t < n { MulMono(t + 1, n, 2 * half); }
  }

  /** One level with `len = 16 * half`, its multiplier broadcast; `k` walks the table. */
  method BroadcastLevel(dir: Dir, second: bool, b: array<i16>, half: nat, k0: nat) returns (k: nat)
    requires b.Length == 256 && IsHalf(half)
    requires if dir.Forward? then k0 + 1 == 8 / half else k0 == 16 / half
    modifies b
    ensures b[..] == MLevel(dir, second, 16 * half, old(b[..]))
    ensures if dir.Forward? then k + 1 == 16 / half else k == 8 / half
  {
    HalfFacts(half);
    hide *;
    ghost var s: Block := b[..];
    ghost var r := MLevel(dir, second, 16 * half, s);
    ghost var n := 8 / half;
    k := k0;
    var start := 0;
    ghost var t := 0;
    while start < 16
      invariant 0 <= t <= n && start == 2 * half * t && start <= 16
      invariant k == if dir.Forward? then k0 + t else k0 - t
      invariant forall p :: 0 <= p < 16 * start ==> b[p] == r[p]
      invariant forall p :: 16 * start <= p < 256 ==> b[p] == s[p]
      decreases n - t
    {
      VecProgress(half, n, t);
      if dir.Forward? { k := k + 1; } else { k := k - 1; }
      var z := Multiplier(dir, second, k);
      ghost var before: Block := b[..];
      PairVectors(dir, second, b, start, half, Set16(z), Set16(Twin(second, z)));
      BroadcastFly(dir, second, 16 * half, k, before, b[..], 16 * start);
      NttCrt.BlockAgrees(dir, second, 16 * half, s, before, b[..], t, k, 16 * start);
      start := start + 2 * half;
      t := t + 1;
    }
    VecProgress(half, n, t);
  }

  lemma BroadcastFly(dir: Dir, second: bool, len: nat, k: nat, s: Block, b: Block, from: nat)
    requires k < 256
    requires var z := Multiplier(dir, second, k);
             forall j :: from <= j < from + len ==>
               LaneFlyAt(dir, second, len, s, b, j, Set16(z), Set16(Twin(second, z)))
    ensures forall j :: from <= j < from + len ==> NttCrt.FlyAt(dir, second, len, k, s, b, j)
  {
    hide Multiplier, LaneFly, Twin, Q;
    var z := Multiplier(dir, second, k);
    forall j | from <= j < from + len
      ensures NttCrt.FlyAt(dir, second, len, k, s, b, j)
    {
      assert LaneFlyAt(dir, second, len, s, b, j, Set16(z), Set16(Twin(second, z)));
    }
  }

  // -------------------------------------------------------------------------------------------
  // Transposition
  // -------------------------------------------------------------------------------------------

  /** The block as a 16x16 matrix, transposed. */
  function T16(s: Block): (r: Block) {
    seq(256, p requires 0 <= p < 256 => s[16 * (p % 16) + p / 16])
  }

  lemma T16At(s: Block, k: nat, m: nat)
    requires k < 16 && m < 16
    ensures T16(s)[16 * k + m] == s[16 * m + k]
  {
  }

  lemma T16Twice(s: Block)
    ensures T16(T16(s)) == s
  {
    forall p | 0 <= p < 256 ensures T16(T16(s))[p] == s[p] {
      var k, m := p / 16, p % 16;
      T16At(T16(s), k, m);
      T16At(s, m, k);
    }
  }

  lemma T16Barrett(second: bool, s: Block)
    ensures B(second, T16(s)) == T16(B(second, s))
  {
    hide Barrett;
  }

  /** Where the first stage of `transpose16` takes position `p` from: the 8x8 block `p` is in,
      transposed. */
  function InlaneSource(p: nat): (i: nat)
    requires p < 256
    ensures i < 256
  {
    128 * (p / 128) + 16 * (p % 8) + 8 * (p / 8 % 2) + p / 16 % 8
  }

  /** Transposing the four 8x8 blocks in place, for one half of the block. */
  method TransposeHalf(b: array<i16>, scratch: array<i16>, half: nat)
    requires b.Length == 256 && scratch.Length == 256 && b != scratch && half < 2
    modifies scratch
    ensures forall p :: 128 * half <= p < 128 * half + 128 ==> scratch[p] == b[InlaneSource(p)]
    ensures forall p :: 0 <= p < 256 && !(128 * half <= p < 128 * half + 128) ==> scratch[p] == old(scratch[p])
  {
    hide InlaneTranspose8, InlaneSource;
    ghost var s: Block := b[..];
    var v: seq<V16> := seq(8, j requires 0 <= j < 8 reads b => b[16 * (8 * half + j)..16 * (8 * half + j) + 16]);
    var w := InlaneTranspose8(v);
    for j := 0 to 8
      invariant forall p :: 128 * half <= p < 128 * half + 16 * j ==> scratch[p] == s[InlaneSource(p)]
      invariant forall p :: 0 <= p < 256 && !(128 * half <= p < 128 * half + 128) ==> scratch[p] == old(scratch[p])
      invariant b[..] == s
    {
      Store(scratch, 8 * half + j, w[j]);
      InlaneRow(s, v, half, j);
    }
  }

  lemma InlaneRow(s: Block, v: seq<V16>, half: nat, j: nat)
    requires half < 2 && j < 8 && |v| == 8
    requires forall c :: 0 <= c < 8 ==> v[c] == s[16 * (8 * half + c)..16 * (8 * half + c) + 16]
    ensures forall p :: 16 * (8 * half + j) <= p < 16 * (8 * half + j) + 16 ==>
      InlaneTranspose8(v)[j][p - 16 * (8 * half + j)] == s[InlaneSource(p)]
  {
    hide InlaneTranspose8;
    forall p | 16 * (8 * half + j) <= p < 16 * (8 * half + j) + 16
      ensures InlaneTranspose8(v)[j][p - 16 * (8 * half + j)] == s[InlaneSource(p)]
    {
      var l := p - 16 * (8 * half + j);
      InlaneTransposes(v, l / 8, j, l % 8);
      InlaneSourceIs(half, j, l);
    }
  }

  lemma InlaneSourceIs(half: nat, j: nat, l: nat)
    requires half < 2 && j < 8 && l < 16
    ensures InlaneSource(16 * (8 * half + j) + l) == 16 * (8 * half + l % 8) + 8 * (l / 8) + j
  {
    var p := 16 * (8 * half + j) + l;
    assert p / 128 == half && p / 16 % 8 == j && p / 8 % 2 == l / 8 && p % 8 == l % 8;
  }

  /** `transpose16`. */
  method Transpose16(b: array<i16>)
    requires b.Length == 256
    modifies b
    ensures b[..] == T16(old(b[..]))
  {
    hide InlaneSource, T16;
    ghost var s: Block := b[..];
    var scratch := new i16[256](_ => 0);
    TransposeHalf(b, scratch, 0);
    TransposeHalf(b, scratch, 1);
    ghost var u: Block := scratch[..];
    for r := 0 to 8
      invariant scratch[..] == u
      invariant forall p :: 0 <= p < 16 * r || 128 <= p < 128 + 16 * r ==> b[p] == T16(s)[p]
    {
      var a, c := Load(scratch[..], r), Load(scratch[..], 8 + r);
      Store(b, r, Permute2x128(a, c, 0));
      Store(b, 8 + r, Permute2x128(a, c, 8));
      PermuteRows(s, u, r);
    }
  }

  lemma PermuteRows(s: Block, u: Block, r: nat)
    requires r < 8 && forall p :: 0 <= p < 256 ==> u[p] == s[InlaneSource(p)]
    ensures var a, c := Load(u, r), Load(u, 8 + r);
            && (forall p :: 16 * r <= p < 16 * r + 16 ==> Permute2x128(a, c, 0)[p - 16 * r] == T16(s)[p])
            && (forall p :: 16 * (8 + r) <= p < 16 * (8 + r) + 16 ==>
              Permute2x128(a, c, 8)[p - 16 * (8 + r)] == T16(s)[p])
  {
    hide *;
    var a, c := Load(u, r), Load(u, 8 + r);
    forall p | 16 * r <= p < 16 * r + 16 ensures Permute2x128(a, c, 0)[p - 16 * r] == T16(s)[p] {
      PermuteLane(s, u, r, a, c, (p - 16 * r) / 8, (p - 16 * r) % 8, 0);
    }
    forall p | 16 * (8 + r) <= p < 16 * (8 + r) + 16 ensures Permute2x128(a, c, 8)[p - 16 * (8 + r)] == T16(s)[p] {
      PermuteLane(s, u, r, a, c, (p - 16 * (8 + r)) / 8, (p - 16 * (8 + r)) % 8, 8);
    }
  }

  /** Lane `8 * half + e` of the rows the last stage stores. */
  lemma PermuteLane(s: Block, u: Block, r: nat, a: V16, c: V16, half: nat, e: nat, hi: nat)
    requires r < 8 && half < 2 && e < 8 && (hi == 0 || hi == 8)
    requires a == Load(u, r) && c == Load(u, 8 + r)
    requires forall p :: 0 <= p < 256 ==> u[p] == s[InlaneSource(p)]
    ensures Permute2x128(a, c, hi)[8 * half + e] == T16(s)[16 * (hi + r) + 8 * half + e]
  {
    hide *;
    var v, j, k := if half == 0 then a else c, 8 * half + r, hi + e;
    assert v == Load(u, j);
    LaneSource(s, u, j, k, v);
    PermutedSource(half, r, hi, e);
    PermutedLane(s, a, c, half, r, hi, e, v[k]);
  }

  lemma PermutedLane(s: Block, a: V16, c: V16, half: nat, r: nat, hi: nat, e: nat, x: i16)
    requires r < 8 && half < 2 && e < 8 && (hi == 0 || hi == 8)
    requires x == (if half == 0 then a else c)[hi + e] == s[16 * (8 * half + e) + (hi + r)]
    ensures Permute2x128(a, c, hi)[8 * half + e] == T16(s)[16 * (hi + r) + 8 * half + e]
  {
    PermuteAt(a, c, hi, half, e);
    hide *;
    T16At(s, hi + r, 8 * half + e);
  }

  lemma LaneSource(s: Block, u: Block, j: nat, k: nat, v: V16)
    requires j < 16 && k < 16 && v == Load(u, j)
    requires forall p :: 0 <= p < 256 ==> u[p] == s[InlaneSource(p)]
    ensures v[k] == s[InlaneSource(16 * j + k)]
  {
    LoadAt(u, j, k);
    hide *;
    assert u[16 * j + k] == s[InlaneSource(16 * j + k)];
  }

  lemma LoadAt(s: Block, i: nat, k: nat)
    requires i < 16 && k < 16
    ensures Load(s, i)[k] == s[16 * i + k]
  {
  }

  lemma PermutedSource(half: nat, r: nat, hi: nat, e: nat)
    requires half < 2 && r < 8 && (hi == 0 || hi == 8) && e < 8
    ensures InlaneSource(16 * (8 * half + r) + (hi + e)) == 16 * (8 * half + e) + (hi + r)
  {
    hide InlaneSource;
    InlaneSourceIs(half, r, hi + e);
    LowBits(hi, e);
  }

  lemma PermuteAt(a: V16, c: V16, hi: nat, half: nat, e: nat)
    requires half < 2 && e < 8 && (hi == 0 || hi == 8)
    ensures Permute2x128(a, c, hi)[8 * half + e] == (if half == 0 then a else c)[hi + e]
  {
  }

  lemma LowBits(hi: nat, o: nat)
    requires (hi == 0 || hi == 8) && o < 8
    ensures (hi + o) % 8 == o && 8 * ((hi + o) / 8) == hi
  {
  }

  // -------------------------------------------------------------------------------------------
  // Levels inside a vector, on the transposed block
  // -------------------------------------------------------------------------------------------

  /** The multiplier `lane_tbl` puts at lane `m` of group `h`. */
  function TableEntry(dir: Dir, second: bool, half: nat, h: nat, m: nat): i16
    requires IsHalf(half) && h < 8 / half && m < 16
  {
    TableIndexRange(dir, half, h, m);
    Multiplier(dir, second, TableIndex(dir, half, h, m))
  }

  /** `base + h * h_stride + m * m_stride` with the arguments of the source's tables. */
  function TableIndex(dir: Dir, half: nat, h: nat, m: nat): int
    requires IsHalf(half)
  {
    if dir.Forward? then 128 / half + h + m * (8 / half) else 256 / half - 1 - h - m * (8 / half)
  }

  lemma TableIndexRange(dir: Dir, half: nat, h: nat, m: nat)
    requires IsHalf(half) && h < 8 / half && m < 16
    ensures 0 < TableIndex(dir, half, h, m) < 256
  {
    if half == 8 { } else if half == 4 { } else if half == 2 { } else { }
  }

  /** `lane_tbl`, for one group: the multipliers and their twins. */
  function TableGroup(dir: Dir, second: bool, half: nat, h: nat): V16
    requires IsHalf(half) && h < 8 / half
  {
    seq(16, m requires 0 <= m < 16 => TableEntry(dir, second, half, h, m))
  }

  function Twins(second: bool, z: V16): V16 {
    seq(16, m requires 0 <= m < 16 => Twin(second, z[m]))
  }

  /** In lane `m`, vector `k` of the transposed block is coefficient `16 * m + k`, and the table
      holds what the flat walk uses there. */
  lemma TableIsFlatWalk(dir: Dir, half: nat, h: nat, k: nat, m: nat)
    requires IsHalf(half) && h < 8 / half && m < 16 && 2 * half * h <= k < 2 * half * h + half
    ensures IsLen(half) && k < 16 && Low(half, 16 * m + k) && Idx(dir, half, 16 * m + k) == TableIndex(dir, half, h, m)
  {
    HalfFacts(half);
    WalkProduct(half, 8 / half, m, h);
    MulMono(h + 1, 8 / half, 2 * half);
    hide *;
    WalkIndex(dir, half, h, 16 * m + k, m * (8 / half) + h, 16 * m + 2 * half * h, m);
  }

  lemma WalkProduct(half: nat, n: nat, m: nat, h: nat)
    requires 2 * half * n == 16
    ensures 2 * half * (m * n + h) == 16 * m + 2 * half * h
  {
    assert 2 * half * (m * n) == m * (2 * half * n);
  }

  lemma WalkIndex(dir: Dir, half: nat, h: nat, p: nat, t: nat, base: nat, m: nat)
    requires IsHalf(half) && IsLen(half) && p < 256 && 2 * half * t == base <= p < base + half
             && t == m * (8 / half) + h
    ensures Low(half, p) && Idx(dir, half, p) == TableIndex(dir, half, h, m)
  {
    hide IsLen, IsHalf;
    DivUnique(p, 2 * half, t, p - base);
  }

  /** A vertical butterfly is the level's butterfly at the coefficients its lanes hold. */
  lemma VerticalPair(dir: Dir, second: bool, half: nat, h: nat, x: Block, k: nat, m: nat)
    requires IsHalf(half) && h < 8 / half && m < 16 && 2 * half * h <= k < 2 * half * h + half && k + half < 16
    requires IsLen(half)
    ensures var z, r := TableEntry(dir, second, half, h, m), MLevel(dir, second, half, x);
            (T16(r)[16 * k + m], T16(r)[16 * (k + half) + m])
            == LaneFly(dir, T16(x)[16 * k + m], T16(x)[16 * (k + half) + m], z, Twin(second, z), Q(second))
  {
    hide LaneFly, MLevel, T16, Twin, Q, IsHalf, Idx, Low, IsLen, Multiplier, TableIndex;
    var r := MLevel(dir, second, half, x);
    T16At(r, k, m);
    T16At(r, k + half, m);
    T16At(x, k, m);
    T16At(x, k + half, m);
    TableIsFlatWalk(dir, half, h, k, m);
    MLevelPair(dir, second, half, x, 16 * m + k);
  }

  lemma VerticalAgrees(dir: Dir, second: bool, half: nat, h: nat, start: nat, x: Block, before: Block, after: Block)
    requires IsHalf(half) && h < 8 / half && start == 2 * half * h && start + 2 * half <= 16 && IsLen(half)
    requires forall p :: 16 * start <= p < 256 ==> before[p] == T16(x)[p]
    requires var z := TableGroup(dir, second, half, h);
             forall j :: 16 * start <= j < 16 * start + 16 * half ==>
               LaneFlyAt(dir, second, 16 * half, before, after, j, z, Twins(second, z))
    ensures forall p :: 16 * start <= p < 16 * start + 32 * half ==> after[p] == T16(MLevel(dir, second, half, x))[p]
  {
    hide LaneFly, MLevel, T16, Twin, Q, IsHalf, IsLen, TableEntry;
    var z := TableGroup(dir, second, half, h);
    forall p | 16 * start <= p < 16 * start + 32 * half
      ensures after[p] == T16(MLevel(dir, second, half, x))[p]
    {
      var j := if p < 16 * start + 16 * half then p else p - 16 * half;
      var k, m := j / 16, j % 16;
      assert LaneFlyAt(dir, second, 16 * half, before, after, j, z, Twins(second, z));
      VerticalPair(dir, second, half, h, x, k, m);
    }
  }

  /** One vertical level over the transposed block. */
  method VerticalLevel(dir: Dir, second: bool, b: array<i16>, half: nat, ghost x: Block)
    requires b.Length == 256 && IsHalf(half) && b[..] == T16(x)
    modifies b
    ensures b[..] == T16(MLevel(dir, second, half, x))
  {
    HalfFacts(half);
    hide *;
    ghost var s: Block := b[..];
    ghost var r := T16(MLevel(dir, second, half, x));
    ghost var n := 8 / half;
    ghost var start := 0;
    for h := 0 to 8 / half
      invariant start == 2 * half * h && start <= 16
      invariant forall p :: 0 <= p < 16 * start ==> b[p] == r[p]
      invariant forall p :: 16 * start <= p < 256 ==> b[p] == s[p]
    {
      VecProgress(half, n, h);
      var z := TableGroup(dir, second, half, h);
      ghost var before: Block := b[..];
      PairVectors(dir, second, b, 2 * half * h, half, z, Twins(second, z));
      VerticalAgrees(dir, second, half, h, start, x, before, b[..]);
      start := start + 2 * half;
    }
  }

  // -------------------------------------------------------------------------------------------
  // The transforms
  // -------------------------------------------------------------------------------------------

  /** Four levels on whole vectors with a Barrett pass after the third, then four on the transposed
      block with a Barrett pass after the third of them. */
  method NttBlock(second: bool, b: array<i16>)
    requires b.Length == 256
    modifies b
    ensures b[..] == Avx2Ntt(second, old(b[..]))
  {
    hide MLevel, MBarrett, T16, B;
    var k := 0;
    k := BroadcastLevel(Forward, second, b, 8, k);
    k := BroadcastLevel(Forward, second, b, 4, k);
    k := BroadcastLevel(Forward, second, b, 2, k);
    BarrettBlock(second, b);
    k := BroadcastLevel(Forward, second, b, 1, k);
    ghost var x: Block := b[..];
    Transpose16(b);
    VerticalLevel(Forward, second, b, 8, x);
    x := F(second, 8, x);
    VerticalLevel(Forward, second, b, 4, x);
    x := F(second, 4, x);
    VerticalLevel(Forward, second, b, 2, x);
    x := F(second, 2, x);
    BarrettBlock(second, b);
    T16Barrett(second, x);
    x := B(second, x);
    VerticalLevel(Forward, second, b, 1, x);
    x := F(second, 1, x);
    Transpose16(b);
    T16Twice(x);
    BarrettBlock(second, b);
  }

  /** The mirror image, with the final scaling. */
  method InvNttBlock(second: bool, b: array<i16>)
    requires b.Length == 256
    modifies b
    ensures b[..] == InvBlock(second, old(b[..]))
  {
    hide MLevel, MBarrett, T16, B, Twin;
    ghost var x: Block := b[..];
    Transpose16(b);
    VerticalLevel(Inverse, second, b, 1, x);
    x := I(second, 1, x);
    VerticalLevel(Inverse, second, b, 2, x);
    x := I(second, 2, x);
    BarrettBlock(second, b);
    T16Barrett(second, x);
    x := B(second, x);
    VerticalLevel(Inverse, second, b, 4, x);
    x := I(second, 4, x);
    VerticalLevel(Inverse, second, b, 8, x);
    x := I(second, 8, x);
    BarrettBlock(second, b);
    T16Barrett(second, x);
    x := B(second, x);
    Transpose16(b);
    T16Twice(x);
    var k := 16;
    k := BroadcastLevel(Inverse, second, b, 1, k);
    k := BroadcastLevel(Inverse, second, b, 2, k);
    BarrettBlock(second, b);
    k := BroadcastLevel(Inverse, second, b, 4, k);
    k := BroadcastLevel(Inverse, second, b, 8, k);
    assert b[..] == InvLevels(second, old(b[..]));
    ScaleBlock(second, b);
  }

  method ScaleBlock(second: bool, b: array<i16>)
    requires b.Length == 256
    modifies b
    ensures b[..] == MScale(second, old(b[..]))
  {
    hide Avx2MontMul, MontMul, Twin, InvNttScale, Q;
    var scale := InvNttScale(second);
    var scaleQ := Twin(second, scale);
    ghost var s: Block := b[..];
    for i := 0 to 16
      invariant forall p :: 0 <= p < 16 * i ==> b[p] == MontMul(s[p], scale, scaleQ, Q(second))
      invariant forall p :: 16 * i <= p < 256 ==> b[p] == s[p]
    {
      var x := Load(b[..], i);
      var y := Avx2MontMul(x, Set16(scale), Set16(scaleQ), Set16(Q(second)));
      forall j | 0 <= j < 16 ensures y[j] == MontMul(x[j], scale, scaleQ, Q(second)) {
        Avx2MontMulIsMontMul(x, Set16(scale), Set16(scaleQ), Set16(Q(second)), j);
      }
      Store(b, i, y);
    }
  }

  method SplitAndTransform(second: bool, reduce: bool, elem: Elem, b: array<i16>)
    requires b.Length == 256
    modifies b
    ensures b[..] == Avx2Ntt(second, Split(second, reduce, elem))
  {
    hide Barrett, Avx2Barrett, BarrettM, Q, Wrap16, Avx2Ntt;
    var q, m := Set16(Q(second)), Set16(BarrettM(second));
    ghost var s := Split(second, reduce, elem);
    for i := 0 to 16
      invariant forall p :: 0 <= p < 16 * i ==> b[p] == s[p]
    {
      var x: V16 := seq(16, j requires 0 <= j < 16 => Wrap16(elem[16 * i + j]));
      forall j | 0 <= j < 16
        ensures Avx2Barrett(x, m, Set16(0x400), q)[j] == Barrett(x[j], BarrettM(second), Q(second))
      {
        Avx2BarrettIsBarrett(x, m, q, j);
      }
      Store(b, i, if reduce then Avx2Barrett(x, m, Set16(0x400), q) else x);
    }
    assert b[..] == s;
    NttBlock(second, b);
  }

  method FromRingElem(reduce: bool, elem: Elem) returns (out: NttElem)
    ensures out == FromElem(Avx2, reduce, elem)
  {
    hide Avx2Ntt, Split;
    var b := new i16[256](_ => 0);
    SplitAndTransform(false, reduce, elem, b);
    var first: Block := b[..];
    SplitAndTransform(true, reduce, elem, b);
    out := first + b[..];
  }

  // -------------------------------------------------------------------------------------------
  // Accumulating and reconstructing
  // -------------------------------------------------------------------------------------------

  /** `store_i32`. */
  method StoreW(acc: array<i32>, i: nat, w: W8)
    requires 8 * i + 8 <= acc.Length
    modifies acc
    ensures forall p :: 0 <= p < acc.Length ==> acc[p] == if 8 * i <= p < 8 * i + 8 then w[p - 8 * i] else old(acc[p])
  {
    forall m | 0 <= m < 8 {
      acc[8 * i + m] := w[m];
    }
  }

  /** Vector `i` of the operands and vectors `2 * i` and `2 * i + 1` of the accumulator. */
  method AccumulateVector(acc: array<i32>, l: V16, r: V16, i: nat)
    requires acc.Length == 512 && i < 32
    modifies acc
    ensures forall p :: 16 * i <= p < 16 * i + 16 ==>
      acc[p] == Wrap32(old(acc[p]) + Wrap32(l[p - 16 * i] as int * r[p - 16 * i] as int))
    ensures forall p :: 0 <= p < 16 * i || 16 * i + 16 <= p < 512 ==> acc[p] == old(acc[p])
  {
    hide Wrap32, Products;
    var a0, a1 := acc[8 * (2 * i)..8 * (2 * i) + 8], acc[8 * (2 * i + 1)..8 * (2 * i + 1) + 8];
    ProductVectors(l, r);
    StoreW(acc, 2 * i, AddEpi32(a0, Products(l, r, 0)));
    StoreW(acc, 2 * i + 1, AddEpi32(a1, Products(l, r, 8)));
  }

  method PointwiseMulAcc(acc: array<i32>, lhs: NttElem, rhs: NttElem)
    requires acc.Length == 512
    modifies acc
    ensures forall i :: 0 <= i < 512 ==> acc[i] == Wrap32(old(acc[i]) + Wrap32(lhs[i] as int * rhs[i] as int))
  {
    hide Wrap32, Products;
    ghost var s := acc[..];
    for i := 0 to 32
      invariant forall p :: 0 <= p < 16 * i ==> acc[p] == Wrap32(s[p] + Wrap32(lhs[p] as int * rhs[p] as int))
      invariant forall p :: 16 * i <= p < 512 ==> acc[p] == s[p]
    {
      AccumulateVector(acc, Load(lhs, i), Load(rhs, i), i);
    }
  }

  lemma ProductVectors(l: V16, r: V16)
    ensures forall j :: 0 <= j < 8 ==> Products(l, r, 0)[j] == Wrap32(l[j] as int * r[j] as int)
    ensures forall j :: 0 <= j < 8 ==> Products(l, r, 8)[j] == Wrap32(l[8 + j] as int * r[8 + j] as int)
  {
    hide Products;
    forall j | 0 <= j < 8
      ensures Products(l, r, 0)[j] == Wrap32(l[j] as int * r[j] as int)
      ensures Products(l, r, 8)[j] == Wrap32(l[8 + j] as int * r[8 + j] as int)
    {
      ProductsInOrder(l, r, 0, j);
      ProductsInOrder(l, r, 8, j);
    }
  }

  method ReduceBlock(second: bool, acc: Acc, b: array<i16>)
    requires b.Length == 256
    modifies b
    ensures b[..] == InvBlock(second, MReduce(second, acc))
  {
    hide MontReduce, QInv, Q, Avx2Reduce, InvBlock;
    var q, qinv := Q(second), QInv(second);
    var a := Half(second, acc);
    for i := 0 to 16
      invariant forall p :: 0 <= p < 16 * i ==> b[p] == MontReduce(a[p], qinv, q)
    {
      var a0, a1 := a[16 * i..16 * i + 8], a[16 * i + 8..16 * i + 16];
      var v := Avx2Reduce(a0, a1, Set16(qinv), Set16(q));
      forall j | 0 <= j < 16 ensures v[j] == MontReduce(a[16 * i + j], qinv, q) {
        Avx2ReduceIsMontReduce(a0, a1, qinv, q, j);
      }
      Store(b, i, v);
    }
    assert b[..] == MReduce(second, acc);
    InvNttBlock(second, b);
  }

  method ReduceInvNtt(acc: Acc) returns (out: Elem)
    ensures out == ReduceInv(acc)
  {
    hide InvBlock, MReduce, Garner, Avx2Garner, Q;
    var v1, v2 := new i16[256](_ => 0), new i16[256](_ => 0);
    ReduceBlock(false, acc, v1);
    ReduceBlock(true, acc, v2);
    ghost var w1, w2 := InvBlock(false, MReduce(false, acc)), InvBlock(true, MReduce(true, acc));
    assert v1[..] == w1 && v2[..] == w2;
    var res := new u16[256](_ => 0);
    for i := 0 to 16
      invariant v1[..] == w1 && v2[..] == w2
      invariant forall p :: 0 <= p < 16 * i ==> res[p] == Garner(w1[p], w2[p])
    {
      var r1, r2 := Load(v1[..], i), Load(v2[..], i);
      var v := Avx2Garner(r1, r2);
      forall j | 0 <= j < 16 ensures v[j] == Garner(w1[16 * i + j], w2[16 * i + j]) {
        assert r1[16 * i + j - 16 * i] == w1[16 * i + j] && r2[16 * i + j - 16 * i] == w2[16 * i + j];
        InvBlockRange(false, MReduce(false, acc), 16 * i + j);
        InvBlockRange(true, MReduce(true, acc), 16 * i + j);
        Avx2GarnerIsGarner(r1, r2, j);
      }
      forall m | 0 <= m < 16 {
        res[16 * i + m] := v[m];
      }
    }
    out := res[..];
  }
}
