/** The NEON transform: eight lanes at a time, six of the eight levels run on groups of eight
    registers, a group at a time, with transposes in between. */
module NeonNtt {
  import opened Words
  import opened Congruence
  import opened Tables
  import opened Params
  import opened Lane
  import opened Levels
  import opened Schedules
  import opened RingMul
  import opened NeonLanes
  import NttCrt

  // -------------------------------------------------------------------------------------------
  // Registers
  // -------------------------------------------------------------------------------------------

  function Twins(second: bool, z: V8): V8 {
    seq(8, m requires 0 <= m < 8 => Twin(second, z[m]))
  }

  /** Multipliers come from the tables, so none is the one value `sqdmulh` could saturate on. */
  predicate IsMultiplier(z: V8) {
    forall m :: 0 <= m < 8 ==> z[m] > -0x8000
  }

  /** `ct_butterfly` and `gs_butterfly`. */
  method Butterfly(dir: Dir, second: bool, lo: V8, hi: V8, z: V8) returns (a: V8, b: V8)
    requires IsMultiplier(z)
    ensures forall m :: 0 <= m < 8 ==> (a[m], b[m]) == LaneFly(dir, lo[m], hi[m], z[m], Twin(second, z[m]), Q(second))
  {
    hide MontMul, Wrap16, NeonMontMul, Twin, Q;
    var zq, q := Twins(second, z), Dup16(Q(second));
    if dir.Forward? {
      var t := NeonMontMul(hi, z, zq, q);
      b := Sub16(lo, t);
      a := Add16(lo, t);
      forall m | 0 <= m < 8 ensures t[m] == MontMul(hi[m], z[m], Twin(second, z[m]), Q(second)) {
        NeonMontMulIsMontMul(hi, z, second, m);
      }
    } else {
      var diff := Sub16(lo, hi);
      a := Add16(lo, hi);
      b := NeonMontMul(diff, z, zq, q);
      forall m | 0 <= m < 8 ensures b[m] == MontMul(diff[m], z[m], Twin(second, z[m]), Q(second)) {
        NeonMontMulIsMontMul(diff, z, second, m);
      }
    }
  }

  // -------------------------------------------------------------------------------------------
  // Groups of eight registers
  // -------------------------------------------------------------------------------------------

  const ZEROES: V8 := [0, 0, 0, 0, 0, 0, 0, 0]

  type Group = v: seq<V8> | |v| == 8 witness [ZEROES, ZEROES, ZEROES, ZEROES, ZEROES, ZEROES, ZEROES, ZEROES]

  /** The coefficient lane `m` of register `r` of group `g` holds: in memory order, or with the
      group transposed. */
  function Pos(transposed: bool, g: nat, r: nat, m: nat): nat {
    64 * g + (if transposed then 8 * m + r else 8 * r + m)
  }

  /** A register's lanes are its coefficients of `s`. */
  ghost predicate HoldsAt(transposed: bool, g: nat, x: V8, s: Block, r: nat) {
    g < 4 && r < 8 && forall m :: 0 <= m < 8 ==> x[m] == s[Pos(transposed, g, r, m)]
  }

  ghost predicate Holds(transposed: bool, g: nat, v: Group, s: Block, r: nat) {
    r < 8 && HoldsAt(transposed, g, v[r], s, r)
  }

  ghost predicate HoldsAll(transposed: bool, g: nat, v: Group, s: Block) {
    forall r :: 0 <= r < 8 ==> Holds(transposed, g, v, s, r)
  }

  predicate IsHalf(half: nat) {
    half == 4 || half == 2 || half == 1
  }

  /** The level that pairing registers `half` apart performs. */
  function LenOf(transposed: bool, half: nat): (len: nat)
    requires IsHalf(half)
    ensures IsLen(len)
  {
    if transposed then half else 8 * half
  }

  /** Which of the level's rows of `4 / half` blocks lane `m` of group `g` is in. */
  function Row(transposed: bool, g: nat, m: nat): nat {
    if transposed then 8 * g + m else g
  }

  /** The table index the source takes for pair run `h` of group `g`: the broadcast entries in
      memory order, and `lane_tbl`'s entry at lane `m` when transposed. */
  function TableIndex(dir: Dir, transposed: bool, half: nat, g: nat, h: nat, m: nat): int
    requires IsHalf(half)
  {
    var step := Row(transposed, g, m) * (4 / half) + h;
    var len := LenOf(transposed, half);
    if dir.Forward? then 128 / len + step else 256 / len - 1 - step
  }

  lemma TableIsFlatWalk(dir: Dir, transposed: bool, half: nat, g: nat, h: nat, r: nat, m: nat)
    requires IsHalf(half) && g < 4 && h < 4 / half && m < 8 && 2 * half * h <= r < 2 * half * h + half
    ensures r + half < 8 && Pos(transposed, g, r, m) < 256
    ensures Pos(transposed, g, r + half, m) == Pos(transposed, g, r, m) + LenOf(transposed, half)
    ensures Low(LenOf(transposed, half), Pos(transposed, g, r, m))
    ensures Idx(dir, LenOf(transposed, half), Pos(transposed, g, r, m)) == TableIndex(dir, transposed, half, g, h, m)
    ensures 0 < TableIndex(dir, transposed, half, g, h, m) < 256
  {
    HalfFacts(half);
    TableIndexRange(dir, transposed, half, g, h, m);
    hide *;
    WalkBase(transposed, half, g, h, m, 4 / half, Row(transposed, g, m) * (4 / half) + h, 2 * half * h);
    WalkFrom(dir, transposed, half, g, 2 * half * h, r, m, Row(transposed, g, m) * (4 / half) + h);
    WalkEntry(dir, transposed, half, g, h, m);
  }

  lemma WalkEntry(dir: Dir, transposed: bool, half: nat, g: nat, h: nat, m: nat)
    requires IsHalf(half)
    ensures var t, len := Row(transposed, g, m) * (4 / half) + h, LenOf(transposed, half);
            TableIndex(dir, transposed, half, g, h, m) == if dir.Forward? then 128 / len + t else 256 / len - 1 - t
  {
  }

  lemma WalkBase(transposed: bool, half: nat, g: nat, h: nat, m: nat, n: nat, t: nat, start: nat)
    requires IsHalf(half) && half * n == 4 && 2 * half * n == 8 && h < n && t == Row(transposed, g, m) * n + h
             && start == 2 * half * h
    ensures 2 * LenOf(transposed, half) * t == (if transposed then 1 else 8) * (8 * Row(transposed, g, m) + start)
    ensures start + 2 * half <= 8
  {
    hide IsHalf, Row;
    MulMono(h + 1, n, 2 * half);
    WalkProduct(half, n, Row(transposed, g, m), h);
    if !transposed { assert 2 * (8 * half) * t == 8 * (2 * half * t); }
  }

  lemma WalkFrom(dir: Dir, transposed: bool, half: nat, g: nat, start: nat, r: nat, m: nat, t: nat)
    requires IsHalf(half) && g < 4 && m < 8 && start <= r < start + half && start + 2 * half <= 8
    requires 2 * LenOf(transposed, half) * t == (if transposed then 1 else 8) * (8 * Row(transposed, g, m) + start)
    ensures var p, len := Pos(transposed, g, r, m), LenOf(transposed, half);
            r + half < 8 && p < 256 && Pos(transposed, g, r + half, m) == p + len && Low(len, p)
            && Idx(dir, len, p) == if dir.Forward? then 128 / len + t else 256 / len - 1 - t
  {
    hide *;
    var p, len := Pos(transposed, g, r, m), LenOf(transposed, half);
    WalkPosition(transposed, half, g, start, r, m, 2 * len * t);
    DivUnique(p, 2 * len, t, p - 2 * len * t);
    WalkIndex(dir, len, p, t);
  }

  lemma HalfFacts(half: nat)
    requires IsHalf(half)
    ensures half * (4 / half) == 4 && 2 * half * (4 / half) == 8 && 0 < 4 / half <= 4
  {
  }

  lemma WalkProduct(half: nat, n: nat, u: nat, h: nat)
    requires half * n == 4
    ensures 2 * half * (u * n + h) == 8 * u + 2 * half * h
  {
    assert half * (u * n + h) == u * (half * n) + half * h;
  }

  lemma WalkPosition(transposed: bool, half: nat, g: nat, start: nat, r: nat, m: nat, base: nat)
    requires IsHalf(half) && g < 4 && m < 8 && start <= r < start + half && start + 2 * half <= 8
    requires base == (if transposed then 1 else 8) * (8 * Row(transposed, g, m) + start)
    ensures Pos(transposed, g, r, m) < 256
            && Pos(transposed, g, r + half, m) == Pos(transposed, g, r, m) + LenOf(transposed, half)
    ensures 0 <= Pos(transposed, g, r, m) - base < LenOf(transposed, half)
  {
  }

  lemma WalkIndex(dir: Dir, len: nat, p: nat, t: nat)
    requires IsLen(len) && p < 256 && p / (2 * len) == t && p % (2 * len) < len
    ensures Low(len, p) && Idx(dir, len, p) == if dir.Forward? then 128 / len + t else 256 / len - 1 - t
  {
  }

  /** What a pair run multiplies by: `dup` of one table entry in memory order, a `lane_tbl` row when
      transposed. */
  function GroupTable(dir: Dir, second: bool, transposed: bool, half: nat, g: nat, h: nat): V8
    requires IsHalf(half) && g < 4 && h < 4 / half
  {
    seq(8, m requires 0 <= m < 8 =>
      TableIndexRange(dir, transposed, half, g, h, m);
      Multiplier(dir, second, TableIndex(dir, transposed, half, g, h, m)))
  }

  lemma TableIndexRange(dir: Dir, transposed: bool, half: nat, g: nat, h: nat, m: nat)
    requires IsHalf(half) && g < 4 && h < 4 / half && m < 8
    ensures 0 < TableIndex(dir, transposed, half, g, h, m) < 256
  {
    HalfFacts(half);
    var n := 4 / half;
    MulMono(Row(transposed, g, m), if transposed then 31 else 3, n);
    assert 128 / LenOf(transposed, half) == (if transposed then 32 else 4) * n;
    assert 256 / LenOf(transposed, half) == 2 * (128 / LenOf(transposed, half));
  }

  lemma GroupTableOk(dir: Dir, second: bool, transposed: bool, half: nat, g: nat, h: nat)
    requires IsHalf(half) && g < 4 && h < 4 / half
    ensures IsMultiplier(GroupTable(dir, second, transposed, half, g, h))
  {
    hide Multiplier, TableIndex, IsHalf;
    forall m | 0 <= m < 8
      ensures GroupTable(dir, second, transposed, half, g, h)[m] > -0x8000
    {
      TableIndexRange(dir, transposed, half, g, h, m);
      MultiplierOk(dir, second, TableIndex(dir, transposed, half, g, h, m));
    }
  }

  /** A butterfly of two registers is the level's butterfly at the coefficients their lanes hold. */
  lemma RegisterPair(dir: Dir, second: bool, transposed: bool, half: nat, g: nat, h: nat, r: nat,
                     lo: V8, hi: V8, a: V8, b: V8, s: Block, m: nat)
    requires IsHalf(half) && g < 4 && h < 4 / half && m < 8 && 2 * half * h <= r < 2 * half * h + half
    requires Pos(transposed, g, r, m) < 256 && Pos(transposed, g, r + half, m) < 256
    requires lo[m] == s[Pos(transposed, g, r, m)] && hi[m] == s[Pos(transposed, g, r + half, m)]
    requires var z := GroupTable(dir, second, transposed, half, g, h)[m];
             (a[m], b[m]) == LaneFly(dir, lo[m], hi[m], z, Twin(second, z), Q(second))
    ensures a[m] == MLevel(dir, second, LenOf(transposed, half), s)[Pos(transposed, g, r, m)]
    ensures b[m] == MLevel(dir, second, LenOf(transposed, half), s)[Pos(transposed, g, r + half, m)]
  {
    hide LaneFly, MLevel, Twin, Q, IsHalf, Idx, Low, IsLen, Multiplier, TableIndex, Pos, LenOf;
    TableIsFlatWalk(dir, transposed, half, g, h, r, m);
    MLevelPair(dir, second, LenOf(transposed, half), s, Pos(transposed, g, r, m));
  }

  lemma RegisterFacts(transposed: bool, half: nat, g: nat, h: nat)
    requires IsHalf(half) && g < 4 && h < 4 / half
    ensures 2 * half * h + 2 * half <= 8 && 2 * half * (h + 1) == 2 * half * h + 2 * half
    ensures forall r, m :: 0 <= r < 8 && 0 <= m < 8 ==> Pos(transposed, g, r, m) < 256
  {
    if half == 4 { } else if half == 2 { } else { }
  }

  /** Pair run `h` of a level: registers `start..start + half` against those `half` further on. */
  method RegisterRun(dir: Dir, second: bool, transposed: bool, v: Group, half: nat, g: nat, h: nat, start: nat,
                     ghost s: Block)
    returns (w: Group)
    requires IsHalf(half) && g < 4 && h < 4 / half && start == 2 * half * h && start + 2 * half <= 8
    requires forall r :: start <= r < start + 2 * half ==> Holds(transposed, g, v, s, r)
    ensures forall r :: start <= r < start + 2 * half ==>
      Holds(transposed, g, w, MLevel(dir, second, LenOf(transposed, half), s), r)
    ensures forall r :: 0 <= r < 8 && !(start <= r < start + 2 * half) ==> w[r] == v[r]
  {
    var z := GroupTable(dir, second, transposed, half, g, h);
    GroupTableOk(dir, second, transposed, half, g, h);
    RegisterFacts(transposed, half, g, h);
    hide LaneFly, MLevel, Twin, Q, IsHalf, LenOf, GroupTable, Pos, Holds, IsMultiplier;
    ghost var t := MLevel(dir, second, LenOf(transposed, half), s);
    w := v;
    for i := start to start + half
      invariant forall r :: start <= r < i ==> Holds(transposed, g, w, t, r)
      invariant forall r :: start + half <= r < i + half ==> Holds(transposed, g, w, t, r)
      invariant forall r :: 0 <= r < start || i <= r < start + half || i + half <= r < 8 ==> w[r] == v[r]
    {
      ghost var was := w;
      var a, b := Butterfly(dir, second, w[i], w[i + half], z);
      RegisterPairHolds(dir, second, transposed, half, g, h, start, i, v, a, b, s);
      w := w[i := a][i + half := b];
      HoldsFrame(transposed, g, was, w, t, i, i + half, a, b);
    }
  }

  lemma RegisterPairHolds(dir: Dir, second: bool, transposed: bool, half: nat, g: nat, h: nat, start: nat, r: nat,
                          v: Group, a: V8, b: V8, s: Block)
    requires IsHalf(half) && g < 4 && h < 4 / half && start == 2 * half * h && start <= r < start + half && r + half < 8
    requires Holds(transposed, g, v, s, r) && Holds(transposed, g, v, s, r + half)
    requires var z := GroupTable(dir, second, transposed, half, g, h);
             forall m :: 0 <= m < 8 ==>
               (a[m], b[m]) == LaneFly(dir, v[r][m], v[r + half][m], z[m], Twin(second, z[m]), Q(second))
    ensures var t := MLevel(dir, second, LenOf(transposed, half), s);
            HoldsAt(transposed, g, a, t, r) && HoldsAt(transposed, g, b, t, r + half)
  {
    RegisterFacts(transposed, half, g, h);
    hide LaneFly, MLevel, Twin, Q, IsHalf, LenOf, GroupTable, Pos;
    forall m | 0 <= m < 8
      ensures a[m] == MLevel(dir, second, LenOf(transposed, half), s)[Pos(transposed, g, r, m)]
      ensures b[m] == MLevel(dir, second, LenOf(transposed, half), s)[Pos(transposed, g, r + half, m)]
    {
      RegisterPair(dir, second, transposed, half, g, h, r, v[r], v[r + half], a, b, s, m);
    }
  }

  lemma HoldsFrame(transposed: bool, g: nat, v: Group, w: Group, t: Block, i: nat, j: nat, a: V8, b: V8)
    requires i < j < 8 && w == v[i := a][j := b] && HoldsAt(transposed, g, a, t, i) && HoldsAt(transposed, g, b, t, j)
    ensures Holds(transposed, g, w, t, i) && Holds(transposed, g, w, t, j)
    ensures forall r :: 0 <= r < 8 && r != i && r != j && Holds(transposed, g, v, t, r) ==>
            Holds(transposed, g, w, t, r)
  {
    hide HoldsAt;
  }

  /** One level on a group in registers: `half` 4, 2 and 1 are `len` 32, 16 and 8 in memory order and
      4, 2 and 1 transposed. */
  method GroupLevel(dir: Dir, second: bool, transposed: bool, v: Group, half: nat, g: nat, ghost s: Block)
    returns (w: Group)
    requires IsHalf(half) && g < 4 && HoldsAll(transposed, g, v, s)
    ensures HoldsAll(transposed, g, w, MLevel(dir, second, LenOf(transposed, half), s))
  {
    hide MLevel, LenOf, Holds;
    var n := 4 / half;
    assert 2 * half * n == 8;
    hide IsHalf;
    ghost var t := MLevel(dir, second, LenOf(transposed, half), s);
    w := v;
    var start := 0;
    for h := 0 to n
      invariant start == 2 * half * h && start <= 8
      invariant forall r :: 0 <= r < start ==> Holds(transposed, g, w, t, r)
      invariant forall r :: start <= r < 8 ==> w[r] == v[r]
    {
      RegisterFacts(transposed, half, g, h);
      ghost var was := w;
      HoldsSame(transposed, g, v, w, s, start, 8);
      w := RegisterRun(dir, second, transposed, w, half, g, h, start, s);
      HoldsSame(transposed, g, was, w, t, 0, start);
      start := start + 2 * half;
    }
  }

  lemma HoldsSame(transposed: bool, g: nat, v: Group, w: Group, s: Block, from: nat, to: nat)
    requires to <= 8 && forall r :: from <= r < to ==> w[r] == v[r]
    ensures forall r :: from <= r < to && Holds(transposed, g, v, s, r) ==> Holds(transposed, g, w, s, r)
  {
    hide HoldsAt;
  }

  // -------------------------------------------------------------------------------------------
  // The other steps on a group
  // -------------------------------------------------------------------------------------------

  /** The Barrett loop over the eight registers. */
  method BarrettGroup(second: bool, transposed: bool, v: Group, g: nat, ghost s: Block) returns (w: Group)
    requires HoldsAll(transposed, g, v, s)
    ensures HoldsAll(transposed, g, w, B(second, s))
  {
    hide Barrett, NeonBarrett, BarrettM, Q, HoldsAt, B;
    var q, bm := Dup16(Q(second)), Dup16(BarrettM(second));
    w := v;
    for j := 0 to 8
      invariant forall r :: 0 <= r < j ==> Holds(transposed, g, w, B(second, s), r)
      invariant forall r :: j <= r < 8 ==> w[r] == v[r]
    {
      ghost var was := w;
      assert Holds(transposed, g, v, s, j);
      BarrettHolds(second, transposed, g, w[j], s, j);
      w := w[j := NeonBarrett(w[j], bm, Dup16(0x400), q)];
      HoldsSame(transposed, g, was, w, B(second, s), 0, j);
    }
  }

  lemma BarrettHolds(second: bool, transposed: bool, g: nat, x: V8, s: Block, r: nat)
    requires HoldsAt(transposed, g, x, s, r)
    ensures HoldsAt(transposed, g, NeonBarrett(x, Dup16(BarrettM(second)), Dup16(0x400), Dup16(Q(second))),
            B(second, s), r)
  {
    hide Barrett, NeonBarrett, BarrettM, Q;
    forall m | 0 <= m < 8
      ensures NeonBarrett(x, Dup16(BarrettM(second)), Dup16(0x400), Dup16(Q(second)))[m]
              == Barrett(x[m], BarrettM(second), Q(second))
    {
      NeonBarrettIsBarrett(x, second, m);
    }
  }

  /** Transposing a group's registers switches which coefficients they hold. */
  lemma TransposeHolds(transposed: bool, g: nat, v: Group, s: Block)
    requires HoldsAll(transposed, g, v, s)
    ensures HoldsAll(!transposed, g, Transpose8(v), s)
  {
    hide Transpose8, HoldsAt;
    var other := !transposed;
    forall r | 0 <= r < 8
      ensures Holds(other, g, Transpose8(v), s, r)
    {
      TransposeRegister(transposed, g, v, s, r);
    }
  }

  lemma TransposeRegister(transposed: bool, g: nat, v: Group, s: Block, r: nat)
    requires HoldsAll(transposed, g, v, s) && r < 8
    ensures HoldsAt(!transposed, g, Transpose8(v)[r], s, r)
  {
    hide Transpose8;
    assert Holds(transposed, g, v, s, 0);
    forall m | 0 <= m < 8
      ensures Transpose8(v)[r][m] == s[Pos(!transposed, g, r, m)]
    {
      Transposes8(v, r, m);
      assert Holds(transposed, g, v, s, m);
    }
  }

  /** `load_i16` for the eight vectors of group `g`. */
  method LoadGroup(b: array<i16>, g: nat, ghost s: Block) returns (v: Group)
    requires b.Length == 256 && g < 4 && forall p :: 64 * g <= p < 64 * g + 64 ==> b[p] == s[p]
    ensures HoldsAll(false, g, v, s)
  {
    hide HoldsAt;
    v := seq(8, r requires 0 <= r < 8 reads b => b[64 * g + 8 * r..64 * g + 8 * r + 8]);
    forall r | 0 <= r < 8
      ensures Holds(false, g, v, s, r)
    {
      LoadedRegister(b[..], g, v[r], s, r);
    }
  }

  lemma LoadedRegister(b: Block, g: nat, x: V8, s: Block, r: nat)
    requires g < 4 && r < 8 && x == b[64 * g + 8 * r..64 * g + 8 * r + 8]
    requires forall p :: 64 * g <= p < 64 * g + 64 ==> b[p] == s[p]
    ensures HoldsAt(false, g, x, s, r)
  {
  }

  method StoreGroup(b: array<i16>, g: nat, v: Group, ghost s: Block)
    requires b.Length == 256 && g < 4 && HoldsAll(false, g, v, s)
    modifies b
    ensures forall p :: 64 * g <= p < 64 * g + 64 ==> b[p] == s[p]
    ensures forall p :: 0 <= p < 64 * g || 64 * g + 64 <= p < 256 ==> b[p] == old(b[p])
  {
    for j := 0 to 8
      invariant forall p :: 64 * g <= p < 64 * g + 8 * j ==> b[p] == s[p]
      invariant forall p :: 0 <= p < 64 * g || 64 * g + 64 <= p < 256 ==> b[p] == old(b[p])
    {
      Store(b, 8 * g + j, v[j]);
      StoredRegister(g, v, s, j);
    }
  }

  lemma StoredRegister(g: nat, v: Group, s: Block, j: nat)
    requires g < 4 && j < 8 && HoldsAll(false, g, v, s)
    ensures forall p :: 64 * g + 8 * j <= p < 64 * g + 8 * j + 8 ==> v[j][p - 8 * (8 * g + j)] == s[p]
  {
    assert Holds(false, g, v, s, j);
    forall p | 64 * g + 8 * j <= p < 64 * g + 8 * j + 8
      ensures v[j][p - 8 * (8 * g + j)] == s[p]
    {
      assert Pos(false, g, j, p - 8 * (8 * g + j)) == p;
    }
  }

  // -------------------------------------------------------------------------------------------
  // The two levels whose partners lie in other groups
  // -------------------------------------------------------------------------------------------

  /** `store_i16`. */
  method Store(b: array<i16>, i: nat, v: V8)
    requires 8 * i + 8 <= b.Length
    modifies b
    ensures forall p :: 0 <= p < b.Length ==> b[p] == if 8 * i <= p < 8 * i + 8 then v[p - 8 * i] else old(b[p])
  {
    forall m | 0 <= m < 8 {
      b[8 * i + m] := v[m];
    }
  }

  /** `load_i16`. */
  function Load(s: seq<i16>, i: nat): (v: V8)
    requires 8 * i + 8 <= |s|
    ensures forall p :: 8 * i <= p < 8 * i + 8 ==> v[p - 8 * i] == s[p]
  {
    s[8 * i..8 * i + 8]
  }

  /** A butterfly whose multiplier is one table entry in every lane. */
  method BroadcastButterfly(dir: Dir, second: bool, lo: V8, hi: V8, k: nat) returns (a: V8, b: V8)
    requires k < 256
    ensures forall m :: 0 <= m < 8 ==> a[m] == MFly(dir, second, k, lo[m], hi[m]).0
    ensures forall m :: 0 <= m < 8 ==> b[m] == MFly(dir, second, k, lo[m], hi[m]).1
  {
    MultiplierOk(dir, second, k);
    hide LaneFly, Q, Multiplier, Twin;
    a, b := Butterfly(dir, second, lo, hi, Dup16(Multiplier(dir, second, k)));
  }

  /** One pair of vectors: load, butterfly, store. */
  method PairOne(dir: Dir, second: bool, b: array<i16>, i: nat, half: nat, k: nat)
    requires b.Length == 256 && 0 < half && i + half < 32 && k < 256
    modifies b
    ensures forall p :: 8 * i <= p < 8 * i + 8 ==> b[p] == old(MFly(dir, second, k, b[p], b[p + 8 * half]).0)
    ensures forall p :: 8 * (i + half) <= p < 8 * (i + half) + 8 ==>
            b[p] == old(MFly(dir, second, k, b[p - 8 * half], b[p]).1)
    ensures forall p :: 0 <= p < 8 * i || 8 * i + 8 <= p < 8 * (i + half) || 8 * (i + half) + 8 <= p < 256 ==>
      b[p] == old(b[p])
  {
    hide MFly, Load;
    ghost var s := b[..];
    var x, y := BroadcastButterfly(dir, second, Load(b[..], i), Load(b[..], i + half), k);
    Store(b, i, x);
    Store(b, i + half, y);
    forall p | 8 * i <= p < 8 * i + 8 ensures b[p] == MFly(dir, second, k, s[p], s[p + 8 * half]).0 {
      assert Load(s, i + half)[p + 8 * half - 8 * (i + half)] == s[p + 8 * half];
    }
  }

  /** One run of butterflies: vectors `start..start + half` against those `half` further on. */
  method PairVectors(dir: Dir, second: bool, b: array<i16>, start: nat, half: nat, k: nat)
    requires b.Length == 256 && start + 2 * half <= 32 && k < 256
    modifies b
    ensures forall j :: 8 * start <= j < 8 * start + 8 * half ==>
            NttCrt.FlyAt(dir, second, 8 * half, k, old(b[..]), b[..], j)
    ensures forall p :: 0 <= p < 256 && !(8 * start <= p < 8 * start + 16 * half) ==> b[p] == old(b[p])
  {
    hide MFly;
    ghost var s: Block := b[..];
    for i := start to start + half
      invariant forall p :: 8 * start <= p < 8 * i ==> b[p] == MFly(dir, second, k, s[p], s[p + 8 * half]).0
      invariant forall p :: 8 * start + 8 * half <= p < 8 * i + 8 * half ==>
                b[p] == MFly(dir, second, k, s[p - 8 * half], s[p]).1
      invariant forall p :: 0 <= p < 8 * start || 8 * i <= p < 8 * start + 8 * half || 8 * i + 8 * half <= p < 256 ==>
        b[p] == s[p]
    {
      PairOne(dir, second, b, i, half, k);
    }
    forall j | 8 * start <= j < 8 * start + 8 * half
      ensures NttCrt.FlyAt(dir, second, 8 * half, k, s, b[..], j)
    {
      assert b[j + 8 * half] == MFly(dir, second, k, s[j], s[j + 8 * half]).1;
    }
  }

  lemma VecProgress(half: nat, n: nat, t: nat)
    requires half == (if n == 1 then 16 else 8) && 1 <= n <= 2 && t <= n
    ensures IsLen(8 * half) && 128 / (8 * half) == n && 256 / (8 * half) == 2 * n
    ensures 2 * half * t < 32 <==> t < n
    ensures t < n ==> 2 * half * t + 2 * half <= 32 && 2 * half * (t + 1) == 2 * half * t + 2 * half
    ensures 2 * (8 * half) * t == 8 * (2 * half * t)
  {
  }

  /** One level with `len = 8 * half`, its multiplier broadcast; `k` walks the table. */
  method BroadcastLevel(dir: Dir, second: bool, b: array<i16>, half: nat, k0: nat) returns (k: nat)
    requires b.Length == 256 && (half == 16 || half == 8)
    requires if dir.Forward? then k0 + 1 == 16 / half else k0 == 32 / half
    modifies b
    ensures IsLen(8 * half) && b[..] == MLevel(dir, second, 8 * half, old(b[..]))
    ensures if dir.Forward? then k + 1 == 32 / half else k == 16 / half
  {
    ghost var n := 16 / half;
    VecProgress(half, n, 0);
    hide *;
    ghost var s: Block := b[..];
    ghost var r := MLevel(dir, second, 8 * half, s);
    k := k0;
    var start := 0;
    ghost var t := 0;
    while start < 32
      invariant 0 <= t <= n && start == 2 * half * t && start <= 32
      invariant k == if dir.Forward? then k0 + t else k0 - t
      invariant forall p :: 0 <= p < 8 * start ==> b[p] == r[p]
      invariant forall p :: 8 * start <= p < 256 ==> b[p] == s[p]
      decreases n - t
    {
      VecProgress(half, n, t);
      if dir.Forward? { k := k + 1; } else { k := k - 1; }
      ghost var before: Block := b[..];
      PairVectors(dir, second, b, start, half, k);
      NttCrt.BlockAgrees(dir, second, 8 * half, s, before, b[..], t, k, 8 * start);
      start := start + 2 * half;
      t := t + 1;
    }
    VecProgress(half, n, t);
  }

  // -------------------------------------------------------------------------------------------
  // The transforms
  // -------------------------------------------------------------------------------------------

  /** Levels 2 to 7 of the forward transform. */
  function Tail(second: bool, s: Block): Block {
    var s := B(second, F(second, 16, F(second, 32, s)));
    B(second, F(second, 1, F(second, 2, F(second, 4, F(second, 8, s)))))
  }

  /** Levels 2 to 7 on one group, in registers throughout. */
  method ForwardGroup(second: bool, v: Group, g: nat, ghost s: Block) returns (w: Group)
    requires g < 4 && HoldsAll(false, g, v, s)
    ensures HoldsAll(false, g, w, Tail(second, s))
  {
    hide MLevel, MBarrett, B, HoldsAll, Transpose8;
    ghost var x := s;
    w := GroupLevel(Forward, second, false, v, 4, g, x);
    x := F(second, 32, x);
    w := GroupLevel(Forward, second, false, w, 2, g, x);
    x := F(second, 16, x);
    w := BarrettGroup(second, false, w, g, x);
    x := B(second, x);
    w := GroupLevel(Forward, second, false, w, 1, g, x);
    x := F(second, 8, x);
    TransposeHolds(false, g, w, x);
    w := Transpose8(w);
    w := GroupLevel(Forward, second, true, w, 4, g, x);
    x := F(second, 4, x);
    w := GroupLevel(Forward, second, true, w, 2, g, x);
    x := F(second, 2, x);
    w := GroupLevel(Forward, second, true, w, 1, g, x);
    x := F(second, 1, x);
    w := BarrettGroup(second, true, w, g, x);
    x := B(second, x);
    TransposeHolds(true, g, w, x);
    w := Transpose8(w);
  }

  /** `ntt_block`: two levels over memory, then a group of eight vectors at a time. */
  method NttBlock(second: bool, b: array<i16>)
    requires b.Length == 256
    modifies b
    ensures b[..] == NeonNtt(second, old(b[..]))
  {
    hide MLevel, B, HoldsAll;
    var k := 0;
    k := BroadcastLevel(Forward, second, b, 16, k);
    k := BroadcastLevel(Forward, second, b, 8, k);
    ghost var s: Block := b[..];
    assert NeonNtt(second, old(b[..])) == Tail(second, s);
    hide Tail, NeonNtt;
    for g := 0 to 4
      invariant forall p :: 0 <= p < 64 * g ==> b[p] == Tail(second, s)[p]
      invariant forall p :: 64 * g <= p < 256 ==> b[p] == s[p]
    {
      var v := LoadGroup(b, g, s);
      v := ForwardGroup(second, v, g, s);
      StoreGroup(b, g, v, Tail(second, s));
    }
  }

  /** Levels 0 to 5 of the inverse transform. */
  function Head(second: bool, s: Block): Block {
    var s := B(second, I(second, 2, I(second, 1, s)));
    var s := B(second, I(second, 8, I(second, 4, s)));
    B(second, I(second, 32, I(second, 16, s)))
  }

  method InverseGroup(second: bool, v: Group, g: nat, ghost s: Block) returns (w: Group)
    requires g < 4 && HoldsAll(false, g, v, s)
    ensures HoldsAll(false, g, w, Head(second, s))
  {
    hide MLevel, MBarrett, B, HoldsAll, Transpose8;
    ghost var x := s;
    TransposeHolds(false, g, v, x);
    w := Transpose8(v);
    w := GroupLevel(Inverse, second, true, w, 1, g, x);
    x := I(second, 1, x);
    w := GroupLevel(Inverse, second, true, w, 2, g, x);
    x := I(second, 2, x);
    w := BarrettGroup(second, true, w, g, x);
    x := B(second, x);
    w := GroupLevel(Inverse, second, true, w, 4, g, x);
    x := I(second, 4, x);
    TransposeHolds(true, g, w, x);
    w := Transpose8(w);
    w := GroupLevel(Inverse, second, false, w, 1, g, x);
    x := I(second, 8, x);
    w := BarrettGroup(second, false, w, g, x);
    x := B(second, x);
    w := GroupLevel(Inverse, second, false, w, 2, g, x);
    x := I(second, 16, x);
    w := GroupLevel(Inverse, second, false, w, 4, g, x);
    x := I(second, 32, x);
    w := BarrettGroup(second, false, w, g, x);
  }

  /** `invntt_block`, with the final scaling. */
  method InvNttBlock(second: bool, b: array<i16>)
    requires b.Length == 256
    modifies b
    ensures b[..] == InvBlock(second, old(b[..]))
  {
    hide MLevel, B, HoldsAll, Head, MScale;
    ghost var s: Block := b[..];
    for g := 0 to 4
      invariant forall p :: 0 <= p < 64 * g ==> b[p] == Head(second, s)[p]
      invariant forall p :: 64 * g <= p < 256 ==> b[p] == s[p]
    {
      var v := LoadGroup(b, g, s);
      v := InverseGroup(second, v, g, s);
      StoreGroup(b, g, v, Head(second, s));
    }
    assert b[..] == Head(second, s);
    var k := 4;
    k := BroadcastLevel(Inverse, second, b, 8, k);
    k := BroadcastLevel(Inverse, second, b, 16, k);
    HeadThenTwo(second, s);
    ScaleBlock(second, b);
  }

  lemma HeadThenTwo(second: bool, s: Block)
    ensures MLevel(Inverse, second, 128, MLevel(Inverse, second, 64, Head(second, s))) == InvLevels(second, s)
  {
    hide MLevel, B;
  }

  method ScaleBlock(second: bool, b: array<i16>)
    requires b.Length == 256
    modifies b
    ensures b[..] == MScale(second, old(b[..]))
  {
    hide NeonMontMul, MontMul, Twin, InvNttScale, Q;
    var scale := InvNttScale(second);
    ScaleOk(second);
    var z := Dup16(scale);
    ghost var s: Block := b[..];
    for i := 0 to 32
      invariant forall p :: 0 <= p < 8 * i ==> b[p] == MontMul(s[p], scale, Twin(second, scale), Q(second))
      invariant forall p :: 8 * i <= p < 256 ==> b[p] == s[p]
    {
      var x := Load(b[..], i);
      var y := NeonMontMul(x, z, Twins(second, z), Dup16(Q(second)));
      forall j | 0 <= j < 8 ensures y[j] == MontMul(x[j], scale, Twin(second, scale), Q(second)) {
        NeonMontMulIsMontMul(x, z, second, j);
      }
      Store(b, i, y);
    }
  }

  lemma ScaleOk(second: bool)
    ensures InvNttScale(second) > -0x8000
  {
  }

  method SplitAndTransform(second: bool, reduce: bool, elem: Elem, b: array<i16>)
    requires b.Length == 256
    modifies b
    ensures b[..] == NeonNtt(second, Split(second, reduce, elem))
  {
    hide Barrett, NeonBarrett, BarrettM, Q, Wrap16, NeonNtt;
    var q, bm := Dup16(Q(second)), Dup16(BarrettM(second));
    ghost var s := Split(second, reduce, elem);
    for i := 0 to 32
      invariant forall p :: 0 <= p < 8 * i ==> b[p] == s[p]
    {
      var x: V8 := seq(8, j requires 0 <= j < 8 => Wrap16(elem[8 * i + j]));
      forall j | 0 <= j < 8
        ensures NeonBarrett(x, bm, Dup16(0x400), q)[j] == Barrett(x[j], BarrettM(second), Q(second))
      {
        NeonBarrettIsBarrett(x, second, j);
      }
      Store(b, i, if reduce then NeonBarrett(x, bm, Dup16(0x400), q) else x);
    }
    assert b[..] == s;
    NttBlock(second, b);
  }

  method FromRingElem(reduce: bool, elem: Elem) returns (out: NttElem)
    ensures out == FromElem(Neon, reduce, elem)
  {
    hide NeonNtt, Split;
    var b := new i16[256](_ => 0);
    SplitAndTransform(false, reduce, elem, b);
    var first: Block := b[..];
    SplitAndTransform(true, reduce, elem, b);
    out := first + b[..];
  }

  // -------------------------------------------------------------------------------------------
  // Accumulating and reconstructing
  // -------------------------------------------------------------------------------------------

  /** `store_i32`. */
  method StoreW(acc: array<i32>, i: nat, w: W4)
    requires 4 * i + 4 <= acc.Length
    modifies acc
    ensures forall p :: 0 <= p < acc.Length ==> acc[p] == if 4 * i <= p < 4 * i + 4 then w[p - 4 * i] else old(acc[p])
  {
    forall m | 0 <= m < 4 {
      acc[4 * i + m] := w[m];
    }
  }

  /** Vector `i` of the operands and vectors `2 * i` and `2 * i + 1` of the accumulator. */
  method AccumulateVector(acc: array<i32>, l: V8, r: V8, i: nat)
    requires acc.Length == 512 && i < 64
    modifies acc
    ensures forall p :: 8 * i <= p < 8 * i + 8 ==>
            acc[p] == Wrap32(old(acc[p]) + Wrap32(l[p - 8 * i] as int * r[p - 8 * i] as int))
    ensures forall p :: 0 <= p < 8 * i || 8 * i + 8 <= p < 512 ==> acc[p] == old(acc[p])
  {
    hide Wrap32;
    var a0, a1 := acc[4 * (2 * i)..4 * (2 * i) + 4], acc[4 * (2 * i + 1)..4 * (2 * i + 1) + 4];
    StoreW(acc, 2 * i, Add32(a0, Smull(l, r, 0)));
    StoreW(acc, 2 * i + 1, Add32(a1, Smull(l, r, 4)));
  }

  method PointwiseMulAcc(acc: array<i32>, lhs: NttElem, rhs: NttElem)
    requires acc.Length == 512
    modifies acc
    ensures forall i :: 0 <= i < 512 ==> acc[i] == Wrap32(old(acc[i]) + Wrap32(lhs[i] as int * rhs[i] as int))
  {
    hide Wrap32;
    ghost var s := acc[..];
    for i := 0 to 64
      invariant forall p :: 0 <= p < 8 * i ==> acc[p] == Wrap32(s[p] + Wrap32(lhs[p] as int * rhs[p] as int))
      invariant forall p :: 8 * i <= p < 512 ==> acc[p] == s[p]
    {
      AccumulateVector(acc, Load(lhs, i), Load(rhs, i), i);
    }
  }

  method ReduceBlock(second: bool, acc: Acc, b: array<i16>)
    requires b.Length == 256
    modifies b
    ensures b[..] == InvBlock(second, MReduce(second, acc))
  {
    ReducePrime(second);
    hide MontReduce, QInv, Q, NeonReduce, InvBlock;
    var q, qinv := Q(second), QInv(second);
    var a := Half(second, acc);
    for i := 0 to 32
      invariant forall p :: 0 <= p < 8 * i ==> b[p] == MontReduce(a[p], qinv, q)
    {
      var a0, a1 := a[8 * i..8 * i + 4], a[8 * i + 4..8 * i + 8];
      var v := NeonReduce(a0, a1, Dup16(qinv), Dup16(q));
      forall j | 0 <= j < 8 ensures v[j] == MontReduce(a[8 * i + j], qinv, q) {
        NeonReduceIsMontReduce(a0, a1, qinv, q, j);
      }
      Store(b, i, v);
    }
    assert b[..] == MReduce(second, acc);
    InvNttBlock(second, b);
  }

  lemma ReducePrime(second: bool)
    ensures Q(second) > -0x8000
  {
  }

  method ReduceInvNtt(acc: Acc) returns (out: Elem)
    ensures out == ReduceInv(acc)
  {
    hide InvBlock, MReduce, Garner, NeonGarner, Q;
    var v1, v2 := new i16[256](_ => 0), new i16[256](_ => 0);
    ReduceBlock(false, acc, v1);
    ReduceBlock(true, acc, v2);
    ghost var w1, w2 := InvBlock(false, MReduce(false, acc)), InvBlock(true, MReduce(true, acc));
    assert v1[..] == w1 && v2[..] == w2;
    var res := new u16[256](_ => 0);
    for i := 0 to 32
      invariant v1[..] == w1 && v2[..] == w2
      invariant forall p :: 0 <= p < 8 * i ==> res[p] == Garner(w1[p], w2[p])
    {
      var r1, r2 := Load(v1[..], i), Load(v2[..], i);
      var v := NeonGarner(r1, r2);
      forall j | 0 <= j < 8 ensures v[j] == Garner(w1[8 * i + j], w2[8 * i + j]) {
        assert r1[8 * i + j - 8 * i] == w1[8 * i + j] && r2[8 * i + j - 8 * i] == w2[8 * i + j];
        InvBlockRange(false, MReduce(false, acc), 8 * i + j);
        InvBlockRange(true, MReduce(true, acc), 8 * i + j);
        NeonGarnerIsGarner(r1, r2, j);
      }
      forall m | 0 <= m < 8 {
        res[8 * i + m] := v[m];
      }
    }
    out := res[..];
  }
}
