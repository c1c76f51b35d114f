/** The fused Keccak round of the vector backends, four sponges to an AVX2 register or two to a NEON
    one: theta's per-lane xor, rho, pi and chi are done a destination row at a time. */
module FusedKeccak {
  import opened Keccak
  import opened KeccakTables

  /** Which instructions a round is made of. */
  datatype Arch = Avx2 | Neon

  /** A register: one 64-bit lane of each sponge. */
  type Vec = seq<Word>

  // -------------------------------------------------------------------------------------------
  // One lane
  // -------------------------------------------------------------------------------------------

  function AndNot(a: Word, b: Word): Word {
    seq(64, z requires 0 <= z < 64 => !a[z] && b[z])
  }

  function Or(a: Word, b: Word): Word {
    seq(64, z requires 0 <= z < 64 => a[z] || b[z])
  }

  function ShiftLeft(a: Word, n: nat): Word {
    seq(64, z requires 0 <= z < 64 => if z >= n then a[z - n] else false)
  }

  function ShiftRight(a: Word, n: nat): Word {
    seq(64, z requires 0 <= z < 64 => if z + n < 64 then a[z + n] else false)
  }

  /** `rotl`: a rotation spelled out as two shifts. */
  function Rotl(a: Word, l: nat): Word
    requires l < 64
  {
    Or(ShiftLeft(a, l), ShiftRight(a, 64 - l))
  }

  /** A rotation to the right, as `xar` does it. */
  function Rotr(a: Word, r: nat): Word
    requires r < 64
  {
    seq(64, z requires 0 <= z < 64 => a[(z + r) % 64])
  }

  /** The five-lane fold of a column. */
  function Fold(arch: Arch, a: Word, b: Word, c: Word, d: Word, e: Word): Word {
    match arch
    case Avx2 => Xor(Xor(Xor(a, b), Xor(c, d)), e)
    case Neon => Eor3(Eor3(a, b, c), d, e)
  }

  function Eor3(a: Word, b: Word, c: Word): Word {
    seq(64, z requires 0 <= z < 64 => (a[z] != b[z]) != c[z])
  }

  /** A column with its two neighbours: `c[x - 1] ^ rotl(c[x + 1], 1)`, one `rax1`. */
  function Mix(arch: Arch, before: Word, after: Word): Word {
    match arch
    case Avx2 => Xor(before, Rotl(after, 1))
    case Neon => Rax1(before, after)
  }

  function Rax1(a: Word, b: Word): Word {
    seq(64, z requires 0 <= z < 64 => a[z] != b[(z + 63) % 64])
  }

  /** Theta's xor and rho's rotation. */
  function ThetaRho(arch: Arch, s: Word, d: Word, r: nat): Word
    requires r < 64
  {
    match arch
    case Avx2 => Rotl(Xor(s, d), r)
    case Neon => Rotr(Xor(s, d), (64 - r) % 64)
  }

  /** Chi for one lane; `bcax` complements its third operand. */
  function ChiOf(arch: Arch, t0: Word, t1: Word, t2: Word): Word {
    match arch
    case Avx2 => Xor(t0, AndNot(t1, t2))
    case Neon => Bcax(t0, t2, t1)
  }

  function Bcax(a: Word, b: Word, c: Word): Word {
    seq(64, z requires 0 <= z < 64 => a[z] != (b[z] && !c[z]))
  }

  lemma RotlAt(a: Word, l: nat, z: nat)
    requires l < 64 && z < 64
    ensures Rotl(a, l)[z] == a[(z + 64 - l) % 64]
  {
  }

  lemma FoldAt(arch: Arch, a: Word, b: Word, c: Word, d: Word, e: Word, z: nat)
    requires z < 64
    ensures Fold(arch, a, b, c, d, e)[z] == ((((a[z] != b[z]) != c[z]) != d[z]) != e[z])
  {
  }

  lemma MixAt(arch: Arch, before: Word, after: Word, z: nat)
    requires z < 64
    ensures Mix(arch, before, after)[z] == (before[z] != after[(z + 63) % 64])
  {
    RotlAt(after, 1, z);
  }

  lemma ThetaRhoAt(arch: Arch, s: Word, d: Word, r: nat, z: nat)
    requires r < 64 && z < 64
    ensures var y := (z + 64 - r) % 64; ThetaRho(arch, s, d, r)[z] == (s[y] != d[y])
  {
    var x, y := Xor(s, d), (z + 64 - r) % 64;
    assert x[y] == (s[y] != d[y]);
    RotlAt(x, r, z);
    RotrAt(x, r, z);
    hide Xor, Rotl, Rotr;
  }

  /** `xar` names the opposite rotation. */
  lemma RotrAt(a: Word, r: nat, z: nat)
    requires r < 64 && z < 64
    ensures Rotr(a, (64 - r) % 64)[z] == a[(z + 64 - r) % 64]
  {
    if r == 0 { assert (z + 64) % 64 == z; } else { assert (64 - r) % 64 == 64 - r; }
  }

  lemma ChiAt(arch: Arch, t0: Word, t1: Word, t2: Word, z: nat)
    requires z < 64
    ensures ChiOf(arch, t0, t1, t2)[z] == (t0[z] != (!t1[z] && t2[z]))
  {
  }

  // -------------------------------------------------------------------------------------------
  // One sponge
  // -------------------------------------------------------------------------------------------

  function FoldColumn(arch: Arch, a: State, x: nat): Word
    requires x < 5
  {
    Fold(arch, a[x], a[x + 5], a[x + 10], a[x + 15], a[x + 20])
  }

  function MixColumn(arch: Arch, a: State, x: nat): Word
    requires x < 5
  {
    Mix(arch, FoldColumn(arch, a, (x + 4) % 5), FoldColumn(arch, a, (x + 1) % 5))
  }

  /** Rotated lane `k` of destination row `y`. */
  function RowLane(arch: Arch, a: State, y: nat, k: nat): Word
    requires y < 5 && k < 5
  {
    ThetaRho(arch, a[Source(y, k)], MixColumn(arch, a, Source(y, k) % 5), Turn(y, k))
  }

  /** Destination lane `x` of row `y`, before iota. */
  function FusedLane(arch: Arch, a: State, y: nat, x: nat): Word
    requires y < 5 && x < 5
  {
    ChiOf(arch, RowLane(arch, a, y, x), RowLane(arch, a, y, (x + 1) % 5), RowLane(arch, a, y, (x + 2) % 5))
  }

  lemma FoldIsC(arch: Arch, a: State, x: nat, z: nat)
    requires x < 5 && z < 64
    ensures FoldColumn(arch, a, x)[z] == C(a, x, z)
  {
    hide Fold;
    FoldAt(arch, a[x], a[x + 5], a[x + 10], a[x + 15], a[x + 20], z);
  }

  lemma CPeriodic(a: State, x: nat, z: nat)
    ensures C(a, x, z) == C(a, x % 5, z % 64)
  {
    assert x % 5 % 5 == x % 5 && z % 64 % 64 == z % 64;
  }

  lemma MixIsD(arch: Arch, a: State, x: nat, z: nat)
    requires x < 5 && z < 64
    ensures MixColumn(arch, a, x)[z] == D(a, x, z)
  {
    hide Mix, FoldColumn, C;
    MixAt(arch, FoldColumn(arch, a, (x + 4) % 5), FoldColumn(arch, a, (x + 1) % 5), z);
    FoldIsC(arch, a, (x + 4) % 5, z);
    FoldIsC(arch, a, (x + 1) % 5, (z + 63) % 64);
    CPeriodic(a, x + 4, z);
    CPeriodic(a, x + 1, z + 63);
  }

  /** Bit `z` of lane `x` of row `y` after theta, rho and pi. */
  lemma PiRhoThetaAt(a: State, x: nat, y: nat, z: nat)
    requires x < 5 && y < 5 && z < 64
    ensures var f := (x + 3 * y) % 5; var u := (z + 64 - Offset(f, x)) % 64;
            Bit(Pi(Rho(Theta(a))), x, y, z) == (a[f + 5 * x][u] != D(a, f, u))
  {
    hide Offset, D;
    var f := (x + 3 * y) % 5;
    var u := (z + 64 - Offset(f, x)) % 64;
    PiAt(Rho(Theta(a)), x, y, z);
    RhoAt(Theta(a), f, x, z);
    ThetaAt(a, f, x, u);
  }

  lemma IndexOf(x: nat, y: nat)
    requires x < 5 && y < 5
    ensures (x + 5 * y) % 5 == x && (x + 5 * y) / 5 == y && x + 5 * y < 25
  {
  }

  lemma BitAt(a: State, x: nat, y: nat, z: nat)
    requires y < 5
    ensures Bit(a, x, y, z) == a[x % 5 + 5 * y][z % 64]
  {
  }

  lemma PiAt(a: State, x: nat, y: nat, z: nat)
    requires x < 5 && y < 5 && z < 64
    ensures Bit(Pi(a), x, y, z) == a[(x + 3 * y) % 5 + 5 * x][z]
  {
    hide Bit;
    IndexOf(x, y);
    PiLaneOf(a, x, y);
    BitAt(Pi(a), x, y, z);
    BitAt(a, x + 3 * y, x, z);
    hide Pi;
  }

  lemma PiLaneOf(a: State, x: nat, y: nat)
    requires x < 5 && y < 5
    ensures Pi(a)[x + 5 * y] == PiLane(a, x, y)
  {
    hide PiLane;
    IndexOf(x, y);
  }

  lemma RhoAt(a: State, x: nat, y: nat, z: nat)
    requires x < 5 && y < 5 && z < 64
    ensures Rho(a)[x + 5 * y][z] == a[x + 5 * y][(z + 64 - Offset(x, y)) % 64]
  {
    hide Bit, Offset;
    RhoLaneOf(a, x, y);
    BitAt(a, x, y, z + 64 - Offset(x, y));
    hide Rho;
  }

  lemma RhoLaneOf(a: State, x: nat, y: nat)
    requires x < 5 && y < 5
    ensures Rho(a)[x + 5 * y] == RhoLane(a, x, y)
  {
    hide RhoLane;
    IndexOf(x, y);
  }

  lemma ThetaAt(a: State, x: nat, y: nat, z: nat)
    requires x < 5 && y < 5 && z < 64
    ensures Theta(a)[x + 5 * y][z] == (a[x + 5 * y][z] != D(a, x, z))
  {
    hide Bit, D;
    ThetaLaneOf(a, x, y);
    BitAt(a, x, y, z);
    hide Theta;
  }

  lemma ThetaLaneOf(a: State, x: nat, y: nat)
    requires x < 5 && y < 5
    ensures Theta(a)[x + 5 * y] == ThetaLane(a, x, y)
  {
    hide ThetaLane;
    IndexOf(x, y);
  }

  lemma RowLaneAt(arch: Arch, a: State, y: nat, k: nat, z: nat)
    requires y < 5 && k < 5 && z < 64
    ensures RowLane(arch, a, y, k)[z] == Bit(Pi(Rho(Theta(a))), k, y, z)
  {
    hide ThetaRho, MixColumn, D, Offset, Pi, Rho, Theta, Source, Turn, Bit;
    TableIsRhoPi(y, k);
    var f := (k + 3 * y) % 5;
    var u := (z + 64 - Offset(f, k)) % 64;
    PiRhoThetaAt(a, k, y, z);
    ThetaRhoAt(arch, a[Source(y, k)], MixColumn(arch, a, Source(y, k) % 5), Turn(y, k), z);
    MixIsD(arch, a, f, u);
  }

  /** The fused lane is chi of pi of rho of theta. */
  lemma FusedLaneIs(arch: Arch, a: State, y: nat, x: nat)
    requires y < 5 && x < 5
    ensures FusedLane(arch, a, y, x) == Chi(Pi(Rho(Theta(a))))[5 * y + x]
  {
    hide *;
    var p := Pi(Rho(Theta(a)));
    ChiLaneOf(p, x, y);
    forall z | 0 <= z < 64
      ensures FusedLane(arch, a, y, x)[z] == ChiLane(p, x, y)[z]
    {
      FusedBit(arch, a, p, y, x, z);
    }
  }

  lemma ChiLaneOf(p: State, x: nat, y: nat)
    requires x < 5 && y < 5
    ensures Chi(p)[5 * y + x] == ChiLane(p, x, y)
  {
    hide ChiLane;
    IndexOf(x, y);
  }

  lemma ChiLaneAt(p: State, x: nat, y: nat, z: nat)
    requires x < 5 && y < 5 && z < 64
    ensures ChiLane(p, x, y)[z] == (Bit(p, x, y, z) != (!Bit(p, (x + 1) % 5, y, z) && Bit(p, (x + 2) % 5, y, z)))
  {
    BitAt(p, x + 1, y, z);
    BitAt(p, x + 2, y, z);
    BitAt(p, (x + 1) % 5, y, z);
    BitAt(p, (x + 2) % 5, y, z);
    hide Bit;
  }

  lemma FusedBit(arch: Arch, a: State, p: State, y: nat, x: nat, z: nat)
    requires y < 5 && x < 5 && z < 64 && p == Pi(Rho(Theta(a)))
    ensures FusedLane(arch, a, y, x)[z] == ChiLane(p, x, y)[z]
  {
    var x1, x2 := (x + 1) % 5, (x + 2) % 5;
    hide ChiOf, RowLane, Bit, Pi, Rho, Theta, ChiLane;
    ChiLaneAt(p, x, y, z);
    ChiAt(arch, RowLane(arch, a, y, x), RowLane(arch, a, y, x1), RowLane(arch, a, y, x2), z);
    RowLaneAt(arch, a, y, x, z);
    RowLaneAt(arch, a, y, x1, z);
    RowLaneAt(arch, a, y, x2, z);
  }

  /** A whole fused round, on one sponge. */
  function FusedRound(arch: Arch, a: State, rc: Word): State {
    var s := seq(25, i requires 0 <= i < 25 => FusedLane(arch, a, i / 5, i % 5));
    s[0 := Xor(s[0], rc)]
  }

  /** The fused round is the round of FIPS 202, for either instruction set. */
  lemma FusedRoundIsRound(arch: Arch, a: State, ir: nat)
    ensures FusedRound(arch, a, Constant(ir)) == Round(a, ir)
  {
    hide FusedLane, Chi, Pi, Rho, Theta, Constant;
    var s := seq(25, i requires 0 <= i < 25 => FusedLane(arch, a, i / 5, i % 5));
    forall i | 0 <= i < 25 ensures s[i] == Chi(Pi(Rho(Theta(a))))[i] {
      FusedLaneIs(arch, a, i / 5, i % 5);
      assert 5 * (i / 5) + i % 5 == i;
    }
    assert s == Chi(Pi(Rho(Theta(a))));
  }
}
