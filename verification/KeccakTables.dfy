/** The tables of the fused Keccak round, checked against the algorithms of FIPS 202 that define
    them. */
module KeccakTables {
  import opened Congruence
  import opened Bits
  import opened Positional
  import opened Fields
  import Keccak

  // -------------------------------------------------------------------------------------------
  // Rotation offsets
  // -------------------------------------------------------------------------------------------

  /** The lane that column `k` of output row `y` is taken from. */
  function Source(y: nat, k: nat): (f: nat)
    requires y < 5 && k < 5
    ensures f < 25
  {
    if y == 0 then Pick(k, 0, 6, 12, 18, 24)
    else if y == 1 then Pick(k, 3, 9, 10, 16, 22)
    else if y == 2 then Pick(k, 1, 7, 13, 19, 20)
    else if y == 3 then Pick(k, 4, 5, 11, 17, 23)
    else Pick(k, 2, 8, 14, 15, 21)
  }

  function Pick(k: nat, a: nat, b: nat, c: nat, d: nat, e: nat): nat {
    if k == 0 then a else if k == 1 then b else if k == 2 then c else if k == 3 then d else e
  }

  /** How far that lane is rotated. */
  function Turn(y: nat, k: nat): (r: nat)
    requires y < 5 && k < 5
    ensures r < 64
  {
    if y == 0 then Pick(k, 0, 44, 43, 21, 14)
    else if y == 1 then Pick(k, 28, 20, 3, 45, 61)
    else if y == 2 then Pick(k, 1, 6, 25, 8, 18)
    else if y == 3 then Pick(k, 27, 36, 10, 15, 56)
    else Pick(k, 62, 55, 39, 41, 2)
  }

  lemma VisitsLow()
    ensures Keccak.Visit(0) == (1, 0) && Keccak.Visit(1) == (0, 2) && Keccak.Visit(2) == (2, 1)
            && Keccak.Visit(3) == (1, 2)
    ensures Keccak.Visit(4) == (2, 3) && Keccak.Visit(5) == (3, 3) && Keccak.Visit(6) == (3, 0)
            && Keccak.Visit(7) == (0, 1)
    ensures Keccak.Visit(8) == (1, 3) && Keccak.Visit(9) == (3, 1) && Keccak.Visit(10) == (1, 4)
            && Keccak.Visit(11) == (4, 4)
  {
    assert Keccak.Visit(0) == (1, 0);
    assert Keccak.Visit(1) == (0, 2);
    assert Keccak.Visit(2) == (2, 1);
    assert Keccak.Visit(3) == (1, 2);
    assert Keccak.Visit(4) == (2, 3);
    assert Keccak.Visit(5) == (3, 3);
    assert Keccak.Visit(6) == (3, 0);
    assert Keccak.Visit(7) == (0, 1);
    assert Keccak.Visit(8) == (1, 3);
    assert Keccak.Visit(9) == (3, 1);
    assert Keccak.Visit(10) == (1, 4);
    assert Keccak.Visit(11) == (4, 4);
  }

  lemma VisitsHigh()
    ensures Keccak.Visit(12) == (4, 0) && Keccak.Visit(13) == (0, 3) && Keccak.Visit(14) == (3, 4)
            && Keccak.Visit(15) == (4, 3)
    ensures Keccak.Visit(16) == (3, 2) && Keccak.Visit(17) == (2, 2) && Keccak.Visit(18) == (2, 0)
            && Keccak.Visit(19) == (0, 4)
    ensures Keccak.Visit(20) == (4, 2) && Keccak.Visit(21) == (2, 4) && Keccak.Visit(22) == (4, 1)
            && Keccak.Visit(23) == (1, 1)
  {
    VisitsLow();
    assert Keccak.Visit(12) == (4, 0);
    assert Keccak.Visit(13) == (0, 3);
    assert Keccak.Visit(14) == (3, 4);
    assert Keccak.Visit(15) == (4, 3);
    assert Keccak.Visit(16) == (3, 2);
    assert Keccak.Visit(17) == (2, 2);
    assert Keccak.Visit(18) == (2, 0);
    assert Keccak.Visit(19) == (0, 4);
    assert Keccak.Visit(20) == (4, 2);
    assert Keccak.Visit(21) == (2, 4);
    assert Keccak.Visit(22) == (4, 1);
    assert Keccak.Visit(23) == (1, 1);
  }

  /** The first step from `s` on that visits a lane gives its offset. */
  lemma {:induction false} OffsetAt(s: nat, t: nat, x: nat, y: nat)
    requires s <= t < 24 && Keccak.Visit(t) == (x, y) && forall u :: s <= u < t ==> Keccak.Visit(u) != (x, y)
    ensures Keccak.OffsetFrom(s, x, y) == (t + 1) * (t + 2) / 2 % 64
    decreases t - s
  {
    hide Keccak.Visit;
    if s < t { OffsetAt(s + 1, t, x, y); }
  }

  lemma {:induction false} NoVisit(s: nat, x: nat, y: nat)
    requires s <= 24 && forall u :: s <= u < 24 ==> Keccak.Visit(u) != (x, y)
    ensures Keccak.OffsetFrom(s, x, y) == 0
    decreases 24 - s
  {
    hide Keccak.Visit;
    if s < 24 { NoVisit(s + 1, x, y); }
  }

  lemma Offsets0()
    ensures Keccak.Offset(0, 0) == 0 && Keccak.Offset(1, 0) == 1 && Keccak.Offset(2, 0) == 62
            && Keccak.Offset(3, 0) == 28 && Keccak.Offset(4, 0) == 27
  {
    VisitsLow();
    VisitsHigh();
    hide Keccak.Visit, Keccak.OffsetFrom;
    NoVisit(0, 0, 0);
    OffsetAt(0, 0, 1, 0);
    OffsetAt(0, 18, 2, 0);
    OffsetAt(0, 6, 3, 0);
    OffsetAt(0, 12, 4, 0);
  }

  lemma Offsets1()
    ensures Keccak.Offset(0, 1) == 36 && Keccak.Offset(1, 1) == 44 && Keccak.Offset(2, 1) == 6
            && Keccak.Offset(3, 1) == 55 && Keccak.Offset(4, 1) == 20
  {
    VisitsLow();
    VisitsHigh();
    hide Keccak.Visit, Keccak.OffsetFrom;
    OffsetAt(0, 7, 0, 1);
    OffsetAt(0, 23, 1, 1);
    OffsetAt(0, 2, 2, 1);
    OffsetAt(0, 9, 3, 1);
    OffsetAt(0, 22, 4, 1);
  }

  lemma Offsets2()
    ensures Keccak.Offset(0, 2) == 3 && Keccak.Offset(1, 2) == 10 && Keccak.Offset(2, 2) == 43
            && Keccak.Offset(3, 2) == 25 && Keccak.Offset(4, 2) == 39
  {
    VisitsLow();
    VisitsHigh();
    hide Keccak.Visit, Keccak.OffsetFrom;
    OffsetAt(0, 1, 0, 2);
    OffsetAt(0, 3, 1, 2);
    OffsetAt(0, 17, 2, 2);
    OffsetAt(0, 16, 3, 2);
    OffsetAt(0, 20, 4, 2);
  }

  lemma Offsets3()
    ensures Keccak.Offset(0, 3) == 41 && Keccak.Offset(1, 3) == 45 && Keccak.Offset(2, 3) == 15
            && Keccak.Offset(3, 3) == 21 && Keccak.Offset(4, 3) == 8
  {
    VisitsLow();
    VisitsHigh();
    hide Keccak.Visit, Keccak.OffsetFrom;
    OffsetAt(0, 13, 0, 3);
    OffsetAt(0, 8, 1, 3);
    OffsetAt(0, 4, 2, 3);
    OffsetAt(0, 5, 3, 3);
    OffsetAt(0, 15, 4, 3);
  }

  lemma Offsets4()
    ensures Keccak.Offset(0, 4) == 18 && Keccak.Offset(1, 4) == 2 && Keccak.Offset(2, 4) == 61
            && Keccak.Offset(3, 4) == 56 && Keccak.Offset(4, 4) == 14
  {
    VisitsLow();
    VisitsHigh();
    hide Keccak.Visit, Keccak.OffsetFrom;
    OffsetAt(0, 19, 0, 4);
    OffsetAt(0, 10, 1, 4);
    OffsetAt(0, 21, 2, 4);
    OffsetAt(0, 14, 3, 4);
    OffsetAt(0, 11, 4, 4);
  }

  /** The source's `source, rotation` table is rho and pi read by destination: column `k` of output row
      `y` comes from lane ((k + 3 y) mod 5, k), turned by that lane's offset. */
  lemma TableIsRhoPi(y: nat, k: nat)
    requires y < 5 && k < 5
    ensures Source(y, k) == (k + 3 * y) % 5 + 5 * k
    ensures Turn(y, k) == Keccak.Offset((k + 3 * y) % 5, k)
  {
    hide Keccak.Offset;
    Offsets0();
    Offsets1();
    Offsets2();
    Offsets3();
    Offsets4();
  }

  // -------------------------------------------------------------------------------------------
  // Round constants
  // -------------------------------------------------------------------------------------------

  /** The last twelve constants of the source's table. */
  function RoundConstant(round: nat): (rc: nat)
    requires round < 12
    ensures rc < 0x1_0000_0000_0000_0000
  {
    if round == 0 then 0x000000008000808b
    else if round == 1 then 0x800000000000008b
    else if round == 2 then 0x8000000000008089
    else if round == 3 then 0x8000000000008003
    else if round == 4 then 0x8000000000008002
    else if round == 5 then 0x8000000000000080
    else if round == 6 then 0x000000000000800a
    else if round == 7 then 0x800000008000000a
    else if round == 8 then 0x8000000080008081
    else if round == 9 then 0x8000000000008080
    else if round == 10 then 0x0000000080000001
    else 0x8000000080008008
  }

  /** The lane whose bits are those of a number. */
  function WordOf(n: nat): Keccak.Word {
    seq(64, z requires 0 <= z < 64 => Slice(n, z, 1) == 1)
  }

  /** Dropping `k` low bits shifts the rest. */
  lemma SliceAbove(a: nat, b: nat, k: nat, z: nat)
    requires a < Pow2(k) && z >= k
    ensures Slice(a + Pow2(k) * b, z, 1) == Slice(b, z - k, 1)
  {
    Pow2Add(k, z - k);
    DivUnique(a + Pow2(k) * b, Pow2(k), b, a);
    DivDiv(a + Pow2(k) * b, Pow2(k), Pow2(z - k));
    hide Pow2;
  }

  /** A bit alone in its field of `k`. */
  lemma LoneBit(c: nat, b: nat, k: nat, pk: nat, z: nat, n: nat)
    requires c < 2 && k > 0 && pk == Pow2(k) && n == c + pk * b
    ensures z == 0 ==> Slice(n, z, 1) == c
    ensures 0 < z < k ==> Slice(n, z, 1) == 0
    ensures z >= k ==> Slice(n, z, 1) == Slice(b, z - k, 1)
  {
    Pow2Mono(1, k);
    assert Pow2(1) == 2 && Pow2(0) == 1;
    if z >= k {
      SliceAbove(c, b, k, z);
    } else {
      HighBits(c, b, z, 1, k);
      LowBit(c, z);
    }
  }

  lemma LowBit(c: nat, z: nat)
    requires c < 2
    ensures Slice(c, z, 1) == if z == 0 then c else 0
  {
    assert Pow2(1) == 2 && Pow2(0) == 1;
    if z == 0 {
      assert c / 1 == c;
    } else {
      Pow2Mono(1, z);
      DivUnique(c, Pow2(z), 0, c);
    }
  }

  function Bit01(b: bool): nat {
    if b then 1 else 0
  }

  /** The number with the given bits at positions 0, 1, 3, 7, 15, 31 and 63. */
  lemma SparseWord(n: nat, c0: bool, c1: bool, c2: bool, c3: bool, c4: bool, c5: bool, c6: bool, z: nat)
    requires z < 64
    requires n == Bit01(c0) + 2 * (Bit01(c1)
             + 4 * (Bit01(c2) + 16 * (Bit01(c3)
               + 256 * (Bit01(c4) + 0x1_0000 * (Bit01(c5) + 0x1_0000_0000 * Bit01(c6))))))
    ensures (Slice(n, z, 1) == 1)
            == ((z == 0 && c0) || (z == 1 && c1) || (z == 3 && c2) || (z == 7 && c3) || (z == 15 && c4)
              || (z == 31 && c5) || (z == 63 && c6))
  {
    var n6 := Bit01(c6);
    var n5 := Bit01(c5) + 0x1_0000_0000 * n6;
    var n4 := Bit01(c4) + 0x1_0000 * n5;
    var n3 := Bit01(c3) + 256 * n4;
    var n2 := Bit01(c2) + 16 * n3;
    var n1 := Bit01(c1) + 4 * n2;
    Pow2Values();
    hide Slice, Pow2;
    LoneBit(Bit01(c0), n1, 1, 2, z, n);
    if z >= 1 {
      LoneBit(Bit01(c1), n2, 2, 4, z - 1, n1);
      if z >= 3 { SparseMiddle(c2, c3, c4, c5, c6, n2, n3, n4, n5, n6, z - 3); }
    }
  }

  lemma SparseMiddle(c2: bool, c3: bool, c4: bool, c5: bool, c6: bool, n2: nat, n3: nat, n4: nat, n5: nat, n6: nat,
                     z: nat)
    requires n2 == Bit01(c2) + 16 * n3 && n3 == Bit01(c3) + 256 * n4 && z < 61
    requires n4 == Bit01(c4) + 0x1_0000 * n5 && n5 == Bit01(c5) + 0x1_0000_0000 * n6 && n6 == Bit01(c6)
    ensures (Slice(n2, z, 1) == 1) == ((z == 0 && c2) || (z == 4 && c3) || (z == 12 && c4) || (z == 28 && c5)
            || (z == 60 && c6))
  {
    Pow2Values();
    hide Slice, Pow2;
    LoneBit(Bit01(c2), n3, 4, 16, z, n2);
    if z >= 4 {
      LoneBit(Bit01(c3), n4, 8, 256, z - 4, n3);
      if z >= 12 { SparseTop(c4, c5, n4, n5, n6, z - 12, c6); }
    }
  }

  lemma SparseTop(c4: bool, c5: bool, n4: nat, n5: nat, n6: nat, z: nat, c6: bool)
    requires n4 == Bit01(c4) + 0x1_0000 * n5 && n5 == Bit01(c5) + 0x1_0000_0000 * n6 && n6 == Bit01(c6) && z < 49
    ensures (Slice(n4, z, 1) == 1) == ((z == 0 && c4) || (z == 16 && c5) || (z == 48 && c6))
  {
    Pow2Values();
    Pow2Add(16, 16);
    hide Slice, Pow2;
    LoneBit(Bit01(c4), n5, 16, 0x1_0000, z, n4);
    if z >= 16 {
      LoneBit(Bit01(c5), n6, 32, 0x1_0000_0000, z - 16, n5);
      if z >= 48 { LowBit(n6, z - 48); }
    }
  }

  // The register of Algorithm 5, step by step.

  lemma Register7()
    ensures Keccak.RegisterAt(7) == Keccak.Register(false, false, false, false, false, false, false, true)
  {
    assert Keccak.RegisterAt(0) == Keccak.Register(true, false, false, false, false, false, false, false);
    assert Keccak.RegisterAt(1) == Keccak.Register(false, true, false, false, false, false, false, false);
    assert Keccak.RegisterAt(2) == Keccak.Register(false, false, true, false, false, false, false, false);
    assert Keccak.RegisterAt(3) == Keccak.Register(false, false, false, true, false, false, false, false);
    assert Keccak.RegisterAt(4) == Keccak.Register(false, false, false, false, true, false, false, false);
    assert Keccak.RegisterAt(5) == Keccak.Register(false, false, false, false, false, true, false, false);
    assert Keccak.RegisterAt(6) == Keccak.Register(false, false, false, false, false, false, true, false);
  }

  lemma Register14()
    ensures Keccak.RegisterAt(14) == Keccak.Register(false, false, false, true, true, false, true, true)
  {
    Register7();
    assert Keccak.RegisterAt(8) == Keccak.Register(true, false, false, false, true, true, true, false);
    assert Keccak.RegisterAt(9) == Keccak.Register(false, true, false, false, false, true, true, true);
    assert Keccak.RegisterAt(10) == Keccak.Register(true, false, true, false, true, true, false, true);
    assert Keccak.RegisterAt(11) == Keccak.Register(true, true, false, true, true, false, false, false);
    assert Keccak.RegisterAt(12) == Keccak.Register(false, true, true, false, true, true, false, false);
    assert Keccak.RegisterAt(13) == Keccak.Register(false, false, true, true, false, true, true, false);
  }

  lemma Register21()
    ensures Keccak.RegisterAt(21) == Keccak.Register(false, true, false, true, true, false, false, false)
  {
    Register14();
    assert Keccak.RegisterAt(15) == Keccak.Register(true, false, false, false, false, false, true, true);
    assert Keccak.RegisterAt(16) == Keccak.Register(true, true, false, false, true, true, true, true);
    assert Keccak.RegisterAt(17) == Keccak.Register(true, true, true, false, true, false, false, true);
    assert Keccak.RegisterAt(18) == Keccak.Register(true, true, true, true, true, false, true, false);
    assert Keccak.RegisterAt(19) == Keccak.Register(false, true, true, true, true, true, false, true);
    assert Keccak.RegisterAt(20) == Keccak.Register(true, false, true, true, false, false, false, false);
  }

  lemma Register28()
    ensures Keccak.RegisterAt(28) == Keccak.Register(true, true, true, true, true, false, true, true)
  {
    Register21();
    assert Keccak.RegisterAt(22) == Keccak.Register(false, false, true, false, true, true, false, false);
    assert Keccak.RegisterAt(23) == Keccak.Register(false, false, false, true, false, true, true, false);
    assert Keccak.RegisterAt(24) == Keccak.Register(false, false, false, false, true, false, true, true);
    assert Keccak.RegisterAt(25) == Keccak.Register(true, false, false, false, true, false, true, true);
    assert Keccak.RegisterAt(26) == Keccak.Register(true, true, false, false, true, false, true, true);
    assert Keccak.RegisterAt(27) == Keccak.Register(true, true, true, false, true, false, true, true);
  }

  lemma Register35()
    ensures Keccak.RegisterAt(35) == Keccak.Register(true, false, false, true, false, false, false, false)
  {
    Register28();
    assert Keccak.RegisterAt(29) == Keccak.Register(true, true, true, true, false, false, true, true);
    assert Keccak.RegisterAt(30) == Keccak.Register(true, true, true, true, false, true, true, true);
    assert Keccak.RegisterAt(31) == Keccak.Register(true, true, true, true, false, true, false, true);
    assert Keccak.RegisterAt(32) == Keccak.Register(true, true, true, true, false, true, false, false);
    assert Keccak.RegisterAt(33) == Keccak.Register(false, true, true, true, true, false, true, false);
    assert Keccak.RegisterAt(34) == Keccak.Register(false, false, true, true, true, true, false, true);
  }

  lemma Register42()
    ensures Keccak.RegisterAt(42) == Keccak.Register(true, false, true, false, true, true, false, false)
  {
    Register35();
    assert Keccak.RegisterAt(36) == Keccak.Register(false, true, false, false, true, false, false, false);
    assert Keccak.RegisterAt(37) == Keccak.Register(false, false, true, false, false, true, false, false);
    assert Keccak.RegisterAt(38) == Keccak.Register(false, false, false, true, false, false, true, false);
    assert Keccak.RegisterAt(39) == Keccak.Register(false, false, false, false, true, false, false, true);
    assert Keccak.RegisterAt(40) == Keccak.Register(true, false, false, false, true, false, true, false);
    assert Keccak.RegisterAt(41) == Keccak.Register(false, true, false, false, false, true, false, true);
  }

  lemma Register49()
    ensures Keccak.RegisterAt(49) == Keccak.Register(true, true, true, true, false, false, true, false)
  {
    Register42();
    assert Keccak.RegisterAt(43) == Keccak.Register(false, true, false, true, false, true, true, false);
    assert Keccak.RegisterAt(44) == Keccak.Register(false, false, true, false, true, false, true, true);
    assert Keccak.RegisterAt(45) == Keccak.Register(true, false, false, true, true, false, true, true);
    assert Keccak.RegisterAt(46) == Keccak.Register(true, true, false, false, false, false, true, true);
    assert Keccak.RegisterAt(47) == Keccak.Register(true, true, true, false, true, true, true, true);
    assert Keccak.RegisterAt(48) == Keccak.Register(true, true, true, true, true, false, false, true);
  }

  lemma Register56()
    ensures Keccak.RegisterAt(56) == Keccak.Register(false, true, false, true, false, false, true, true)
  {
    Register49();
    assert Keccak.RegisterAt(50) == Keccak.Register(false, true, true, true, true, false, false, true);
    assert Keccak.RegisterAt(51) == Keccak.Register(true, false, true, true, false, false, true, false);
    assert Keccak.RegisterAt(52) == Keccak.Register(false, true, false, true, true, false, false, true);
    assert Keccak.RegisterAt(53) == Keccak.Register(true, false, true, false, false, false, true, false);
    assert Keccak.RegisterAt(54) == Keccak.Register(false, true, false, true, false, false, false, true);
    assert Keccak.RegisterAt(55) == Keccak.Register(true, false, true, false, false, true, true, false);
  }

  lemma Register63()
    ensures Keccak.RegisterAt(63) == Keccak.Register(false, false, false, false, true, true, true, false)
  {
    Register56();
    assert Keccak.RegisterAt(57) == Keccak.Register(true, false, true, false, false, true, true, true);
    assert Keccak.RegisterAt(58) == Keccak.Register(true, true, false, true, true, true, false, true);
    assert Keccak.RegisterAt(59) == Keccak.Register(true, true, true, false, false, false, false, false);
    assert Keccak.RegisterAt(60) == Keccak.Register(false, true, true, true, false, false, false, false);
    assert Keccak.RegisterAt(61) == Keccak.Register(false, false, true, true, true, false, false, false);
    assert Keccak.RegisterAt(62) == Keccak.Register(false, false, false, true, true, true, false, false);
  }

  lemma Register70()
    ensures Keccak.RegisterAt(70) == Keccak.Register(true, false, false, false, false, false, true, false)
  {
    Register63();
    assert Keccak.RegisterAt(64) == Keccak.Register(false, false, false, false, false, true, true, true);
    assert Keccak.RegisterAt(65) == Keccak.Register(true, false, false, false, true, true, false, true);
    assert Keccak.RegisterAt(66) == Keccak.Register(true, true, false, false, true, false, false, false);
    assert Keccak.RegisterAt(67) == Keccak.Register(false, true, true, false, false, true, false, false);
    assert Keccak.RegisterAt(68) == Keccak.Register(false, false, true, true, false, false, true, false);
    assert Keccak.RegisterAt(69) == Keccak.Register(false, false, false, true, true, false, false, true);
  }

  lemma Register77()
    ensures Keccak.RegisterAt(77) == Keccak.Register(false, false, true, true, false, true, true, true)
  {
    Register70();
    assert Keccak.RegisterAt(71) == Keccak.Register(false, true, false, false, false, false, false, true);
    assert Keccak.RegisterAt(72) == Keccak.Register(true, false, true, false, true, true, true, false);
    assert Keccak.RegisterAt(73) == Keccak.Register(false, true, false, true, false, true, true, true);
    assert Keccak.RegisterAt(74) == Keccak.Register(true, false, true, false, false, true, false, true);
    assert Keccak.RegisterAt(75) == Keccak.Register(true, true, false, true, true, true, false, false);
    assert Keccak.RegisterAt(76) == Keccak.Register(false, true, true, false, true, true, true, false);
  }

  lemma Register84()
    ensures Keccak.RegisterAt(84) == Keccak.Register(true, false, true, false, true, false, true, true)
  {
    Register77();
    assert Keccak.RegisterAt(78) == Keccak.Register(true, false, false, true, false, true, false, true);
    assert Keccak.RegisterAt(79) == Keccak.Register(true, true, false, false, false, true, false, false);
    assert Keccak.RegisterAt(80) == Keccak.Register(false, true, true, false, false, false, true, false);
    assert Keccak.RegisterAt(81) == Keccak.Register(false, false, true, true, false, false, false, true);
    assert Keccak.RegisterAt(82) == Keccak.Register(true, false, false, true, false, true, true, false);
    assert Keccak.RegisterAt(83) == Keccak.Register(false, true, false, false, true, false, true, true);
  }

  lemma Register91()
    ensures Keccak.RegisterAt(91) == Keccak.Register(true, false, true, true, false, false, true, true)
  {
    Register84();
    assert Keccak.RegisterAt(85) == Keccak.Register(true, true, false, true, true, false, true, true);
    assert Keccak.RegisterAt(86) == Keccak.Register(true, true, true, false, false, false, true, true);
    assert Keccak.RegisterAt(87) == Keccak.Register(true, true, true, true, true, true, true, true);
    assert Keccak.RegisterAt(88) == Keccak.Register(true, true, true, true, false, false, false, true);
    assert Keccak.RegisterAt(89) == Keccak.Register(true, true, true, true, false, true, true, false);
    assert Keccak.RegisterAt(90) == Keccak.Register(false, true, true, true, true, false, true, true);
  }

  lemma Register98()
    ensures Keccak.RegisterAt(98) == Keccak.Register(true, true, false, false, false, true, true, false)
  {
    Register91();
    assert Keccak.RegisterAt(92) == Keccak.Register(true, true, false, true, false, true, true, true);
    assert Keccak.RegisterAt(93) == Keccak.Register(true, true, true, false, false, true, false, true);
    assert Keccak.RegisterAt(94) == Keccak.Register(true, true, true, true, true, true, false, false);
    assert Keccak.RegisterAt(95) == Keccak.Register(false, true, true, true, true, true, true, false);
    assert Keccak.RegisterAt(96) == Keccak.Register(false, false, true, true, true, true, true, true);
    assert Keccak.RegisterAt(97) == Keccak.Register(true, false, false, true, false, false, false, true);
  }

  lemma Register105()
    ensures Keccak.RegisterAt(105) == Keccak.Register(true, true, false, true, false, true, false, true)
  {
    Register98();
    assert Keccak.RegisterAt(99) == Keccak.Register(false, true, true, false, false, false, true, true);
    assert Keccak.RegisterAt(100) == Keccak.Register(true, false, true, true, true, true, true, true);
    assert Keccak.RegisterAt(101) == Keccak.Register(true, true, false, true, false, false, false, true);
    assert Keccak.RegisterAt(102) == Keccak.Register(true, true, true, false, false, true, true, false);
    assert Keccak.RegisterAt(103) == Keccak.Register(false, true, true, true, false, false, true, true);
    assert Keccak.RegisterAt(104) == Keccak.Register(true, false, true, true, false, true, true, true);
  }

  lemma Register112()
    ensures Keccak.RegisterAt(112) == Keccak.Register(false, true, false, true, false, true, false, true)
  {
    Register105();
    assert Keccak.RegisterAt(106) == Keccak.Register(true, true, true, false, false, true, false, false);
    assert Keccak.RegisterAt(107) == Keccak.Register(false, true, true, true, false, false, true, false);
    assert Keccak.RegisterAt(108) == Keccak.Register(false, false, true, true, true, false, false, true);
    assert Keccak.RegisterAt(109) == Keccak.Register(true, false, false, true, false, false, true, false);
    assert Keccak.RegisterAt(110) == Keccak.Register(false, true, false, false, true, false, false, true);
    assert Keccak.RegisterAt(111) == Keccak.Register(true, false, true, false, true, false, true, false);
  }

  lemma Register119()
    ensures Keccak.RegisterAt(119) == Keccak.Register(false, true, false, true, false, true, false, false)
  {
    Register112();
    assert Keccak.RegisterAt(113) == Keccak.Register(true, false, true, false, false, true, false, false);
    assert Keccak.RegisterAt(114) == Keccak.Register(false, true, false, true, false, false, true, false);
    assert Keccak.RegisterAt(115) == Keccak.Register(false, false, true, false, true, false, false, true);
    assert Keccak.RegisterAt(116) == Keccak.Register(true, false, false, true, true, false, true, false);
    assert Keccak.RegisterAt(117) == Keccak.Register(false, true, false, false, true, true, false, true);
    assert Keccak.RegisterAt(118) == Keccak.Register(true, false, true, false, true, false, false, false);
  }

  lemma Register126()
    ensures Keccak.RegisterAt(126) == Keccak.Register(false, true, false, false, true, true, true, true)
  {
    Register119();
    assert Keccak.RegisterAt(120) == Keccak.Register(false, false, true, false, true, false, true, false);
    assert Keccak.RegisterAt(121) == Keccak.Register(false, false, false, true, false, true, false, true);
    assert Keccak.RegisterAt(122) == Keccak.Register(true, false, false, false, false, true, false, false);
    assert Keccak.RegisterAt(123) == Keccak.Register(false, true, false, false, false, false, true, false);
    assert Keccak.RegisterAt(124) == Keccak.Register(false, false, true, false, false, false, false, true);
    assert Keccak.RegisterAt(125) == Keccak.Register(true, false, false, true, true, true, true, false);
  }

  lemma Register133()
    ensures Keccak.RegisterAt(133) == Keccak.Register(false, false, false, true, false, true, true, true)
  {
    Register126();
    assert Keccak.RegisterAt(127) == Keccak.Register(true, false, true, false, true, false, false, true);
    assert Keccak.RegisterAt(128) == Keccak.Register(true, true, false, true, true, false, true, false);
    assert Keccak.RegisterAt(129) == Keccak.Register(false, true, true, false, true, true, false, true);
    assert Keccak.RegisterAt(130) == Keccak.Register(true, false, true, true, true, false, false, false);
    assert Keccak.RegisterAt(131) == Keccak.Register(false, true, false, true, true, true, false, false);
    assert Keccak.RegisterAt(132) == Keccak.Register(false, false, true, false, true, true, true, false);
  }

  lemma Register140()
    ensures Keccak.RegisterAt(140) == Keccak.Register(true, true, true, false, true, true, false, false)
  {
    Register133();
    assert Keccak.RegisterAt(134) == Keccak.Register(true, false, false, false, false, true, false, true);
    assert Keccak.RegisterAt(135) == Keccak.Register(true, true, false, false, true, true, false, false);
    assert Keccak.RegisterAt(136) == Keccak.Register(false, true, true, false, false, true, true, false);
    assert Keccak.RegisterAt(137) == Keccak.Register(false, false, true, true, false, false, true, true);
    assert Keccak.RegisterAt(138) == Keccak.Register(true, false, false, true, false, true, true, true);
    assert Keccak.RegisterAt(139) == Keccak.Register(true, true, false, false, false, true, false, true);
  }

  lemma Register147()
    ensures Keccak.RegisterAt(147) == Keccak.Register(false, true, true, true, true, true, false, false)
  {
    Register140();
    assert Keccak.RegisterAt(141) == Keccak.Register(false, true, true, true, false, true, true, false);
    assert Keccak.RegisterAt(142) == Keccak.Register(false, false, true, true, true, false, true, true);
    assert Keccak.RegisterAt(143) == Keccak.Register(true, false, false, true, false, false, true, true);
    assert Keccak.RegisterAt(144) == Keccak.Register(true, true, false, false, false, true, true, true);
    assert Keccak.RegisterAt(145) == Keccak.Register(true, true, true, false, true, true, false, true);
    assert Keccak.RegisterAt(146) == Keccak.Register(true, true, true, true, true, false, false, false);
  }

  lemma Register154()
    ensures Keccak.RegisterAt(154) == Keccak.Register(true, true, false, true, false, false, false, false)
  {
    Register147();
    assert Keccak.RegisterAt(148) == Keccak.Register(false, false, true, true, true, true, true, false);
    assert Keccak.RegisterAt(149) == Keccak.Register(false, false, false, true, true, true, true, true);
    assert Keccak.RegisterAt(150) == Keccak.Register(true, false, false, false, false, false, false, true);
    assert Keccak.RegisterAt(151) == Keccak.Register(true, true, false, false, true, true, true, false);
    assert Keccak.RegisterAt(152) == Keccak.Register(false, true, true, false, false, true, true, true);
    assert Keccak.RegisterAt(153) == Keccak.Register(true, false, true, true, true, true, false, true);
  }

  lemma Register161()
    ensures Keccak.RegisterAt(161) == Keccak.Register(false, false, true, false, false, false, true, false)
  {
    Register154();
    assert Keccak.RegisterAt(155) == Keccak.Register(false, true, true, false, true, false, false, false);
    assert Keccak.RegisterAt(156) == Keccak.Register(false, false, true, true, false, true, false, false);
    assert Keccak.RegisterAt(157) == Keccak.Register(false, false, false, true, true, false, true, false);
    assert Keccak.RegisterAt(158) == Keccak.Register(false, false, false, false, true, true, false, true);
    assert Keccak.RegisterAt(159) == Keccak.Register(true, false, false, false, true, false, false, false);
    assert Keccak.RegisterAt(160) == Keccak.Register(false, true, false, false, false, true, false, false);
  }

  lemma Rc12()
    ensures Keccak.Rc(84) && Keccak.Rc(85) && Keccak.Rc(86) && Keccak.Rc(87) && Keccak.Rc(88) && Keccak.Rc(89)
            && !Keccak.Rc(90)
  {
    Register84();
    assert Keccak.RegisterAt(85) == Keccak.Register(true, true, false, true, true, false, true, true);
    assert Keccak.RegisterAt(86) == Keccak.Register(true, true, true, false, false, false, true, true);
    assert Keccak.RegisterAt(87) == Keccak.Register(true, true, true, true, true, true, true, true);
    assert Keccak.RegisterAt(88) == Keccak.Register(true, true, true, true, false, false, false, true);
    assert Keccak.RegisterAt(89) == Keccak.Register(true, true, true, true, false, true, true, false);
    assert Keccak.RegisterAt(90) == Keccak.Register(false, true, true, true, true, false, true, true);
  }

  lemma Rc13()
    ensures Keccak.Rc(91) && Keccak.Rc(92) && Keccak.Rc(93) && Keccak.Rc(94) && !Keccak.Rc(95) && !Keccak.Rc(96)
            && Keccak.Rc(97)
  {
    Register91();
    assert Keccak.RegisterAt(92) == Keccak.Register(true, true, false, true, false, true, true, true);
    assert Keccak.RegisterAt(93) == Keccak.Register(true, true, true, false, false, true, false, true);
    assert Keccak.RegisterAt(94) == Keccak.Register(true, true, true, true, true, true, false, false);
    assert Keccak.RegisterAt(95) == Keccak.Register(false, true, true, true, true, true, true, false);
    assert Keccak.RegisterAt(96) == Keccak.Register(false, false, true, true, true, true, true, true);
    assert Keccak.RegisterAt(97) == Keccak.Register(true, false, false, true, false, false, false, true);
  }

  lemma Rc14()
    ensures Keccak.Rc(98) && !Keccak.Rc(99) && Keccak.Rc(100) && Keccak.Rc(101) && Keccak.Rc(102) && !Keccak.Rc(103)
            && Keccak.Rc(104)
  {
    Register98();
    assert Keccak.RegisterAt(99) == Keccak.Register(false, true, true, false, false, false, true, true);
    assert Keccak.RegisterAt(100) == Keccak.Register(true, false, true, true, true, true, true, true);
    assert Keccak.RegisterAt(101) == Keccak.Register(true, true, false, true, false, false, false, true);
    assert Keccak.RegisterAt(102) == Keccak.Register(true, true, true, false, false, true, true, false);
    assert Keccak.RegisterAt(103) == Keccak.Register(false, true, true, true, false, false, true, true);
    assert Keccak.RegisterAt(104) == Keccak.Register(true, false, true, true, false, true, true, true);
  }

  lemma Rc15()
    ensures Keccak.Rc(105) && Keccak.Rc(106) && !Keccak.Rc(107) && !Keccak.Rc(108) && Keccak.Rc(109) && !Keccak.Rc(110)
            && Keccak.Rc(111)
  {
    Register105();
    assert Keccak.RegisterAt(106) == Keccak.Register(true, true, true, false, false, true, false, false);
    assert Keccak.RegisterAt(107) == Keccak.Register(false, true, true, true, false, false, true, false);
    assert Keccak.RegisterAt(108) == Keccak.Register(false, false, true, true, true, false, false, true);
    assert Keccak.RegisterAt(109) == Keccak.Register(true, false, false, true, false, false, true, false);
    assert Keccak.RegisterAt(110) == Keccak.Register(false, true, false, false, true, false, false, true);
    assert Keccak.RegisterAt(111) == Keccak.Register(true, false, true, false, true, false, true, false);
  }

  lemma Rc16()
    ensures !Keccak.Rc(112) && Keccak.Rc(113) && !Keccak.Rc(114) && !Keccak.Rc(115) && Keccak.Rc(116) && !Keccak.Rc(117)
            && Keccak.Rc(118)
  {
    Register112();
    assert Keccak.RegisterAt(113) == Keccak.Register(true, false, true, false, false, true, false, false);
    assert Keccak.RegisterAt(114) == Keccak.Register(false, true, false, true, false, false, true, false);
    assert Keccak.RegisterAt(115) == Keccak.Register(false, false, true, false, true, false, false, true);
    assert Keccak.RegisterAt(116) == Keccak.Register(true, false, false, true, true, false, true, false);
    assert Keccak.RegisterAt(117) == Keccak.Register(false, true, false, false, true, true, false, true);
    assert Keccak.RegisterAt(118) == Keccak.Register(true, false, true, false, true, false, false, false);
  }

  lemma Rc17()
    ensures !Keccak.Rc(119) && !Keccak.Rc(120) && !Keccak.Rc(121) && Keccak.Rc(122) && !Keccak.Rc(123)
            && !Keccak.Rc(124) && Keccak.Rc(125)
  {
    Register119();
    assert Keccak.RegisterAt(120) == Keccak.Register(false, false, true, false, true, false, true, false);
    assert Keccak.RegisterAt(121) == Keccak.Register(false, false, false, true, false, true, false, true);
    assert Keccak.RegisterAt(122) == Keccak.Register(true, false, false, false, false, true, false, false);
    assert Keccak.RegisterAt(123) == Keccak.Register(false, true, false, false, false, false, true, false);
    assert Keccak.RegisterAt(124) == Keccak.Register(false, false, true, false, false, false, false, true);
    assert Keccak.RegisterAt(125) == Keccak.Register(true, false, false, true, true, true, true, false);
  }

  lemma Rc18()
    ensures !Keccak.Rc(126) && Keccak.Rc(127) && Keccak.Rc(128) && !Keccak.Rc(129) && Keccak.Rc(130) && !Keccak.Rc(131)
            && !Keccak.Rc(132)
  {
    Register126();
    assert Keccak.RegisterAt(127) == Keccak.Register(true, false, true, false, true, false, false, true);
    assert Keccak.RegisterAt(128) == Keccak.Register(true, true, false, true, true, false, true, false);
    assert Keccak.RegisterAt(129) == Keccak.Register(false, true, true, false, true, true, false, true);
    assert Keccak.RegisterAt(130) == Keccak.Register(true, false, true, true, true, false, false, false);
    assert Keccak.RegisterAt(131) == Keccak.Register(false, true, false, true, true, true, false, false);
    assert Keccak.RegisterAt(132) == Keccak.Register(false, false, true, false, true, true, true, false);
  }

  lemma Rc19()
    ensures !Keccak.Rc(133) && Keccak.Rc(134) && Keccak.Rc(135) && !Keccak.Rc(136) && !Keccak.Rc(137) && Keccak.Rc(138)
            && Keccak.Rc(139)
  {
    Register133();
    assert Keccak.RegisterAt(134) == Keccak.Register(true, false, false, false, false, true, false, true);
    assert Keccak.RegisterAt(135) == Keccak.Register(true, true, false, false, true, true, false, false);
    assert Keccak.RegisterAt(136) == Keccak.Register(false, true, true, false, false, true, true, false);
    assert Keccak.RegisterAt(137) == Keccak.Register(false, false, true, true, false, false, true, true);
    assert Keccak.RegisterAt(138) == Keccak.Register(true, false, false, true, false, true, true, true);
    assert Keccak.RegisterAt(139) == Keccak.Register(true, true, false, false, false, true, false, true);
  }

  lemma Rc20()
    ensures Keccak.Rc(140) && !Keccak.Rc(141) && !Keccak.Rc(142) && Keccak.Rc(143) && Keccak.Rc(144) && Keccak.Rc(145)
            && Keccak.Rc(146)
  {
    Register140();
    assert Keccak.RegisterAt(141) == Keccak.Register(false, true, true, true, false, true, true, false);
    assert Keccak.RegisterAt(142) == Keccak.Register(false, false, true, true, true, false, true, true);
    assert Keccak.RegisterAt(143) == Keccak.Register(true, false, false, true, false, false, true, true);
    assert Keccak.RegisterAt(144) == Keccak.Register(true, true, false, false, false, true, true, true);
    assert Keccak.RegisterAt(145) == Keccak.Register(true, true, true, false, true, true, false, true);
    assert Keccak.RegisterAt(146) == Keccak.Register(true, true, true, true, true, false, false, false);
  }

  lemma Rc21()
    ensures !Keccak.Rc(147) && !Keccak.Rc(148) && !Keccak.Rc(149) && Keccak.Rc(150) && Keccak.Rc(151) && !Keccak.Rc(152)
            && Keccak.Rc(153)
  {
    Register147();
    assert Keccak.RegisterAt(148) == Keccak.Register(false, false, true, true, true, true, true, false);
    assert Keccak.RegisterAt(149) == Keccak.Register(false, false, false, true, true, true, true, true);
    assert Keccak.RegisterAt(150) == Keccak.Register(true, false, false, false, false, false, false, true);
    assert Keccak.RegisterAt(151) == Keccak.Register(true, true, false, false, true, true, true, false);
    assert Keccak.RegisterAt(152) == Keccak.Register(false, true, true, false, false, true, true, true);
    assert Keccak.RegisterAt(153) == Keccak.Register(true, false, true, true, true, true, false, true);
  }

  lemma Rc22()
    ensures Keccak.Rc(154) && !Keccak.Rc(155) && !Keccak.Rc(156) && !Keccak.Rc(157) && !Keccak.Rc(158) && Keccak.Rc(159)
            && !Keccak.Rc(160)
  {
    Register154();
    assert Keccak.RegisterAt(155) == Keccak.Register(false, true, true, false, true, false, false, false);
    assert Keccak.RegisterAt(156) == Keccak.Register(false, false, true, true, false, true, false, false);
    assert Keccak.RegisterAt(157) == Keccak.Register(false, false, false, true, true, false, true, false);
    assert Keccak.RegisterAt(158) == Keccak.Register(false, false, false, false, true, true, false, true);
    assert Keccak.RegisterAt(159) == Keccak.Register(true, false, false, false, true, false, false, false);
    assert Keccak.RegisterAt(160) == Keccak.Register(false, true, false, false, false, true, false, false);
  }

  lemma Rc23()
    ensures !Keccak.Rc(161) && !Keccak.Rc(162) && Keccak.Rc(163) && !Keccak.Rc(164) && Keccak.Rc(165) && Keccak.Rc(166)
            && Keccak.Rc(167)
  {
    Register161();
    assert Keccak.RegisterAt(162) == Keccak.Register(false, false, false, true, false, false, false, true);
    assert Keccak.RegisterAt(163) == Keccak.Register(true, false, false, false, false, true, true, false);
    assert Keccak.RegisterAt(164) == Keccak.Register(false, true, false, false, false, false, true, true);
    assert Keccak.RegisterAt(165) == Keccak.Register(true, false, true, false, true, true, true, true);
    assert Keccak.RegisterAt(166) == Keccak.Register(true, true, false, true, true, false, false, true);
    assert Keccak.RegisterAt(167) == Keccak.Register(true, true, true, false, false, false, true, false);
  }

  /** The bits of round `ir`'s constant, put together. */
  lemma ConstantWord(n: nat, ir: nat)
    requires n == Bit01(Keccak.Rc(7 * ir))
             + 2 * (Bit01(Keccak.Rc(1 + 7 * ir))
               + 4 * (Bit01(Keccak.Rc(2 + 7 * ir)) + 16 * (Bit01(Keccak.Rc(3 + 7 * ir))
                  + 256 * (Bit01(Keccak.Rc(4 + 7 * ir))
                    + 0x1_0000 * (Bit01(Keccak.Rc(5 + 7 * ir)) + 0x1_0000_0000 * Bit01(Keccak.Rc(6 + 7 * ir)))))))
    ensures WordOf(n) == Keccak.Constant(ir)
  {
    hide Slice, Keccak.Rc, Bit01;
    forall z | 0 <= z < 64
      ensures WordOf(n)[z] == Keccak.Constant(ir)[z]
    {
      SparseWord(n, Keccak.Rc(7 * ir), Keccak.Rc(1 + 7 * ir), Keccak.Rc(2 + 7 * ir), Keccak.Rc(3 + 7 * ir),
                 Keccak.Rc(4 + 7 * ir), Keccak.Rc(5 + 7 * ir), Keccak.Rc(6 + 7 * ir), z);
    }
  }

  /** The table's constants are what Algorithm 5 generates for rounds 12 to 23. */
  lemma ConstantsAreGenerated(round: nat)
    requires round < 12
    ensures WordOf(RoundConstant(round)) == Keccak.Constant(12 + round)
  {
    hide Keccak.Rc, Keccak.Constant, WordOf;
    if round == 0 {
      Rc12();
    } else if round == 1 {
      Rc13();
    } else if round == 2 {
      Rc14();
    } else if round == 3 {
      Rc15();
    } else if round == 4 {
      Rc16();
    } else if round == 5 {
      Rc17();
    } else if round == 6 {
      Rc18();
    } else if round == 7 {
      Rc19();
    } else if round == 8 {
      Rc20();
    } else if round == 9 {
      Rc21();
    } else if round == 10 {
      Rc22();
    } else {
      Rc23();
    }
    ConstantWord(RoundConstant(round), 12 + round);
  }
}
