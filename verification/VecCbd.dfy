/** The AVX2 and NEON binomial samplers: unpack the fields, then count the bits of their halves lane by
    lane. */
module VecCbd {
  import opened Words
  import opened Bits
  import opened Ser
  import opened Fields
  import opened RingMul
  import opened FusedKeccak
  import opened Cbd
  import VecSer

  /** Bit counts of the values below 16, once for each half of a register. */
  const NIBBLE_POPCOUNT: seq<u8> := [0, 1, 1, 2, 1, 2, 2, 3, 1, 2, 2, 3, 2, 3, 3, 4, 0, 1, 1, 2, 1, 2, 2, 3, 1, 2, 2, 3,
    2, 3, 3, 4]

  /** `vpshufb`, one byte: the table entry of its own half that the index byte names, or zero when the
      index has its high bit set. */
  function LookUp(half: nat, index: u8): u8
    requires half < 2
  {
    if index >= 0x80 then 0 else NIBBLE_POPCOUNT[16 * half + index % 16]
  }

  /** `popcount_small` on lane `l`: AVX2 looks the low nibble up and adds bit 4, NEON counts each byte
      of the lane. */
  function PopcountSmall(arch: Arch, l: nat, x: u16): (r: u16)
    requires l < 16
  {
    match arch
    case Avx2 =>
      var nibble := And16(x, 0x000F);
      var low := LookUp(l / 8, nibble % 256) + 256 * LookUp(l / 8, nibble / 256);
      WrapU16(low + And16(x / 16, 1))
    case Neon =>
      Weight(x % 256, 8) + 256 * Weight(x / 256, 8)
  }

  function FourOnes(x: nat): nat {
    x % 2 + (x / 2 % 2 + (x / 2 / 2 % 2 + x / 2 / 2 / 2 % 2))
  }

  /** The table's entries are what they should be. */
  lemma NibbleCount(half: nat, x: u8)
    requires half < 2 && x < 16
    ensures LookUp(half, x) == Weight(x, 4)
  {
    WeightFour(x);
    if x < 8 { LowNibbles(x); } else { HighNibbles(x); }
    TableEntry(half, x);
    hide *;
  }

  lemma TableEntry(half: nat, x: u8)
    requires half < 2 && x < 16
    ensures LookUp(half, x) == if half == 0 then NIBBLE_POPCOUNT[x] else NIBBLE_POPCOUNT[16 + x]
  {
    hide NIBBLE_POPCOUNT;
    assert x % 16 == x;
  }

  lemma WeightFour(x: nat)
    ensures Weight(x, 4) == FourOnes(x)
  {
    var y := x / 2;
    var z := y / 2;
    WeightStep(x, 4);
    WeightStep(y, 3);
    WeightStep(z, 2);
    WeightStep(z / 2, 1);
    WeightStep(z / 2 / 2, 0);
    hide Weight;
  }

  lemma WeightStep(x: nat, n: nat)
    ensures Weight(x, n) == if n == 0 then 0 else x % 2 + Weight(x / 2, n - 1)
  {
  }

  lemma LowNibbles(x: nat)
    requires x < 8
    ensures NIBBLE_POPCOUNT[x] == NIBBLE_POPCOUNT[16 + x] == FourOnes(x)
  {
    if x < 4 {
      if x == 0 { } else if x == 1 { } else if x == 2 { } else { }
    } else {
      if x == 4 { } else if x == 5 { } else if x == 6 { } else { }
    }
  }

  lemma HighNibbles(x: nat)
    requires 8 <= x < 16
    ensures NIBBLE_POPCOUNT[x] == NIBBLE_POPCOUNT[16 + x] == FourOnes(x)
  {
    if x < 12 {
      if x == 8 { } else if x == 9 { } else if x == 10 { } else { }
    } else {
      if x == 12 { } else if x == 13 { } else if x == 14 { } else { }
    }
  }

  /** The five-bit count: the table and bit 4. */
  lemma TableCount(l: nat, x: u16)
    requires l < 16 && x < 32
    ensures PopcountSmall(Arch.Avx2, l, x) == Weight(x, 5)
  {
    var n, half := x % 16, l / 8;
    NibbleCount(half, n);
    NibbleCount(half, 0);
    FiveBits(x);
    NibbleMask(x);
    BitMask(x / 16);
    hide And16, Weight, LookUp;
    assert n % 256 == n && n / 256 == 0;
  }

  lemma FiveBits(x: nat)
    requires x < 32
    ensures Weight(0, 4) == 0 && Weight(x, 5) == Weight(x % 16, 4) + x / 16
  {
    Pow2Values();
    WeightOfZero(4);
    WeightSplit(x, 4, 1);
    WeightOne(x / 16);
    hide Weight, Pow2;
  }

  lemma NibbleMask(x: u16)
    ensures And16(x, 0x000F) == x % 16
  {
    Pow2Values();
    hide BitAnd, Pow2;
    AndIsMod(x, 4);
  }

  lemma BitMask(x: u16)
    ensures And16(x, 1) == x % 2
  {
    Pow2Values();
    hide BitAnd, Pow2;
    AndIsMod(x, 1);
  }

  lemma WeightOne(x: nat)
    ensures Weight(x, 1) == x % 2
  {
    assert Weight(x / 2, 0) == 0;
  }

  /** Each backend counts every value its callers can hold: below 32 on AVX2, below 256 on NEON. */
  lemma PopcountSmallIsWeight(arch: Arch, l: nat, x: u16, h: nat)
    requires l < 16 && x < Pow2(h) && h <= (if arch.Avx2? then 5 else 8)
    ensures PopcountSmall(arch, l, x) == Weight(x, h)
  {
    Pow2Values();
    hide *;
    if arch.Avx2? {
      Pow2Mono(h, 5);
      TableCount(l, x);
      WeightWiden(x, h, 5);
    } else {
      Pow2Mono(h, 8);
      ByteCount(l, x);
      WeightWiden(x, h, 8);
    }
  }

  lemma ByteCount(l: nat, x: u16)
    requires l < 16 && x < 256
    ensures PopcountSmall(Arch.Neon, l, x) == Weight(x, 8)
  {
    WeightOfZero(8);
    hide Weight;
    assert x % 256 == x && x / 256 == 0;
  }

  /** A logical right shift by a register's count, which NEON takes negated from the low byte of the
      lane. */
  function ShiftDown(arch: Arch, x: u16, h: nat): (r: u16)
    requires h < 16
  {
    match arch
    case Avx2 => Srl(x, h)
    case Neon => Ushl(x, WrapU16(0 - h))
  }

  function Srl(x: u16, count: nat): (r: u16) {
    if count >= 16 then 0 else
      ShrShrinks(x, count);
      Shr(x, count)
  }

  function Ushl(x: u16, lane: u16): (r: u16) {
    var count: int := if lane % 256 < 128 then lane % 256 else lane % 256 - 256;
    if count >= 16 || count <= -16 then 0
    else if count < 0 then Srl(x, 0 - count)
    else WrapU16(x * Pow2(count))
  }

  lemma ShiftDownIs(arch: Arch, x: u16, h: nat)
    requires h < 16
    ensures ShiftDown(arch, x, h) == Shr(x, h)
  {
    hide Shr;
    if h == 0 {
      assert Pow2(0) == 1;
      ShrNone(x);
    } else {
      NegatedByte(h);
    }
  }

  lemma ShrNone(x: u16)
    ensures Shr(x, 0) == x
  {
    assert Pow2(0) == 1;
  }

  lemma NegatedByte(h: nat)
    requires 0 < h < 16
    ensures WrapU16(0 - h) % 256 == 256 - h
  {
    assert WrapU16(0 - h) == 0x1_0000 - h;
  }

  /** One lane of the loop body. */
  function SampleLane(arch: Arch, mu: nat, l: nat, field: u16): u16
    requires l < 16 && mu <= 16
  {
    Pow2Mono(mu / 2, 8);
    Pow2Values();
    var mask := Pow2(mu / 2) - 1;
    var low := And16(field, mask);
    var high := And16(ShiftDown(arch, field, mu / 2), mask);
    WrapU16(PopcountSmall(arch, l, low) as int - PopcountSmall(arch, l, high))
  }

  predicate Fits(arch: Arch, mu: nat) {
    mu % 2 == 0 && 2 <= mu <= if arch.Avx2? then 10 else 13
  }

  lemma SampleLaneIs(arch: Arch, mu: nat, l: nat, d: u16)
    requires l < 16 && Fits(arch, mu)
    ensures SampleLane(arch, mu, l, d) == WrapU16(Balance(d, mu / 2))
  {
    var h := mu / 2;
    Halves(d, h);
    SampleLaneFrom(arch, mu, l, d);
    hide *;
    FitsIs(arch, mu);
    PopcountSmallIsWeight(arch, l, Slice(d, 0, h), h);
    PopcountSmallIsWeight(arch, l, Slice(d, h, h), h);
    BalanceIs(d, h);
  }

  lemma BalanceIs(d: nat, h: nat)
    ensures Balance(d, h) == Weight(Slice(d, 0, h), h) - Weight(Slice(d, h, h), h)
  {
    hide Weight, Slice;
  }

  lemma Halves(d: u16, h: nat)
    requires h <= 8
    ensures Slice(d, 0, h) == d % Pow2(h) < 0x1_0000 && Slice(d, h, h) == Shr(d, h) % Pow2(h) < 0x1_0000
  {
    assert Pow2(0) == 1 && d / 1 == d;
    Masked(d, h);
    ShrShrinks(d, h);
    Masked(Shr(d, h), h);
  }

  lemma SampleLaneFrom(arch: Arch, mu: nat, l: nat, d: u16)
    requires l < 16 && mu <= 16
    ensures Slice(d, 0, mu / 2) < 0x1_0000 && Slice(d, mu / 2, mu / 2) < 0x1_0000
    ensures SampleLane(arch, mu, l, d)
         == WrapU16(PopcountSmall(arch, l, Slice(d, 0, mu / 2)) as int
           - PopcountSmall(arch, l, Slice(d, mu / 2, mu / 2)))
  {
    var h := mu / 2;
    ShiftDownIs(arch, d, h);
    Halves(d, h);
    Masked(d, h);
    Masked(Shr(d, h), h);
    hide And16, Pow2, PopcountSmall, ShiftDown, Shr, Slice;
  }

  lemma Masked(x: u16, h: nat)
    requires h <= 8
    ensures Pow2(h) <= 256 && And16(x, Pow2(h) - 1) == x % Pow2(h)
  {
    Pow2Mono(h, 8);
    Pow2Values();
    hide BitAnd, Pow2;
    AndIsMod(x, h);
  }

  function Width(arch: Arch): (n: nat)
    ensures n == 8 || n == 16
  {
    if arch.Avx2? then 16 else 8
  }

  /** One register of coefficients. */
  method SampleGroup(arch: Arch, mu: nat, fields: seq<u16>, out: array<u16>, at: nat, ghost buf: Bytes)
    requires Fits(arch, mu) && |buf| == 32 * mu && |fields| == 256 && fields == Unpack(mu, 256, buf)
    requires out.Length == 256 && at + Width(arch) <= 256
    requires forall c :: 0 <= c < at ==> out[c] == CbdElem(mu, buf)[c]
    modifies out
    ensures forall c :: 0 <= c < at + Width(arch) ==> out[c] == CbdElem(mu, buf)[c]
  {
    hide *;
    WidthIs(arch);
    FitsIs(arch, mu);
    for l := 0 to Width(arch)
      invariant forall c :: 0 <= c < at + l ==> out[c] == CbdElem(mu, buf)[c]
    {
      CbdAt(mu, buf, at + l);
      SampleLaneIs(arch, mu, l, fields[at + l]);
      out[at + l] := SampleLane(arch, mu, l, fields[at + l]);
    }
  }

  lemma WidthIs(arch: Arch)
    ensures Width(arch) == if arch.Avx2? then 16 else 8
  {
  }

  lemma FitsIs(arch: Arch, mu: nat)
    requires Fits(arch, mu)
    ensures 2 <= mu <= 13 && mu / 2 <= (if arch.Avx2? then 5 else 8)
  {
  }

  /** AVX2's `cbd` and NEON's `cbd_lanes`. */
  method VecCbd(arch: Arch, mu: nat, buf: Bytes) returns (e: Elem)
    requires Fits(arch, mu) && |buf| == 32 * mu
    ensures e == CbdElem(mu, buf)
  {
    hide *;
    FitsIs(arch, mu);
    WidthIs(arch);
    var fields;
    if arch.Avx2? {
      fields := VecSer.Avx2Deserialize(mu, buf);
    } else {
      fields := VecSer.NeonDeserialize(mu, buf);
    }
    var out := new u16[256](_ => 0);
    for i := 0 to 256 / Width(arch)
      invariant forall c :: 0 <= c < i * Width(arch) ==> out[c] == CbdElem(mu, buf)[c]
    {
      SampleGroup(arch, mu, fields, out, i * Width(arch), buf);
    }
    e := out[..];
    assert e == CbdElem(mu, buf);
  }
}
