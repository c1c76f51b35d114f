/** Sampling from the centred binomial distribution (`src/sample.rs`, and the vector forms of it). */
module Cbd {
  import opened Words
  import opened Congruence
  import opened Bits
  import opened Positional
  import opened Ser
  import opened SerFast
  import opened Fields
  import opened RingMul

  // -------------------------------------------------------------------------------------------
  // What is sampled
  // -------------------------------------------------------------------------------------------

  /** How many of the low `n` bits of `x` are set. */
  function Weight(x: nat, n: nat): (r: nat)
    ensures r <= n
  {
    if n == 0 then 0 else x % 2 + Weight(x / 2, n - 1)
  }

  /** The set bits of the low half of a `2 * h`-bit field, less those of its high half. */
  function Balance(d: nat, h: nat): (r: int)
    ensures -(h as int) <= r <= h
  {
    Weight(Slice(d, 0, h), h) - Weight(Slice(d, h, h), h)
  }

  /** The element the bytes sample, as wrapping words. */
  function CbdElem(mu: nat, buf: Bytes): (e: Elem)
    requires mu <= 16
  {
    seq(256, c requires 0 <= c < 256 => WrapU16(Balance(Unpack(mu, 256, buf)[c], mu / 2)))
  }

  /** Bits `from .. from + n` of the string that are set. */
  function Ones(bytes: Bytes, from: nat, n: nat): nat
    requires from + n <= 8 * |bytes|
    decreases n
  {
    if n == 0 then 0 else Bit(bytes, from) + Ones(bytes, from + 1, n - 1)
  }

  lemma SliceSplit(x: nat, pos: nat, n: nat)
    requires n > 0
    ensures Slice(x, pos, n) % 2 == Slice(x, pos, 1) && Slice(x, pos, n) / 2 == Slice(x, pos + 1, n - 1)
  {
    var y := Slice(x, pos, n);
    SliceOfSlice(x, pos, n, 0, 1);
    SliceOfSlice(x, pos, n, 1, n - 1);
    assert Pow2(0) == 1 && Pow2(1) == 2 && Pow2(n) == 2 * Pow2(n - 1);
    hide Pow2;
    SmallMod(y / 2, Pow2(n - 1));
  }

  lemma SmallMod(y: nat, p: nat)
    requires y < p
    ensures y % p == y
  {
  }

  lemma {:induction false} WeightIsOnes(bytes: Bytes, pos: nat, n: nat)
    requires pos + n <= 8 * |bytes|
    ensures Weight(Slice(Num(256, bytes), pos, n), n) == Ones(bytes, pos, n)
    decreases n
  {
    hide Slice, Num;
    if n > 0 {
      SliceSplit(Num(256, bytes), pos, n);
      BitIsSlice(bytes, pos);
      WeightIsOnes(bytes, pos + 1, n - 1);
    }
  }

  /** The bit-by-bit definition: coefficient `c` counts the bits of `[c * mu, c * mu + mu / 2)` and
      takes away those of the next `mu / 2`. */
  lemma CbdIsBitCount(mu: nat, buf: Bytes, c: nat, pos: nat)
    requires mu <= 16 && mu % 2 == 0 && |buf| == 32 * mu && c < 256 && pos == mu * c
    ensures pos + mu <= 8 * |buf|
    ensures CbdElem(mu, buf)[c] == WrapU16(Ones(buf, pos, mu / 2) - Ones(buf, pos + mu / 2, mu / 2))
  {
    hide *;
    var h := mu / 2;
    CbdAt(mu, buf, c);
    FieldEnds(mu, c, pos);
    UnpackAt(mu, 256, buf, c, pos);
    BalanceOfSlice(Num(256, buf), pos, mu, h);
    WeightIsOnes(buf, pos, h);
    WeightIsOnes(buf, pos + h, h);
  }

  lemma CbdAt(mu: nat, buf: Bytes, c: nat)
    requires mu <= 16 && c < 256
    ensures CbdElem(mu, buf)[c] == WrapU16(Balance(Unpack(mu, 256, buf)[c], mu / 2))
  {
    hide Balance, Unpack, WrapU16;
  }

  lemma FieldEnds(mu: nat, c: nat, pos: nat)
    requires c < 256 && pos == mu * c
    ensures pos + mu <= 256 * mu
  {
    MulMono(c + 1, 256, mu);
  }

  lemma BalanceOfSlice(x: nat, pos: nat, w: nat, h: nat)
    requires w == 2 * h
    ensures Balance(Slice(x, pos, w), h) == Weight(Slice(x, pos, h), h) - Weight(Slice(x, pos + h, h), h)
  {
    hide Slice, Weight;
    SliceOfSlice(x, pos, w, 0, h);
    SliceOfSlice(x, pos, w, h, h);
  }

  /** Every coefficient, read as signed, is within what `from_secret` requires. */
  lemma CbdRange(mu: nat, buf: Bytes, c: nat)
    requires mu <= 16 && c < 256
    ensures -(mu / 2) <= Signed(CbdElem(mu, buf))[c] <= mu / 2
  {
    hide Balance, Unpack;
    var d := Balance(Unpack(mu, 256, buf)[c], mu / 2);
    assert Signed(CbdElem(mu, buf))[c] == Wrap16(WrapU16(d));
    SignedWord(d);
  }

  lemma SignedWord(d: int)
    requires -0x8000 <= d < 0x8000
    ensures Wrap16(WrapU16(d)) == d
  {
  }

  // -------------------------------------------------------------------------------------------
  // Population counts
  // -------------------------------------------------------------------------------------------

  /** `popcount_u8`. */
  function Popcount8(x: u8): nat {
    var y := BitAnd(x, 0x55) + BitAnd(x / 2, 0x55);
    var z := BitAnd(y, 0x33) + BitAnd(y / 4, 0x33);
    BitAnd(z, 0x0F) + z / 16
  }

  /** `popcount_u16`. */
  function Popcount16(x: u16): nat {
    Popcount8(x % 256) + Popcount8(x / 256)
  }

  function And16(x: u16, mask: u16): (r: u16) {
    AndShrinks(x, mask);
    BitAnd(x, mask)
  }

  lemma {:induction false} AndShrinks(x: nat, y: nat)
    ensures BitAnd(x, y) <= x
  {
    if x == 0 {
      AndZero(y);
      AndComm(0, y);
    } else {
      AndShrinks(x / 2, y / 2);
    }
  }

  /** `cbd_diff`. */
  function CbdDiff(raw: u16, h: nat): u16
    requires h <= 8
  {
    Pow2Mono(h, 8);
    Pow2Values();
    ShrShrinks(raw, h);
    var mask := Pow2(h) - 1;
    WrapU16(Popcount16(And16(raw, mask)) as int - Popcount16(And16(Shr(raw, h), mask)))
  }

  /** `&` works bit by bit. */
  lemma AndBit(b: nat, y: nat, c: nat, n: nat, x: nat, m: nat)
    requires b < 2 && c < 2 && x == b + 2 * y && m == c + 2 * n
    ensures BitAnd(x, m) == (if b == 1 && c == 1 then 1 else 0) + 2 * BitAnd(y, n)
  {
    Evens(b, y);
    Evens(c, n);
    if x == 0 && m == 0 { assert BitAnd(0, 0) == 0; }
  }

  lemma Evens(b: nat, y: nat)
    requires b < 2
    ensures (b + 2 * y) % 2 == b && (b + 2 * y) / 2 == y
  {
  }

  lemma And55(b0: nat, b1: nat, b2: nat, b3: nat, b4: nat, b5: nat, b6: nat, b7: nat)
    requires b0 < 2 && b1 < 2 && b2 < 2 && b3 < 2 && b4 < 2 && b5 < 2 && b6 < 2 && b7 < 2
    ensures BitAnd(b0 + 2 * b1 + 4 * b2 + 8 * b3 + 16 * b4 + 32 * b5 + 64 * b6 + 128 * b7, 0x55)
            == b0 + 4 * b2 + 16 * b4 + 64 * b6
  {
    hide BitAnd;
    var t6 := b6 + 2 * b7;
    var t5 := b5 + 2 * t6;
    var t4 := b4 + 2 * t5;
    var t3 := b3 + 2 * t4;
    var t2 := b2 + 2 * t3;
    var t1 := b1 + 2 * t2;
    AndZero(b7);
    AndBit(b6, b7, 1, 0, t6, 1);
    AndBit(b5, t6, 0, 1, t5, 2);
    AndBit(b4, t5, 1, 2, t4, 5);
    AndBit(b3, t4, 0, 5, t3, 10);
    AndBit(b2, t3, 1, 10, t2, 0x15);
    AndBit(b1, t2, 0, 0x15, t1, 0x2A);
    AndBit(b0, t1, 1, 0x2A, b0 + 2 * t1, 0x55);
  }

  /** A two-bit field under a mask that keeps or drops it whole. */
  lemma AndField(p: nat, h: nat, keep: bool, n: nat, x: nat, m: nat)
    requires p < 4 && x == p + 4 * h && m == (if keep then 3 else 0) + 4 * n
    ensures BitAnd(x, m) == (if keep then p else 0) + 4 * BitAnd(h, n)
  {
    hide BitAnd;
    var c, b0, b1 := if keep then 1 else 0, if p == 1 || p == 3 then 1 else 0, if p >= 2 then 1 else 0;
    AndBit(b1, h, c, n, b1 + 2 * h, c + 2 * n);
    AndBit(b0, b1 + 2 * h, c, c + 2 * n, x, m);
  }

  lemma And33(p0: nat, p1: nat, p2: nat, p3: nat)
    requires p0 < 4 && p1 < 4 && p2 < 4 && p3 < 4
    ensures BitAnd(p0 + 4 * p1 + 16 * p2 + 64 * p3, 0x33) == p0 + 16 * p2
  {
    hide BitAnd;
    var t2 := p2 + 4 * p3;
    var t1 := p1 + 4 * t2;
    AndZero(p3);
    AndField(p2, p3, true, 0, t2, 3);
    AndField(p1, t2, false, 3, t1, 12);
    AndField(p0, t1, true, 12, p0 + 4 * t1, 0x33);
  }

  /** Summing adjacent fields three times counts the bits. */
  lemma Popcount8Bits(b0: nat, b1: nat, b2: nat, b3: nat, b4: nat, b5: nat, b6: nat, b7: nat, x: u8)
    requires b0 < 2 && b1 < 2 && b2 < 2 && b3 < 2 && b4 < 2 && b5 < 2 && b6 < 2 && b7 < 2
    requires x == b0 + 2 * b1 + 4 * b2 + 8 * b3 + 16 * b4 + 32 * b5 + 64 * b6 + 128 * b7
    ensures Popcount8(x) == b0 + b1 + b2 + b3 + b4 + b5 + b6 + b7
  {
    hide BitAnd;
    And55(b0, b1, b2, b3, b4, b5, b6, b7);
    And55(b1, b2, b3, b4, b5, b6, b7, 0);
    Evens(b0, b1 + 2 * b2 + 4 * b3 + 8 * b4 + 16 * b5 + 32 * b6 + 64 * b7);
    PairSums(b0 + b1, b2 + b3, b4 + b5, b6 + b7);
  }

  lemma PairSums(p0: nat, p1: nat, p2: nat, p3: nat)
    requires p0 < 3 && p1 < 3 && p2 < 3 && p3 < 3
    ensures var y := p0 + 4 * p1 + 16 * p2 + 64 * p3;
            var z := BitAnd(y, 0x33) + BitAnd(y / 4, 0x33);
            BitAnd(z, 0x0F) + z / 16 == p0 + p1 + p2 + p3
  {
    hide BitAnd;
    And33(p0, p1, p2, p3);
    And33(p1, p2, p3, 0);
    And0F(p0 + p1, p2 + p3);
    assert (p0 + 4 * p1 + 16 * p2 + 64 * p3) / 4 == p1 + 4 * p2 + 16 * p3;
  }

  lemma And0F(a: nat, b: nat)
    requires a < 16
    ensures BitAnd(a + 16 * b, 0x0F) == a
  {
    Pow2Values();
    hide BitAnd, Pow2;
    AndIsMod(a + 16 * b, 4);
  }

  lemma Peel(x: nat, n: nat) returns (b: nat, y: nat)
    requires n > 0
    ensures b < 2 && x == b + 2 * y && Weight(x, n) == b + Weight(y, n - 1)
  {
    b, y := x % 2, x / 2;
  }

  lemma PeelFour(x: nat, n: nat) returns (b0: nat, b1: nat, b2: nat, b3: nat, y: nat)
    requires n >= 4
    ensures b0 < 2 && b1 < 2 && b2 < 2 && b3 < 2 && x == b0 + 2 * b1 + 4 * b2 + 8 * b3 + 16 * y
    ensures Weight(x, n) == b0 + b1 + b2 + b3 + Weight(y, n - 4)
  {
    hide Weight;
    var x1, x2, x3;
    b0, x1 := Peel(x, n);
    b1, x2 := Peel(x1, n - 1);
    b2, x3 := Peel(x2, n - 2);
    b3, y := Peel(x3, n - 3);
  }

  lemma Popcount8IsWeight(x: u8)
    ensures Popcount8(x) == Weight(x, 8)
  {
    assert Weight(0, 0) == 0;
    hide *;
    var b0, b1, b2, b3, y := PeelFour(x, 8);
    var b4, b5, b6, b7, z := PeelFour(y, 4);
    assert z == 0;
    Popcount8Bits(b0, b1, b2, b3, b4, b5, b6, b7, x);
  }

  lemma {:induction false} WeightSplit(x: nat, n: nat, m: nat)
    ensures Weight(x, n + m) == Weight(Low(n, x), n) + Weight(Shr(x, n), m)
  {
    if n == 0 {
      assert Pow2(0) == 1;
    } else {
      WeightSplit(x / 2, n - 1, m);
      SplitLow(x, n);
      hide Low, Shr;
    }
  }

  lemma SplitLow(x: nat, n: nat)
    requires n > 0
    ensures Low(n, x) % 2 == x % 2 && Low(n, x) / 2 == Low(n - 1, x / 2) && Shr(x, n) == Shr(x / 2, n - 1)
  {
    ModHalf(x, Pow2(n - 1));
    DivDiv(x, 2, Pow2(n - 1));
    assert Pow2(n) == 2 * Pow2(n - 1);
    hide Pow2;
    Evens(x % 2, Low(n - 1, x / 2));
  }

  lemma {:induction false} WeightOfZero(n: nat)
    ensures Weight(0, n) == 0
  {
    if n > 0 { WeightOfZero(n - 1); }
  }

  lemma Popcount16IsWeight(x: u16)
    ensures Popcount16(x) == Weight(x, 16)
  {
    Popcount8IsWeight(x % 256);
    Popcount8IsWeight(x / 256);
    WeightSplit(x, 8, 8);
    Pow2Values();
    hide Weight, Popcount8, Pow2;
  }

  /** Bits above a small value's width add nothing. */
  lemma WeightWiden(x: nat, n: nat, m: nat)
    requires x < Pow2(n) && n <= m
    ensures Weight(x, m) == Weight(x, n)
  {
    WeightSplit(x, n, m - n);
    DivUnique(x, Pow2(n), 0, x);
    hide Weight, Pow2;
    WeightOfZero(m - n);
  }

  /** `cbd_diff` samples the low `2 * h` bits of its argument, whatever is above them. */
  lemma CbdDiffIs(raw: u16, h: nat, d: nat)
    requires h <= 8 && d == Slice(raw, 0, 2 * h)
    ensures CbdDiff(raw, h) == WrapU16(Balance(d, h))
  {
    hide *;
    CbdDiffSlices(raw, h);
    BalanceOfSlice(raw, 0, 2 * h, h);
    HalfCount(Slice(raw, 0, h), h);
    HalfCount(Slice(raw, h, h), h);
  }

  lemma CbdDiffSlices(raw: u16, h: nat)
    requires h <= 8
    ensures Slice(raw, 0, h) < 256 && Slice(raw, h, h) < 256
    ensures CbdDiff(raw, h) == WrapU16(Popcount16(Slice(raw, 0, h)) - Popcount16(Slice(raw, h, h)))
  {
    Pow2Mono(h, 8);
    Pow2Values();
    assert raw / 1 == raw;
    hide BitAnd, Pow2, Popcount16, WrapU16;
    AndIsMod(raw, h);
    AndIsMod(Shr(raw, h), h);
  }

  lemma HalfCount(x: nat, h: nat)
    requires h <= 8 && x < Pow2(h) && x < 256
    ensures Popcount16(x) == Weight(x, h)
  {
    hide *;
    Popcount16IsWeight(x);
    WeightWiden(x, h, 16);
  }

  // -------------------------------------------------------------------------------------------
  // `cbd`
  // -------------------------------------------------------------------------------------------

  /** `(b0 | (b1 << 8)) >> s`. */
  function Raw2(b0: u8, b1: u8, s: nat): (r: u16)
    requires s <= 8
  {
    JoinBytes(b0, b1);
    ShrShrinks(b0 + 256 * b1, s);
    Shr(BitOr(b0, Shl16(b1, 8)), s)
  }

  lemma JoinBytes(b0: u8, b1: u8)
    ensures BitOr(b0, Shl16(b1, 8)) == b0 + 256 * b1
  {
    Pow2Values();
    hide *;
    Whole(b0, 8, 8, b1);
  }

  /** Shifting a window down brings its field to the bottom. */
  lemma ShiftedSlice(x: nat, s: nat, w: nat)
    ensures Slice(Shr(x, s), 0, w) == Slice(x, s, w)
  {
    assert Pow2(0) == 1;
    var y := Shr(x, s);
    assert y / 1 == y;
  }

  /** What the coefficient at bit `8 * o + s` samples, from the two bytes it lies in. */
  lemma FromTwoBytes(mu: nat, buf: Bytes, c: nat, o: nat, s: nat)
    requires mu <= 16 && mu % 2 == 0 && c < 256 && mu * c == 8 * o + s && s + mu <= 16 && s <= 8 && o + 2 <= |buf|
    ensures CbdDiff(Raw2(buf[o], buf[o + 1], s), mu / 2) == CbdElem(mu, buf)[c]
  {
    hide *;
    NumPair(buf, o);
    UnpackAt(mu, 256, buf, c, 8 * o + s);
    SliceInWindow(buf, o, s, mu, 2);
    RawSlice(buf[o], buf[o + 1], s, mu);
    CbdAt(mu, buf, c);
    CbdDiffIs(Raw2(buf[o], buf[o + 1], s), mu / 2, Unpack(mu, 256, buf)[c]);
  }

  lemma NumPair(buf: Bytes, o: nat)
    requires o + 2 <= |buf|
    ensures Num(256, buf[o..o + 2]) == buf[o] as int + 256 * (buf[o + 1] as int)
  {
    var ds: seq<nat> := buf[o..o + 2];
    assert ds[1..] == [ds[1]];
    assert Num(256, [ds[1]]) == ds[1];
  }

  lemma NumOne(buf: Bytes, o: nat)
    requires o < |buf|
    ensures Num(256, buf[o..o + 1]) == buf[o]
  {
    assert buf[o..o + 1] == [buf[o]];
  }

  lemma RawSlice(b0: u8, b1: u8, s: nat, w: nat)
    requires s <= 8
    ensures Slice(Raw2(b0, b1, s), 0, w) == Slice(b0 + 256 * b1, s, w)
  {
    JoinBytes(b0, b1);
    hide Shr, Slice, BitOr, Shl16;
    ShiftedSlice(b0 + 256 * b1, s, w);
  }

  /** The same when one byte holds it all. */
  lemma FromOneByte(mu: nat, buf: Bytes, c: nat, o: nat, s: nat)
    requires mu <= 16 && mu % 2 == 0 && c < 256 && mu * c == 8 * o + s && s + mu <= 8 && o < |buf|
    ensures Shr(buf[o], s) <= buf[o] && CbdDiff(Shr(buf[o], s), mu / 2) == CbdElem(mu, buf)[c]
  {
    hide *;
    NumOne(buf, o);
    ShrShrinks(buf[o], s);
    UnpackAt(mu, 256, buf, c, 8 * o + s);
    SliceInWindow(buf, o, s, mu, 1);
    ShiftedSlice(buf[o], s, mu);
    CbdAt(mu, buf, c);
    CbdDiffIs(Shr(buf[o], s), mu / 2, Unpack(mu, 256, buf)[c]);
  }

  /** The `mu = 8` arm's coefficient. */
  function NibbleDiff(b: u8): u16 {
    Nibbles(b);
    var lo: int, hi: int := Popcount8(BitAnd(b, 0x0F)), Popcount8(b / 16);
    WrapU16(lo - hi)
  }

  lemma NibbleDiffIs(b: u8)
    ensures NibbleDiff(b) == WrapU16(Popcount8(b % 16) - Popcount8(b / 16))
  {
    Nibbles(b);
    hide Popcount8, WrapU16;
  }

  /** The two nibbles of a byte. */
  lemma FromNibbles(buf: Bytes, c: nat)
    requires c < 256 && |buf| == 256
    ensures NibbleDiff(buf[c]) == CbdElem(8, buf)[c]
  {
    hide *;
    var b := buf[c];
    NumOne(buf, c);
    CbdAt(8, buf, c);
    UnpackAt(8, 256, buf, c, 8 * c);
    SliceInWindow(buf, c, 0, 8, 1);
    BalanceOfSlice(b, 0, 8, 4);
    NibbleBalance(b);
  }

  lemma NibbleBalance(b: u8)
    ensures NibbleDiff(b) == WrapU16(Weight(Slice(b, 0, 4), 4) - Weight(Slice(b, 4, 4), 4))
  {
    NibbleDiffIs(b);
    Nibbles(b);
    hide *;
    NibbleCount(b % 16);
    NibbleCount(b / 16);
  }

  lemma Nibbles(b: u8)
    ensures BitAnd(b, 0x0F) == b % 16 && Slice(b, 0, 4) == b % 16 && Slice(b, 4, 4) == b / 16
  {
    Pow2Values();
    assert b as int / 1 == b;
    hide BitAnd, Pow2;
    AndIsMod(b, 4);
  }

  lemma NibbleCount(x: nat)
    requires x < 16
    ensures Popcount8(x) == Weight(x, 4)
  {
    Pow2Values();
    hide *;
    Popcount8IsWeight(x);
    WeightWiden(x, 4, 8);
  }

  method Cbd8(buf: Bytes, out: array<u16>)
    requires |buf| == 256 && out.Length == 256
    modifies out
    ensures out[..] == CbdElem(8, buf)
  {
    ghost var e := CbdElem(8, buf);
    hide *;
    for i := 0 to 256
      invariant forall c :: 0 <= c < i ==> out[c] == e[c]
    {
      FromNibbles(buf, i);
      out[i] := NibbleDiff(buf[i]);
    }
  }

  /** The four coefficients of a 5-byte group: coefficient `k` starts at bit `10 * k`. */
  function Samples10(buf: Bytes, i: nat): (c: seq<u16>)
    requires i + 5 <= |buf|
    ensures |c| == 4
  {
    [CbdDiff(Raw2(buf[i], buf[i + 1], 0), 5), CbdDiff(Raw2(buf[i + 1], buf[i + 2], 2), 5),
     CbdDiff(Raw2(buf[i + 2], buf[i + 3], 4), 5), CbdDiff(Raw2(buf[i + 3], buf[i + 4], 6), 5)]
  }

  lemma Samples10Are(buf: Bytes, o: nat, i: nat)
    requires |buf| == 320 && o + 4 <= 256 && 4 * i == 5 * o && i + 5 <= 320
    ensures Samples10(buf, i) == CbdElem(10, buf)[o..o + 4]
  {
    hide CbdDiff, Raw2, CbdElem;
    FromTwoBytes(10, buf, o, i, 0);
    FromTwoBytes(10, buf, o + 1, i + 1, 2);
    FromTwoBytes(10, buf, o + 2, i + 2, 4);
    FromTwoBytes(10, buf, o + 3, i + 3, 6);
  }

  /** The four coefficients of a 3-byte group: coefficient `k` starts at bit `6 * k`. */
  function Samples6(buf: Bytes, i: nat): (c: seq<u16>)
    requires i + 3 <= |buf|
    ensures |c| == 4
  {
    ShrShrinks(buf[i + 2], 2);
    [CbdDiff(buf[i], 3), CbdDiff(Raw2(buf[i], buf[i + 1], 6), 3),
     CbdDiff(Raw2(buf[i + 1], buf[i + 2], 4), 3), CbdDiff(Shr(buf[i + 2], 2), 3)]
  }

  lemma ShrZero(x: nat)
    ensures Shr(x, 0) == x
  {
    assert Pow2(0) == 1;
    assert x / 1 == x;
  }

  lemma Samples6Are(buf: Bytes, o: nat, i: nat)
    requires |buf| == 192 && o + 4 <= 256 && 4 * i == 3 * o && i + 3 <= 192
    ensures Samples6(buf, i) == CbdElem(6, buf)[o..o + 4]
  {
    hide CbdDiff, Raw2, CbdElem, Shr;
    ShrZero(buf[i]);
    FromOneByte(6, buf, o, i, 0);
    FromTwoBytes(6, buf, o + 1, i, 6);
    FromTwoBytes(6, buf, o + 2, i + 1, 4);
    FromOneByte(6, buf, o + 3, i + 2, 2);
  }

  /** The assignments to `out[o]`, `out[o + 1]` and so on. */
  method StoreSamples(out: array<u16>, o: nat, c: seq<u16>)
    requires o + |c| <= out.Length
    modifies out
    ensures out[..o + |c|] == old(out[..o]) + c
  {
    ghost var was := out[..o];
    for i := 0 to |c|
      invariant out[..o] == was
      invariant forall j :: 0 <= j < i ==> out[o + j] == c[j]
    {
      out[o + i] := c[i];
    }
  }

  method Cbd10(buf: Bytes, out: array<u16>)
    requires |buf| == 320 && out.Length == 256
    modifies out
    ensures out[..] == CbdElem(10, buf)
  {
    ghost var e := CbdElem(10, buf);
    hide *;
    for g := 0 to 64
      invariant out[..4 * g] == e[..4 * g]
    {
      Group10(buf, out, 4 * g, 5 * g, e);
    }
    assert out[..] == out[..256] && e == e[..256];
  }

  /** One turn of the loop. */
  method Group10(buf: Bytes, out: array<u16>, o: nat, i: nat, ghost e: Elem)
    requires |buf| == 320 && out.Length == 256 && o + 4 <= 256 && 4 * i == 5 * o && i + 5 <= 320
    requires e == CbdElem(10, buf) && out[..o] == e[..o]
    modifies out
    ensures out[..o + 4] == e[..o + 4]
  {
    hide *;
    Samples10Are(buf, o, i);
    StoreSamples(out, o, Samples10(buf, i));
    assert e[..o + 4] == e[..o] + e[o..o + 4];
  }

  method Cbd6(buf: Bytes, out: array<u16>)
    requires |buf| == 192 && out.Length == 256
    modifies out
    ensures out[..] == CbdElem(6, buf)
  {
    ghost var e := CbdElem(6, buf);
    hide *;
    for g := 0 to 64
      invariant out[..4 * g] == e[..4 * g]
    {
      Group6(buf, out, 4 * g, 3 * g, e);
    }
    assert out[..] == out[..256] && e == e[..256];
  }

  /** One turn of the loop. */
  method Group6(buf: Bytes, out: array<u16>, o: nat, i: nat, ghost e: Elem)
    requires |buf| == 192 && out.Length == 256 && o + 4 <= 256 && 4 * i == 3 * o && i + 3 <= 192
    requires e == CbdElem(6, buf) && out[..o] == e[..o]
    modifies out
    ensures out[..o + 4] == e[..o + 4]
  {
    hide *;
    Samples6Are(buf, o, i);
    StoreSamples(out, o, Samples6(buf, i));
    assert e[..o + 4] == e[..o] + e[o..o + 4];
  }

  /** `cbd`, for the three values of `mu` it accepts. */
  method Cbd(mu: nat, buf: Bytes, out: array<u16>)
    requires (mu == 6 || mu == 8 || mu == 10) && |buf| == 256 * mu / 8 && out.Length == 256
    modifies out
    ensures out[..] == CbdElem(mu, buf)
  {
    hide *;
    if mu == 8 {
      Cbd8(buf, out);
    } else if mu == 10 {
      Cbd10(buf, out);
    } else {
      Cbd6(buf, out);
    }
  }
}
