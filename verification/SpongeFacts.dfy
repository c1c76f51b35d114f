/** What the sponge of `TurboShake` does, without reference to how it is written down: lanes are
    little-endian numbers, padding is message, separator, zeros and a final bit, absorption goes through
    every block, and the stream is what squeezing block after block gives. */
module SpongeFacts {
  import opened Words
  import opened Congruence
  import opened Bits
  import opened Positional
  import opened Ser
  import Fields
  import opened Keccak
  import opened TurboShake

  // -------------------------------------------------------------------------------------------
  // Lanes and bytes
  // -------------------------------------------------------------------------------------------

  /** A lane's bits as binary digits, bit 0 first. */
  function BitsOf(w: Word): (ds: seq<nat>)
    ensures |ds| == 64 && forall z :: 0 <= z < 64 ==> ds[z] == if w[z] then 1 else 0
  {
    seq(64, z requires 0 <= z < 64 => if w[z] then 1 else 0)
  }

  /** Eight binary digits at a time are one digit in base 256. */
  lemma {:induction false} BytesOfBits(ds: seq<nat>, bs: seq<nat>, n: nat)
    requires |ds| == 8 * n && |bs| == n
    requires forall k :: 0 <= k < n ==> bs[k] == Num(2, Eight(ds, k))
    ensures Num(256, bs) == Num(2, ds)
  {
    hide Num;
    if n == 0 {
      NumNone(256, bs);
      NumNone(2, ds);
    } else {
      assert Eight(ds, 0) == ds[..8];
      forall k | 0 <= k < n - 1 ensures bs[1..][k] == Num(2, Eight(ds[8..], k)) {
        EightFrom(ds, k);
      }
      BytesOfBits(ds[8..], bs[1..], n - 1);
      Fields.NumSplit(2, ds, 8);
      assert Power(2, 8) == 256;
      NumFirst(256, bs);
    }
  }

  lemma NumNone(b: nat, ds: seq<nat>)
    requires |ds| == 0
    ensures Num(b, ds) == 0
  {
  }

  lemma NumFirst(b: nat, ds: seq<nat>)
    requires |ds| > 0
    ensures Num(b, ds) == ds[0] + b * Num(b, ds[1..])
  {
  }

  function Eight(ds: seq<nat>, k: nat): (e: seq<nat>)
    requires 8 * k + 8 <= |ds|
    ensures |e| == 8
  {
    ds[8 * k..8 * k + 8]
  }

  lemma EightFrom(ds: seq<nat>, k: nat)
    requires 8 * k + 16 <= |ds|
    ensures Eight(ds[8..], k) == Eight(ds, k + 1)
  {
  }

  /** A lane loaded from eight bytes is the number they spell, least significant byte first. */
  lemma LoadIsLittleEndian(b: Bytes, i: nat)
    requires 8 * i + 8 <= |b|
    ensures Num(2, BitsOf(WordAt(b, i))) == Num(256, b[8 * i..8 * i + 8])
  {
    var ds, bs := BitsOf(WordAt(b, i)), b[8 * i..8 * i + 8];
    forall k | 0 <= k < 8 ensures bs[k] == Num(2, Eight(ds, k)) {
      LoadedByte(b, i, k);
    }
    hide *;
    BytesOfBits(ds, bs, 8);
  }

  lemma LoadedByte(b: Bytes, i: nat, k: nat)
    requires 8 * i + 8 <= |b| && k < 8
    ensures Num(2, Eight(BitsOf(WordAt(b, i)), k)) == b[8 * i + k]
  {
    var x, e: seq<nat> := b[8 * i + k], Eight(BitsOf(WordAt(b, i)), k);
    forall c | 0 <= c < 8 ensures e[c] == Digits(2, 8, x)[c] {
      LoadedBit(b, i, k, c);
      BinaryDigit(x, c);
    }
    assert e == Digits(2, 8, x);
    assert Power(2, 8) == 256;
    hide *;
    NumOfDigits(2, 8, x);
  }

  lemma LoadedBit(b: Bytes, i: nat, k: nat, c: nat)
    requires 8 * i + 8 <= |b| && k < 8 && c < 8
    ensures Eight(BitsOf(WordAt(b, i)), k)[c] == b[8 * i + k] / Pow2(c) % 2
  {
    hide Pow2;
    var z := 8 * k + c;
    assert z / 8 == k && z % 8 == c;
  }

  lemma BinaryDigit(x: nat, c: nat)
    requires c < 8
    ensures Digits(2, 8, x)[c] == x / Pow2(c) % 2
  {
    Fields.DigitAt(2, 8, x, c);
    PowerIsPow2(1, c);
    assert Pow2(1) == 2;
  }

  /** The bytes a lane is stored as. */
  function LaneBytes(w: Word): (b: Bytes)
    ensures |b| == 8 && forall k :: 0 <= k < 8 ==> b[k] == WordByte(w, k)
  {
    seq(8, k requires 0 <= k < 8 => WordByte(w, k))
  }

  /** The eight bytes a lane is stored as spell the number its bits are. */
  lemma StoreIsLittleEndian(w: Word)
    ensures Num(256, LaneBytes(w)) == Num(2, BitsOf(w))
  {
    hide *;
    forall k | 0 <= k < 8 ensures LaneBytes(w)[k] == Num(2, Eight(BitsOf(w), k)) {
      StoredByte(w, k);
    }
    BytesOfBits(BitsOf(w), LaneBytes(w), 8);
  }

  lemma StoredByte(w: Word, k: nat)
    requires k < 8
    ensures WordByte(w, k) == Num(2, Eight(BitsOf(w), k))
  {
    hide Num, BitSum;
    BitSumIsNum(w, 8 * k, 8);
  }

  lemma {:induction false} BitSumIsNum(w: Word, at: nat, n: nat)
    requires at + n <= 64
    ensures BitSum(w, at, n) == Num(2, BitsOf(w)[at..at + n])
    decreases n
  {
    if n > 0 {
      BitSumIsNum(w, at + 1, n - 1);
      assert BitsOf(w)[at..at + n][1..] == BitsOf(w)[at + 1..at + n];
    }
  }

  /** Storing what was loaded gives the eight bytes back: both are the digits of one number. */
  lemma StoreUndoesLoad(b: Bytes, i: nat)
    requires 8 * i + 8 <= |b|
    ensures LaneBytes(WordAt(b, i)) == b[8 * i..8 * i + 8]
  {
    LoadIsLittleEndian(b, i);
    StoreIsLittleEndian(WordAt(b, i));
    hide *;
    SameDigits(LaneBytes(WordAt(b, i)), b[8 * i..8 * i + 8]);
  }

  lemma SameDigits(x: Bytes, y: Bytes)
    requires |x| == |y| && Num(256, x) == Num(256, y)
    ensures x == y
  {
    hide *;
    DigitsOfNum(256, x);
    DigitsOfNum(256, y);
  }

  // -------------------------------------------------------------------------------------------
  // Padding
  // -------------------------------------------------------------------------------------------

  /** Message, separator and zeros, up to the least multiple of the rate that has room for them. */
  lemma PaddingBytes(rate: nat, ds: u8, msg: Bytes)
    requires IsRate(rate)
    ensures var p := Padding(rate, ds, msg);
            && |p| % rate == 0 && |msg| < |p| <= |msg| + rate && p[..|msg|] == msg
            && forall j :: |msg| <= j < |p| ==> p[j] == if j == |msg| then ds else 0
  {
    Fields.ZerosAt((rate - (|msg| + 1) % rate) % rate);
  }

  /** The whole padding of section 2 of RFC 9861, for messages of any length. */
  lemma PaddedBytes(rate: nat, ds: u8, msg: Bytes)
    requires IsRate(rate) && 1 <= ds <= 0x7F
    ensures var p := Padded(rate, ds, msg);
            && |p| % rate == 0 && |msg| < |p| <= |msg| + rate && p[..|msg|] == msg
            && forall j :: |msg| <= j < |p| ==>
              p[j] == (if j == |msg| then ds else 0) + (if j == |p| - 1 then 0x80 else 0)
  {
    PaddingBytes(rate, ds, msg);
    hide Padding;
  }

  // -------------------------------------------------------------------------------------------
  // Absorption
  // -------------------------------------------------------------------------------------------

  /** Absorbing a block flips exactly the state bits at which the block has ones; the capacity stays. */
  lemma AbsorbBlockBit(s: State, block: Bytes, i: nat, z: nat)
    requires i < 25 && z < 64
    ensures AbsorbBlock(s, block)[i][z]
            == if 64 * i + z < 8 * |block| then s[i][z] != (Fields.Bit(block, 64 * i + z) == 1) else s[i][z]
  {
    hide Pow2;
    assert (64 * i + z) / 8 == 8 * i + z / 8 && (64 * i + z) % 8 == z % 8;
  }

  lemma AbsorbNothing(rate: nat, s: State)
    requires IsRate(rate)
    ensures Absorb(rate, s, []) == s
  {
  }

  /** One block, into any state. */
  lemma AbsorbOnce(rate: nat, s: State, p: Bytes)
    requires IsRate(rate) && |p| == rate
    ensures Absorb(rate, s, p) == TurboShake.Permute(AbsorbBlock(s, p))
  {
    hide TurboShake.Permute, AbsorbBlock;
    assert p[..rate] == p && p[rate..] == [];
  }

  lemma AbsorbStep(rate: nat, s: State, p: Bytes)
    requires IsRate(rate) && |p| % rate == 0 && |p| > 0
    ensures |p| >= rate && |p[rate..]| % rate == 0
    ensures Absorb(rate, s, p) == Absorb(rate, TurboShake.Permute(AbsorbBlock(s, p[..rate])), p[rate..])
  {
    hide TurboShake.Permute, AbsorbBlock;
  }

  /** Blocks are absorbed one after another, none left out. */
  lemma {:induction false} AbsorbConcat(rate: nat, s: State, p: Bytes, q: Bytes)
    requires IsRate(rate) && |p| % rate == 0 && |q| % rate == 0
    ensures |p + q| % rate == 0 && Absorb(rate, s, p + q) == Absorb(rate, Absorb(rate, s, p), q)
    decreases |p|
  {
    WholeBlocks(rate, |p|, |q|);
    hide *;
    if |p| == 0 {
      AbsorbNothing(rate, s);
      assert p == [] && p + q == q;
    } else {
      AbsorbStep(rate, s, p);
      AbsorbStep(rate, s, p + q);
      CutConcat(p, q, rate);
      AbsorbConcat(rate, TurboShake.Permute(AbsorbBlock(s, p[..rate])), p[rate..], q);
    }
  }

  lemma CutConcat(p: Bytes, q: Bytes, k: nat)
    requires k <= |p|
    ensures (p + q)[..k] == p[..k] && (p + q)[k..] == p[k..] + q
  {
  }

  lemma WholeBlocks(rate: nat, n: nat, m: nat)
    requires IsRate(rate) && n % rate == 0 && m % rate == 0
    ensures rate > 0 && (n + m) % rate == 0
  {
  }

  // -------------------------------------------------------------------------------------------
  // Squeezing
  // -------------------------------------------------------------------------------------------

  /** The state as 200 bytes, each lane's number in base 256. */
  function StateBytes(s: State): (b: Bytes)
    ensures |b| == 200
  {
    seq(200, j requires 0 <= j < 200 => Digits(256, 8, Num(2, BitsOf(s[j / 8])))[j % 8])
  }

  /** Squeezing: the first `rate` bytes of the state, a permutation, and so on. */
  function Squeeze(rate: nat, s: State, n: nat): (out: Bytes)
    requires IsRate(rate)
    ensures |out| == n
    decreases n
  {
    if n <= rate then StateBytes(s)[..n]
    else StateBytes(s)[..rate] + Squeeze(rate, TurboShake.Permute(s), n - rate)
  }

  lemma StateByteIs(s: State, j: nat)
    requires j < 200
    ensures StateByte(s, j) == StateBytes(s)[j]
  {
    hide BitsOf, Num, WordByte, Digits, LaneBytes;
    StoredDigits(s[j / 8]);
  }

  lemma StoredDigits(w: Word)
    ensures Digits(256, 8, Num(2, BitsOf(w))) == LaneBytes(w)
  {
    hide *;
    StoreIsLittleEndian(w);
    DigitsOfNum(256, LaneBytes(w));
  }

  lemma {:induction false} IterateFirst(s: State, n: nat)
    ensures Iterate(TurboShake.Permute(s), n) == Iterate(s, n + 1)
    decreases n
  {
    hide TurboShake.Permute;
    if n > 0 { IterateFirst(s, n - 1); }
  }

  lemma {:induction false} SqueezeAt(rate: nat, s: State, n: nat, i: nat)
    requires IsRate(rate) && i < n
    ensures Squeeze(rate, s, n)[i] == StateByte(Iterate(s, i / rate), i % rate)
    decreases n
  {
    hide StateBytes, StateByte, TurboShake.Permute;
    if i < rate {
      StateByteIs(s, i);
      assert i / rate == 0 && i % rate == i;
    } else {
      NextBlock(rate, i);
      SqueezeAt(rate, TurboShake.Permute(s), n - rate, i - rate);
      IterateFirst(s, (i - rate) / rate);
    }
  }

  lemma NextBlock(rate: nat, i: nat)
    requires IsRate(rate) && i >= rate
    ensures (i - rate) / rate + 1 == i / rate && (i - rate) % rate == i % rate
  {
  }

  /** The stream is what squeezing the absorbed state gives. */
  lemma StreamIsSqueezed(rate: nat, ds: u8, msg: Bytes, n: nat)
    requires IsRate(rate)
    ensures Stream(rate, ds, msg, 0, n) == Squeeze(rate, Absorb(rate, ZeroState(), Padded(rate, ds, msg)), n)
  {
    hide *;
    var s := Absorb(rate, ZeroState(), Padded(rate, ds, msg));
    forall i | 0 <= i < n
      ensures Stream(rate, ds, msg, 0, n)[i] == Squeeze(rate, s, n)[i]
    {
      StreamAt(rate, ds, msg, 0, n, i);
      StreamByteIs(rate, ds, msg, i);
      SqueezeAt(rate, s, n, i);
    }
    assert Stream(rate, ds, msg, 0, n) == Squeeze(rate, s, n);
  }

  lemma StreamByteIs(rate: nat, ds: u8, msg: Bytes, i: nat)
    requires IsRate(rate)
    ensures StreamByte(rate, ds, msg, i)
            == StateByte(Iterate(Absorb(rate, ZeroState(), Padded(rate, ds, msg)), i / rate), i % rate)
  {
    hide StateByte, Iterate, Absorb, Padded, ZeroState;
  }

  /** Reading on continues the stream. */
  lemma {:induction false} StreamConcat(rate: nat, ds: u8, msg: Bytes, start: nat, n: nat, m: nat)
    requires IsRate(rate)
    ensures Stream(rate, ds, msg, start, n) + Stream(rate, ds, msg, start + n, m) == Stream(rate, ds, msg, start, n + m)
    decreases m
  {
    hide StreamByte;
    if m > 0 { StreamConcat(rate, ds, msg, start, n, m - 1); }
  }
}
