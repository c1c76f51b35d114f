/** TurboSHAKE, as section 2 of RFC 9861 defines it, over byte strings. */
module TurboShake {
  import opened Words
  import opened Bits
  import opened Ser
  import Fields
  import Positional
  import opened Keccak

  /** The sponge's capacity is what the rate leaves of 200 bytes. */
  predicate IsRate(rate: nat) {
    rate == 168 || rate == 136
  }

  /** The message, the domain separator at the first free byte, zeros to the end of the block. */
  function Padding(rate: nat, ds: u8, msg: Bytes): (p: Bytes)
    requires IsRate(rate)
    ensures |p| % rate == 0 && |p| > 0
  {
    Positional.RoundsUp(|msg| + 1, rate);
    msg + [ds] + Fields.Zeros((rate - (|msg| + 1) % rate) % rate)
  }

  /** The same with the high bit of the last byte flipped. */
  function Padded(rate: nat, ds: u8, msg: Bytes): (p: Bytes)
    requires IsRate(rate)
    ensures |p| % rate == 0 && |p| > 0
  {
    var p := Padding(rate, ds, msg);
    p[|p| - 1 := FlipHigh(p[|p| - 1])]
  }

  function FlipHigh(b: u8): u8 {
    if b < 0x80 then b + 0x80 else b - 0x80
  }

  /** The lane eight bytes spell, least significant bit first; bytes past the end count as zero. */
  function WordAt(b: Bytes, i: nat): Word {
    seq(64, z requires 0 <= z < 64 => 8 * i + z / 8 < |b| && b[8 * i + z / 8] / Pow2(z % 8) % 2 == 1)
  }

  /** A block XORed into the state; it is zero past the rate. */
  function AbsorbBlock(s: State, block: Bytes): State {
    seq(25, i requires 0 <= i < 25 => Xor(s[i], WordAt(block, i)))
  }

  const ROUNDS := 12

  function Permute(s: State): State {
    KeccakP(s, ROUNDS)
  }

  function Absorb(rate: nat, s: State, p: Bytes): State
    requires IsRate(rate) && |p| % rate == 0
    decreases |p|
  {
    if |p| < rate then s else Absorb(rate, Permute(AbsorbBlock(s, p[..rate])), p[rate..])
  }

  function ZeroState(): State {
    seq(25, i requires 0 <= i < 25 => ZERO_WORD)
  }

  /** The bits of one byte of a lane, as a number. */
  function WordByte(w: Word, k: nat): (b: u8)
    requires k < 8
  {
    BitSum(w, 8 * k, 8)
  }

  function BitSum(w: Word, from: nat, n: nat): (r: nat)
    requires from + n <= 64
    ensures r < Pow2(n)
    decreases n
  {
    if n == 0 then 0 else (if w[from] then 1 else 0) + 2 * BitSum(w, from + 1, n - 1)
  }

  function StateByte(s: State, j: nat): u8
    requires j < 200
  {
    WordByte(s[j / 8], j % 8)
  }

  /** `n` permutations. */
  function Iterate(s: State, n: nat): State
    decreases n
  {
    if n == 0 then s else Permute(Iterate(s, n - 1))
  }

  /** Byte `i` of the output stream: each permutation yields one rate-sized block. */
  function StreamByte(rate: nat, ds: u8, msg: Bytes, i: nat): u8
    requires IsRate(rate)
  {
    StateByte(Iterate(Absorb(rate, ZeroState(), Padded(rate, ds, msg)), i / rate), i % rate)
  }

  /** Bytes `from .. from + n` of the output. */
  function Stream(rate: nat, ds: u8, msg: Bytes, from: nat, n: nat): (out: Bytes)
    requires IsRate(rate)
    ensures |out| == n
  {
    if n == 0 then [] else Stream(rate, ds, msg, from, n - 1) + [StreamByte(rate, ds, msg, from + n - 1)]
  }

  lemma {:induction false} StreamAt(rate: nat, ds: u8, msg: Bytes, from: nat, n: nat, i: nat)
    requires IsRate(rate) && i < n
    ensures Stream(rate, ds, msg, from, n)[i] == StreamByte(rate, ds, msg, from + i)
  {
    hide StreamByte;
    if i < n - 1 { StreamAt(rate, ds, msg, from, n - 1, i); }
  }

  /** An extendable-output reader: each read takes up where the last one stopped. */
  class Reader {
    const rate: nat
    const ds: u8
    const msg: Bytes
    var pos: nat

    ghost predicate Valid()
      reads this
    {
      IsRate(rate)
    }

    constructor (rate: nat, ds: u8, msg: Bytes)
      requires IsRate(rate)
      ensures Valid() && pos == 0 && this.rate == rate && this.ds == ds && this.msg == msg
    {
      this.rate, this.ds, this.msg, pos := rate, ds, msg, 0;
    }

    /** Fills `buf` with the next bytes of the stream. */
    method Read(buf: array<u8>)
      requires Valid()
      modifies this`pos, buf
      ensures pos == old(pos) + buf.Length
      ensures buf[..] == Stream(rate, ds, msg, old(pos), buf.Length)
    {
      hide StreamByte;
      for i := 0 to buf.Length
        invariant pos == old(pos) + i
        invariant buf[..i] == Stream(rate, ds, msg, old(pos), i)
      {
        buf[i] := StreamByte(rate, ds, msg, pos);
        pos := pos + 1;
        assert buf[..i + 1] == buf[..i] + [buf[i]];
      }
      assert buf[..] == buf[..buf.Length];
    }
  }
}
