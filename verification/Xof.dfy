/** `xof4` and `xof2`: as many TurboSHAKE instances at once as a register has 64-bit lanes, each
    absorbing one block and squeezing the same number of bytes. */
module Xof {
  import opened Words
  import opened Congruence
  import opened Bits
  import opened Ser
  import Fields
  import opened Keccak
  import opened FusedKeccak
  import opened VecKeccak
  import opened TurboShake
  import SpongeFacts

  function Ways(arch: Arch): (n: nat)
    ensures n == 4 || n == 2
  {
    if arch.Avx2? then 4 else 2
  }

  // -------------------------------------------------------------------------------------------
  // One block of input
  // -------------------------------------------------------------------------------------------

  /** `pad_block`. */
  method PadBlock(rate: nat, ds: u8, prefix: Bytes, suffix: Bytes) returns (bytes: Bytes)
    requires IsRate(rate) && 1 <= ds <= 0x7F && |prefix| == 32 && 32 + |suffix| < rate
    ensures bytes == Padded(rate, ds, prefix + suffix)
  {
    ghost var p := Padding(rate, ds, prefix + suffix);
    PaddingIs(rate, ds, prefix + suffix);
    hide *;
    var b := new u8[rate](_ => 0);
    for i := 0 to 32
      invariant forall j :: 0 <= j < i ==> b[j] == prefix[j]
      invariant forall j :: i <= j < rate ==> b[j] == 0
    {
      b[i] := prefix[i];
    }
    for i := 0 to |suffix|
      invariant forall j :: 0 <= j < 32 ==> b[j] == prefix[j]
      invariant forall j :: 32 <= j < 32 + i ==> b[j] == suffix[j - 32]
      invariant forall j :: 32 + i <= j < rate ==> b[j] == 0
    {
      b[32 + i] := suffix[i];
    }
    b[32 + |suffix|] := ds;
    assert b[..] == p;
    HighBit(b[rate - 1]);
    b[rate - 1] := BitOr(b[rate - 1], 0x80);
    bytes := b[..];
    PaddedFrom(rate, ds, prefix + suffix, p, bytes);
  }

  lemma HighBit(b: u8)
    requires b < 0x80
    ensures BitOr(b, 0x80) == b + 0x80
  {
    Pow2Values();
    OrIsAdd(b, 1, 7);
  }

  /** With room for the padding in one block, that block is message, separator and zeros. */
  lemma PaddingIs(rate: nat, ds: u8, msg: Bytes)
    requires IsRate(rate) && |msg| < rate && ds < 0x80
    ensures |Padding(rate, ds, msg)| == rate && Padding(rate, ds, msg)[rate - 1] < 0x80
    ensures forall j :: 0 <= j < rate ==>
      Padding(rate, ds, msg)[j] == if j < |msg| then msg[j] else if j == |msg| then ds else 0
  {
    SpongeFacts.PaddingBytes(rate, ds, msg);
    hide Padding;
    OneBlockLong(rate, |Padding(rate, ds, msg)|);
  }

  lemma OneBlockLong(rate: nat, n: nat)
    requires IsRate(rate) && n % rate == 0 && 0 < n < 2 * rate
    ensures n == rate
  {
  }

  lemma PaddedFrom(rate: nat, ds: u8, msg: Bytes, p: Bytes, b: Bytes)
    requires IsRate(rate) && p == Padding(rate, ds, msg) && |p| == |b| == rate && p[rate - 1] < 0x80
    requires b[rate - 1] == p[rate - 1] + 0x80 && forall j :: 0 <= j < rate - 1 ==> b[j] == p[j]
    ensures b == Padded(rate, ds, msg)
  {
    hide Padding;
  }

  lemma ZeroXor(w: Word)
    ensures Xor(ZERO_WORD, w) == w
  {
  }

  lemma AbsorbIntoZero(p: Bytes, i: nat)
    requires i < 25
    ensures AbsorbBlock(ZeroState(), p)[i] == WordAt(p, i)
  {
    hide WordAt, Xor;
    ZeroXor(WordAt(p, i));
  }

  /** Past the block there is only capacity. */
  lemma WordPastEnd(p: Bytes, i: nat)
    requires 8 * i >= |p|
    ensures WordAt(p, i) == ZERO_WORD
  {
  }

  // -------------------------------------------------------------------------------------------
  // Transposes
  // -------------------------------------------------------------------------------------------

  /** `vpunpcklqdq` and `vpunpckhqdq`, within each half. */
  function Unpack64(a: Vec, b: Vec, hi: nat): (v: Vec)
    requires |a| == |b| == 4 && hi < 2
    ensures |v| == 4
  {
    [a[hi], b[hi], a[2 + hi], b[2 + hi]]
  }

  /** `vperm2i128` with 0x20 or 0x31: two low halves or two high ones. */
  function PermuteHalves(a: Vec, b: Vec, hi: nat): (v: Vec)
    requires |a| == |b| == 4 && hi < 2
    ensures |v| == 4
  {
    [a[2 * hi], a[2 * hi + 1], b[2 * hi], b[2 * hi + 1]]
  }

  /** `transpose4x64`, and NEON's `trn1`/`trn2` pair. */
  function Transpose(arch: Arch, v: seq<Vec>): (r: seq<Vec>)
    requires |v| == Ways(arch) && forall i :: 0 <= i < |v| ==> |v[i]| == Ways(arch)
    ensures |r| == Ways(arch) && forall i :: 0 <= i < |r| ==> |r[i]| == Ways(arch)
  {
    match arch
    case Avx2 =>
      var t0, t1 := Unpack64(v[0], v[1], 0), Unpack64(v[0], v[1], 1);
      var t2, t3 := Unpack64(v[2], v[3], 0), Unpack64(v[2], v[3], 1);
      [PermuteHalves(t0, t2, 0), PermuteHalves(t1, t3, 0), PermuteHalves(t0, t2, 1), PermuteHalves(t1, t3, 1)]
    case Neon =>
      [[v[0][0], v[1][0]], [v[0][1], v[1][1]]]
  }

  lemma TransposeAt(arch: Arch, v: seq<Vec>, r: nat, l: nat)
    requires |v| == Ways(arch) && (forall i :: 0 <= i < |v| ==>
             |v[i]| == Ways(arch)) && r < Ways(arch) && l < Ways(arch)
    ensures Transpose(arch, v)[r][l] == v[l][r]
  {
    if r == 0 { } else if r == 1 { } else if r == 2 { } else { }
    if l == 0 { } else if l == 1 { } else if l == 2 { } else { }
  }

  // -------------------------------------------------------------------------------------------
  // Absorbing
  // -------------------------------------------------------------------------------------------

  /** Consecutive words of one block, as a byte load of a whole register reads them. */
  function LoadWords(ways: nat, b: Bytes, word: nat): (v: Vec)
    ensures |v| == ways
  {
    seq(ways, i requires 0 <= i < ways => LoadWord(b, word, i))
  }

  function LoadWord(b: Bytes, word: nat, i: nat): Word {
    WordAt(b, word + i)
  }

  /** One word of every block. */
  function WordOfAll(ways: nat, blocks: seq<Bytes>, word: nat): (v: Vec)
    requires |blocks| == ways
    ensures |v| == ways
  {
    seq(ways, l requires 0 <= l < ways => WordAt(blocks[l], word))
  }

  lemma TransposedWords(arch: Arch, blocks: seq<Bytes>, word: nat, v: seq<Vec>, r: nat)
    requires |blocks| == |v| == Ways(arch) && r < Ways(arch) && forall i :: 0 <= i < |v| ==> |v[i]| == Ways(arch)
    requires forall l :: 0 <= l < Ways(arch) ==> v[l] == LoadWords(Ways(arch), blocks[l], word)
    ensures Transpose(arch, v)[r] == WordOfAll(Ways(arch), blocks, word + r)
  {
    hide Transpose, WordAt;
    forall l | 0 <= l < Ways(arch)
      ensures Transpose(arch, v)[r][l] == WordOfAll(Ways(arch), blocks, word + r)[l]
    {
      TransposeAt(arch, v, r, l);
    }
  }

  /** The state while words are being placed: blocks' words below `word`, zeros above. */
  ghost predicate Placed(ways: nat, s: seq<Vec>, blocks: seq<Bytes>, word: nat) {
    && AllWays(s, ways) && |blocks| == ways
    && forall i :: 0 <= i < 25 ==> s[i] == if i < word then WordOfAll(ways, blocks, i) else ZeroVec(ways)
  }

  /** The wide path: a transpose places as many words as there are sponges. */
  method PlaceGroup(arch: Arch, state: array<Vec>, blocks: seq<Bytes>, word: nat)
    requires state.Length == 25 && |blocks| == Ways(arch) && Placed(Ways(arch), state[..], blocks, word)
             && word + Ways(arch) <= 25
    modifies state
    ensures Placed(Ways(arch), state[..], blocks, word + Ways(arch))
  {
    hide WordOfAll, Transpose, LoadWords, WordAt;
    ghost var s := state[..];
    var n := Ways(arch);
    var v := seq(n, l requires 0 <= l < n => LoadWords(n, blocks[l], word));
    var r := Transpose(arch, v);
    for i := 0 to n
      invariant forall j :: 0 <= j < 25 ==> state[j] == if word <= j < word + i then WordOfAll(n, blocks, j) else s[j]
    {
      TransposedWords(arch, blocks, word, v, i);
      state[word + i] := r[i];
    }
  }

  /** The narrow path: one word of every block, gathered byte by byte. */
  method PlaceWord(arch: Arch, state: array<Vec>, blocks: seq<Bytes>, word: nat)
    requires state.Length == 25 && |blocks| == Ways(arch) && Placed(Ways(arch), state[..], blocks, word) && word < 25
    requires forall l :: 0 <= l < Ways(arch) ==> 8 * word + 8 <= |blocks[l]|
    modifies state
    ensures Placed(Ways(arch), state[..], blocks, word + 1)
  {
    hide WordOfAll, LoadWords, WordAt;
    var packed := Gather(arch, blocks, word);
    state[word] := LoadWords(Ways(arch), packed, 0);
    GatheredWords(arch, blocks, word, packed);
  }

  function Eight(b: Bytes, i: nat): (e: Bytes)
    requires 8 * i + 8 <= |b|
    ensures |e| == 8
  {
    b[8 * i..8 * i + 8]
  }

  /** Sponge `l`'s eight bytes at `8 * l`. */
  method Gather(arch: Arch, blocks: seq<Bytes>, word: nat) returns (packed: Bytes)
    requires |blocks| == Ways(arch) && forall l :: 0 <= l < Ways(arch) ==> 8 * word + 8 <= |blocks[l]|
    ensures |packed| == 8 * Ways(arch) && forall l :: 0 <= l < Ways(arch) ==> Eight(packed, l) == Eight(blocks[l], word)
  {
    var n := Ways(arch);
    packed := [];
    for l := 0 to n
      invariant |packed| == 8 * l
      invariant forall k :: 0 <= k < l ==> Eight(packed, k) == Eight(blocks[k], word)
    {
      ghost var was := packed;
      packed := packed + Eight(blocks[l], word);
      forall k | 0 <= k < l ensures Eight(packed, k) == Eight(was, k) { }
      assert Eight(packed, l) == Eight(blocks[l], word);
    }
  }

  lemma GatheredWords(arch: Arch, blocks: seq<Bytes>, word: nat, packed: Bytes)
    requires |blocks| == Ways(arch) && |packed| == 8 * Ways(arch)
    requires forall l :: 0 <= l < Ways(arch) ==> 8 * word + 8 <= |blocks[l]|
    requires forall l :: 0 <= l < Ways(arch) ==> Eight(packed, l) == Eight(blocks[l], word)
    ensures LoadWords(Ways(arch), packed, 0) == WordOfAll(Ways(arch), blocks, word)
  {
    forall l | 0 <= l < Ways(arch)
      ensures WordAt(packed, l) == WordAt(blocks[l], word)
    {
      SameBytes(packed, l, blocks[l], word);
    }
  }

  lemma SameBytes(a: Bytes, i: nat, b: Bytes, j: nat)
    requires 8 * i + 8 <= |a| && 8 * j + 8 <= |b| && Eight(a, i) == Eight(b, j)
    ensures WordAt(a, i) == WordAt(b, j)
  {
    var x, y := Eight(a, i), Eight(b, j);
    forall z | 0 <= z < 64 ensures WordAt(a, i)[z] == WordAt(b, j)[z] {
      assert a[8 * i + z / 8] == x[z / 8] && b[8 * j + z / 8] == y[z / 8];
    }
  }

  /** Every word of the blocks, some by transposes and the rest one at a time. */
  method PlaceBlocks(arch: Arch, rate: nat, blocks: seq<Bytes>) returns (state: array<Vec>)
    requires IsRate(rate) && |blocks| == Ways(arch) && forall l :: 0 <= l < Ways(arch) ==> |blocks[l]| == rate
    ensures fresh(state) && state.Length == 25 && AllWays(state[..], Ways(arch))
    ensures forall l :: 0 <= l < Ways(arch) ==>
            LaneState(state[..], Ways(arch), l) == AbsorbBlock(ZeroState(), blocks[l])
  {
    var zero := ZeroVec(Ways(arch));
    state := new Vec[25](_ => zero);
    assert Placed(Ways(arch), state[..], blocks, 0);
    hide Placed, LaneState, AbsorbBlock;
    var words := rate / 8;
    var word := 0;
    while word + Ways(arch) <= words
      invariant word <= words && Placed(Ways(arch), state[..], blocks, word)
    {
      PlaceGroup(arch, state, blocks, word);
      word := word + Ways(arch);
    }
    while word < words
      invariant word <= words && Placed(Ways(arch), state[..], blocks, word)
    {
      PlaceWord(arch, state, blocks, word);
      word := word + 1;
    }
    AllPlaced(arch, rate, blocks, state[..]);
  }

  lemma AllPlaced(arch: Arch, rate: nat, blocks: seq<Bytes>, s: seq<Vec>)
    requires IsRate(rate) && |blocks| == Ways(arch) && forall l :: 0 <= l < Ways(arch) ==> |blocks[l]| == rate
    requires Placed(Ways(arch), s, blocks, rate / 8)
    ensures AllWays(s, Ways(arch))
    ensures forall l :: 0 <= l < Ways(arch) ==> LaneState(s, Ways(arch), l) == AbsorbBlock(ZeroState(), blocks[l])
  {
    hide WordAt, AbsorbBlock;
    forall l | 0 <= l < Ways(arch)
      ensures LaneState(s, Ways(arch), l) == AbsorbBlock(ZeroState(), blocks[l])
    {
      forall i | 0 <= i < 25
        ensures LaneState(s, Ways(arch), l)[i] == AbsorbBlock(ZeroState(), blocks[l])[i]
      {
        AbsorbIntoZero(blocks[l], i);
        if i >= rate / 8 { WordPastEnd(blocks[l], i); }
      }
    }
  }

  // -------------------------------------------------------------------------------------------
  // Squeezing
  // -------------------------------------------------------------------------------------------

  /** The output of sponge `l` is right up to `upto`. */
  ghost predicate Written(arch: Arch, out: array2<u8>, rate: nat, ds: u8, msgs: seq<Bytes>, upto: nat)
    requires IsRate(rate) && |msgs| == out.Length0
    reads out
  {
    upto <= out.Length1 && forall l, p :: 0 <= l < out.Length0 && 0 <= p < upto ==>
      out[l, p] == StreamByte(rate, ds, msgs[l], p)
  }

  /** The state holds the block of output that starts at byte `done`. */
  ghost predicate BlockReady(arch: Arch, s: seq<Vec>, rate: nat, ds: u8, msgs: seq<Bytes>, done: nat) {
    && IsRate(rate) && AllWays(s, Ways(arch)) && |msgs| == Ways(arch)
    && forall l, w :: 0 <= l < Ways(arch) && 0 <= w < rate / 8 ==> WordReady(s[w][l], rate, ds, msgs[l], done + 8 * w)
  }

  /** The eight bytes of a lane are the stream's from `at` on. */
  ghost predicate WordReady(w: Word, rate: nat, ds: u8, msg: Bytes, at: nat)
    requires IsRate(rate)
  {
    forall i :: 0 <= i < 8 ==> WordByte(w, i) == StreamByte(rate, ds, msg, at + i)
  }

  /** `store_u8x32` and `store_u8x16`: the words of a register, least significant byte first. */
  method StoreWords(arch: Arch, out: array2<u8>, l: nat, start: nat, v: Vec, rate: nat, ds: u8, ghost msg: Bytes)
    requires IsRate(rate) && |v| == Ways(arch) && l < out.Length0 && start + 8 * Ways(arch) <= out.Length1
    requires forall r :: 0 <= r < |v| ==> WordReady(v[r], rate, ds, msg, start + 8 * r)
    modifies out
    ensures forall k, p :: 0 <= k < out.Length0 && 0 <= p < out.Length1 ==>
      out[k, p] == old(out[k, p]) || (k == l && start <= p < start + 8 * Ways(arch))
    ensures forall p :: start <= p < start + 8 * Ways(arch) ==> out[l, p] == StreamByte(rate, ds, msg, p)
  {
    hide WordByte, StreamByte, WordReady;
    for r := 0 to Ways(arch)
      invariant forall k, p :: 0 <= k < out.Length0 && 0 <= p < out.Length1 ==>
        out[k, p] == old(out[k, p]) || (k == l && start <= p < start + 8 * r)
      invariant forall p :: start <= p < start + 8 * r ==> out[l, p] == StreamByte(rate, ds, msg, p)
    {
      StoreWord(out, l, start + 8 * r, v[r], 8, rate, ds, msg);
    }
  }

  /** The first `len` bytes of one word. */
  method StoreWord(out: array2<u8>, l: nat, start: nat, w: Word, len: nat, rate: nat, ds: u8, ghost msg: Bytes)
    requires IsRate(rate) && l < out.Length0 && len <= 8 && start + len <= out.Length1
             && WordReady(w, rate, ds, msg, start)
    modifies out
    ensures forall k, p :: 0 <= k < out.Length0 && 0 <= p < out.Length1 && !(k == l && start <= p < start + len) ==>
            out[k, p] == old(out[k, p])
    ensures forall p :: start <= p < start + len ==> out[l, p] == StreamByte(rate, ds, msg, p)
  {
    hide WordByte, StreamByte;
    for i := 0 to len
      invariant forall k, p :: 0 <= k < out.Length0 && 0 <= p < out.Length1 && !(k == l && start <= p < start + i) ==>
                out[k, p] == old(out[k, p])
      invariant forall p :: start <= p < start + i ==> out[l, p] == StreamByte(rate, ds, msg, p)
    {
      out[l, start + i] := WordByte(w, i);
    }
  }

  /** The wide path: a transpose turns words of all sponges into consecutive words of each. */
  method SqueezeGroup(arch: Arch, state: array<Vec>, out: array2<u8>, rate: nat, ds: u8, ghost msgs: seq<Bytes>,
                      done: nat, word: nat)
    requires state.Length == 25 && BlockReady(arch, state[..], rate, ds, msgs, done) && word + Ways(arch) <= rate / 8
    requires out.Length0 == Ways(arch) && done + 8 * word + 8 * Ways(arch) <= out.Length1
    requires Written(arch, out, rate, ds, msgs, done + 8 * word)
    modifies out
    ensures Written(arch, out, rate, ds, msgs, done + 8 * word + 8 * Ways(arch))
  {
    hide WordByte, StreamByte, WordReady, Transpose;
    var n := Ways(arch);
    var v := seq(n, r requires 0 <= r < n reads state requires state.Length == 25 && word + n <= 25 => state[word + r]);
    var t := Transpose(arch, v);
    var start := done + 8 * word;
    for l := 0 to n
      invariant forall k, p :: 0 <= k < n && 0 <= p < start ==> out[k, p] == StreamByte(rate, ds, msgs[k], p)
      invariant forall k, p :: 0 <= k < l && start <= p < start + 8 * n ==>
                out[k, p] == StreamByte(rate, ds, msgs[k], p)
    {
      forall r | 0 <= r < n
        ensures WordReady(t[l][r], rate, ds, msgs[l], start + 8 * r)
      {
        TransposeAt(arch, v, l, r);
      }
      StoreWords(arch, out, l, start, t[l], rate, ds, msgs[l]);
    }
  }

  /** The narrow path: one word of every sponge, as much of it as the output still wants. */
  method SqueezeWord(arch: Arch, state: array<Vec>, out: array2<u8>, rate: nat, ds: u8, ghost msgs: seq<Bytes>,
                     done: nat, word: nat, len: nat)
    requires state.Length == 25 && BlockReady(arch, state[..], rate, ds, msgs, done) && word < rate / 8 && len <= 8
    requires out.Length0 == Ways(arch) && done + 8 * word + len <= out.Length1
    requires Written(arch, out, rate, ds, msgs, done + 8 * word)
    modifies out
    ensures Written(arch, out, rate, ds, msgs, done + 8 * word + len)
  {
    hide WordByte, StreamByte, WordReady;
    var n := Ways(arch);
    var start := done + 8 * word;
    for l := 0 to n
      invariant forall k, p :: 0 <= k < n && 0 <= p < start ==> out[k, p] == StreamByte(rate, ds, msgs[k], p)
      invariant forall k, p :: 0 <= k < l && start <= p < start + len ==> out[k, p] == StreamByte(rate, ds, msgs[k], p)
    {
      StoreWord(out, l, start, state[word][l], len, rate, ds, msgs[l]);
    }
  }

  /** One block of output, or what is left of it. */
  method SqueezeBlock(arch: Arch, state: array<Vec>, out: array2<u8>, rate: nat, ds: u8, ghost msgs: seq<Bytes>,
                      done: nat, take: nat)
    requires state.Length == 25 && BlockReady(arch, state[..], rate, ds, msgs, done) && out.Length0 == Ways(arch)
    requires 0 < take <= rate && done + take <= out.Length1 && (take == rate || done + take == out.Length1)
    requires Written(arch, out, rate, ds, msgs, done)
    modifies out
    ensures Written(arch, out, rate, ds, msgs, done + take)
  {
    hide Written, BlockReady;
    BlockShape(arch, state[..], rate, ds, msgs, done);
    var words := (take + 7) / 8;
    var word := 0;
    while word + Ways(arch) <= words && done + 8 * word + 8 * Ways(arch) <= out.Length1
      invariant word <= words && done + 8 * word <= out.Length1 && Written(arch, out, rate, ds, msgs, done + 8 * word)
    {
      SqueezeGroup(arch, state, out, rate, ds, msgs, done, word);
      word := word + Ways(arch);
    }
    ghost var upto: nat := done + 8 * word;
    while word < words
      invariant word <= words && Written(arch, out, rate, ds, msgs, upto)
      invariant upto == if done + 8 * word <= done + take then done + 8 * word else done + take
    {
      var start := done + 8 * word;
      var len := if out.Length1 - start < 8 then out.Length1 - start else 8;
      SqueezeWord(arch, state, out, rate, ds, msgs, done, word, len);
      upto := start + len;
      word := word + 1;
    }
    assert upto == done + take;
  }

  lemma BlockShape(arch: Arch, s: seq<Vec>, rate: nat, ds: u8, msgs: seq<Bytes>, done: nat)
    requires BlockReady(arch, s, rate, ds, msgs, done)
    ensures IsRate(rate) && rate % 8 == 0 && |msgs| == Ways(arch)
  {
  }

  lemma Located(n: nat, rate: nat, k: nat, at: nat)
    requires IsRate(rate) && k < rate && at == n * rate + k
    ensures at / rate == n && at % rate == k
  {
    DivUnique(at, rate, n, k);
  }

  /** What `n` permutations after absorption leave is the block of output at `n * rate`. */
  lemma BlockFromState(arch: Arch, s: seq<Vec>, rate: nat, ds: u8, msgs: seq<Bytes>, n: nat, done: nat)
    requires IsRate(rate) && AllWays(s, Ways(arch)) && |msgs| == Ways(arch) && done == n * rate
    requires forall l :: 0 <= l < Ways(arch) ==> LaneState(s, Ways(arch), l) == Iterate(Absorbed(rate, ds, msgs[l]), n)
    ensures BlockReady(arch, s, rate, ds, msgs, done)
  {
    hide LaneState, Iterate, Absorbed, WordReady;
    forall l, w | 0 <= l < Ways(arch) && 0 <= w < rate / 8
      ensures WordReady(s[w][l], rate, ds, msgs[l], done + 8 * w)
    {
      LaneWord(arch, s, l, w);
      WordFromState(rate, ds, msgs[l], n, done, w);
    }
  }

  lemma LaneWord(arch: Arch, s: seq<Vec>, l: nat, w: nat)
    requires AllWays(s, Ways(arch)) && l < Ways(arch) && w < 25
    ensures LaneState(s, Ways(arch), l)[w] == s[w][l]
  {
  }

  lemma WordFromState(rate: nat, ds: u8, msg: Bytes, n: nat, done: nat, w: nat)
    requires IsRate(rate) && done == n * rate && w < rate / 8
    ensures WordReady(Iterate(Absorbed(rate, ds, msg), n)[w], rate, ds, msg, done + 8 * w)
  {
    hide WordByte, StreamByte, Iterate, Absorbed;
    forall i | 0 <= i < 8
      ensures WordByte(Iterate(Absorbed(rate, ds, msg), n)[w], i) == StreamByte(rate, ds, msg, done + 8 * w + i)
    {
      ByteFromState(rate, ds, msg, n, done + 8 * w + i, w, i);
    }
  }

  lemma ByteFromState(rate: nat, ds: u8, msg: Bytes, n: nat, at: nat, w: nat, i: nat)
    requires IsRate(rate) && w < rate / 8 && i < 8 && at == n * rate + 8 * w + i
    ensures WordByte(Iterate(Absorbed(rate, ds, msg), n)[w], i) == StreamByte(rate, ds, msg, at)
  {
    var k := 8 * w + i;
    StreamAtByte(rate, ds, msg, at);
    hide *;
    Located(n, rate, k, at);
    LaneByte(Iterate(Absorbed(rate, ds, msg), n), w, i, k);
  }

  lemma StreamAtByte(rate: nat, ds: u8, msg: Bytes, at: nat)
    requires IsRate(rate)
    ensures StreamByte(rate, ds, msg, at) == StateByte(Iterate(Absorbed(rate, ds, msg), at / rate), at % rate)
  {
    hide StateByte, Iterate, Absorb, Padded, ZeroState;
  }

  lemma LaneByte(s: State, w: nat, i: nat, k: nat)
    requires w < 25 && i < 8 && k == 8 * w + i
    ensures StateByte(s, k) == WordByte(s[w], i)
  {
    hide WordByte;
    assert k / 8 == w && k % 8 == i;
  }

  /** The state a sponge has when its first byte of output is due. */
  function Absorbed(rate: nat, ds: u8, msg: Bytes): State
    requires IsRate(rate)
  {
    Absorb(rate, ZeroState(), Padded(rate, ds, msg))
  }

  /** One permutation short of the block of output at `n * rate`. */
  ghost predicate Due(arch: Arch, s: seq<Vec>, rate: nat, ds: u8, msgs: seq<Bytes>, n: nat) {
    && IsRate(rate) && AllWays(s, Ways(arch)) && |msgs| == Ways(arch)
    && forall l :: 0 <= l < Ways(arch) ==>
      TurboShake.Permute(LaneState(s, Ways(arch), l)) == Iterate(Absorbed(rate, ds, msgs[l]), n)
  }

  lemma FirstDue(arch: Arch, s: seq<Vec>, rate: nat, ds: u8, msgs: seq<Bytes>, blocks: seq<Bytes>)
    requires IsRate(rate) && AllWays(s, Ways(arch)) && |msgs| == |blocks| == Ways(arch)
    requires forall l :: 0 <= l < Ways(arch) ==> |blocks[l]| == rate && blocks[l] == Padded(rate, ds, msgs[l])
    requires forall l :: 0 <= l < Ways(arch) ==> LaneState(s, Ways(arch), l) == AbsorbBlock(ZeroState(), blocks[l])
    ensures Due(arch, s, rate, ds, msgs, 0)
  {
    hide LaneState, AbsorbBlock, Padded, ZeroState, TurboShake.Permute, Absorb;
    forall l | 0 <= l < Ways(arch)
      ensures TurboShake.Permute(LaneState(s, Ways(arch), l)) == Iterate(Absorbed(rate, ds, msgs[l]), 0)
    {
      SpongeFacts.AbsorbOnce(rate, ZeroState(), blocks[l]);
    }
  }

  /** One permutation: the block is there, and the next one is due. */
  lemma Permuted(arch: Arch, s: seq<Vec>, t: seq<Vec>, rate: nat, ds: u8, msgs: seq<Bytes>, n: nat, done: nat)
    requires Due(arch, s, rate, ds, msgs, n) && AllWays(t, Ways(arch)) && done == n * rate
    requires forall l :: 0 <= l < Ways(arch) ==> LaneState(t, Ways(arch), l) == KeccakP(LaneState(s, Ways(arch), l), 12)
    ensures BlockReady(arch, t, rate, ds, msgs, done) && Due(arch, t, rate, ds, msgs, n + 1)
  {
    hide LaneState, KeccakP, Absorbed, BlockReady;
    BlockFromState(arch, t, rate, ds, msgs, n, done);
  }

  function Lanes(arch: Arch, s: seq<Vec>): (a: seq<State>)
    requires AllWays(s, Ways(arch))
    ensures |a| == Ways(arch)
  {
    seq(Ways(arch), l requires 0 <= l < Ways(arch) => LaneState(s, Ways(arch), l))
  }

  /** One turn of the squeeze loop. */
  method SqueezeOnce(arch: Arch, state: array<Vec>, out: array2<u8>, rate: nat, ds: u8, ghost msgs: seq<Bytes>,
                     done: nat, ghost n: nat)
    returns (take: nat)
    requires state.Length == 25 && Due(arch, state[..], rate, ds, msgs, n) && done == n * rate
             && out.Length0 == Ways(arch)
    requires done < out.Length1 && Written(arch, out, rate, ds, msgs, done)
    modifies state, out
    ensures take == if out.Length1 - done < rate then out.Length1 - done else rate
    ensures Due(arch, state[..], rate, ds, msgs, n + 1) && Written(arch, out, rate, ds, msgs, done + take)
  {
    DueShape(arch, state[..], rate, ds, msgs, n);
    ghost var s := state[..];
    ghost var start := Lanes(arch, s);
    hide Due, LaneState, BlockReady, StreamByte;
    VecKeccak.Permute(arch, Ways(arch), state, start);
    Permuted(arch, s, state[..], rate, ds, msgs, n, done);
    take := if out.Length1 - done < rate then out.Length1 - done else rate;
    SqueezeBlock(arch, state, out, rate, ds, msgs, done, take);
  }

  lemma DueShape(arch: Arch, s: seq<Vec>, rate: nat, ds: u8, msgs: seq<Bytes>, n: nat)
    requires Due(arch, s, rate, ds, msgs, n)
    ensures IsRate(rate) && rate > 0 && AllWays(s, Ways(arch)) && |msgs| == Ways(arch)
  {
  }

  lemma NextBlock(n: nat, rate: nat, done: nat)
    requires done == n * rate
    ensures done + rate == (n + 1) * rate
  {
  }

  function Messages(prefix: Bytes, suffixes: seq<Bytes>): (m: seq<Bytes>)
    ensures |m| == |suffixes|
  {
    seq(|suffixes|, l requires 0 <= l < |suffixes| => prefix + suffixes[l])
  }

  /** Every sponge's padded block. */
  method PadBlocks(arch: Arch, rate: nat, ds: u8, prefix: Bytes, suffixes: seq<Bytes>) returns (blocks: seq<Bytes>)
    requires IsRate(rate) && 1 <= ds <= 0x7F && |prefix| == 32 && |suffixes| == Ways(arch)
    requires forall l :: 0 <= l < Ways(arch) ==> 32 + |suffixes[l]| < rate
    ensures |blocks| == Ways(arch)
    ensures forall l :: 0 <= l < Ways(arch) ==>
            |blocks[l]| == rate && blocks[l] == Padded(rate, ds, Messages(prefix, suffixes)[l])
  {
    hide Padded;
    blocks := [];
    for l := 0 to Ways(arch)
      invariant |blocks| == l
      invariant forall k :: 0 <= k < l ==> |blocks[k]| == rate && blocks[k] == Padded(rate, ds, prefix + suffixes[k])
    {
      var b := PadBlock(rate, ds, prefix, suffixes[l]);
      OneBlock(rate, ds, prefix + suffixes[l]);
      blocks := blocks + [b];
    }
  }

  lemma OneBlock(rate: nat, ds: u8, msg: Bytes)
    requires IsRate(rate) && |msg| < rate && ds < 0x80
    ensures |Padded(rate, ds, msg)| == rate
  {
    hide Padding;
    PaddingIs(rate, ds, msg);
  }

  /** `xof4` and `xof2`: row `l` of `out` is the TurboSHAKE output of `prefix` and suffix `l`. */
  method Xof(arch: Arch, rate: nat, ds: u8, prefix: Bytes, suffixes: seq<Bytes>, out: array2<u8>)
    requires IsRate(rate) && 1 <= ds <= 0x7F && |prefix| == 32 && |suffixes| == Ways(arch) == out.Length0
    requires forall l :: 0 <= l < Ways(arch) ==> 32 + |suffixes[l]| < rate
    modifies out
    ensures forall l, p :: 0 <= l < Ways(arch) && 0 <= p < out.Length1 ==>
            out[l, p] == StreamByte(rate, ds, prefix + suffixes[l], p)
  {
    ghost var msgs := Messages(prefix, suffixes);
    hide StreamByte, Due, LaneState, AbsorbBlock, Padded;
    var blocks := PadBlocks(arch, rate, ds, prefix, suffixes);
    var state := PlaceBlocks(arch, rate, blocks);
    FirstDue(arch, state[..], rate, ds, msgs, blocks);
    var done: nat := 0;
    ghost var n: nat := 0;
    while done < out.Length1
      invariant done == (if n * rate <= out.Length1 then n * rate else out.Length1)
      invariant Due(arch, state[..], rate, ds, msgs, n) && Written(arch, out, rate, ds, msgs, done)
      decreases out.Length1 - done
    {
      var take := SqueezeOnce(arch, state, out, rate, ds, msgs, done, n);
      NextBlock(n, rate, done);
      done, n := done + take, n + 1;
    }
    assert forall l :: 0 <= l < Ways(arch) ==> msgs[l] == prefix + suffixes[l];
  }
}
