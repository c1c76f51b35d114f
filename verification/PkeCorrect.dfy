/** What the encryption scheme promises: a re-parsed key encrypts like the cached one, and decryption
    returns the message exactly when the noise is small enough. */
module PkeCorrect {
  import opened Words
  import opened Congruence
  import opened Bits
  import opened Positional
  import opened Ser
  import opened Fields
  import opened Params
  import opened Levels
  import opened Polynomial
  import opened RingMul
  import opened Schoolbook
  import opened NttArith
  import opened PlainArith
  import opened Sample
  import opened Pke

  // -------------------------------------------------------------------------------------------
  // Inner products modulo 2^10
  // -------------------------------------------------------------------------------------------

  /** `b` with only the 10 bits that are packed. */
  function LowVector(b: seq<Elem>): (r: seq<Elem>)
    ensures |r| == |b|
  {
    seq(|b|, i requires 0 <= i < |b| => UnpackElem(PackElem(b[i])))
  }

  lemma LowElemAt(e: Elem, k: nat)
    requires k < 256
    ensures UnpackElem(PackElem(e))[k] == e[k] % 1024
  {
    UnpackAfterPack(10, e);
    Pow2Values();
    hide Pack, Unpack, Pow2;
  }

  lemma LowVectorCong(b: seq<Elem>)
    ensures CongAll(RawAll(b), RawAll(LowVector(b)), 1024)
  {
    hide Cong, PackElem, UnpackElem;
    forall j, k | 0 <= j < |b| && 0 <= k < 256
      ensures Cong(RawAll(b)[j][k], RawAll(LowVector(b))[j][k], 1024)
    {
      LowElemAt(b[j], k);
      Witness(b[j][k], b[j][k] % 1024, b[j][k] / 1024, 1024);
    }
  }

  /** Dropping the bits above the tenth changes inner products by multiples of 2^10. */
  lemma DotLow(b: seq<Elem>, s: seq<Elem>, k: nat)
    requires |b| == |s| && k < 256
    ensures Dot(b, s)[k] % 1024 == Dot(LowVector(b), s)[k] % 1024
  {
    LowVectorCong(b);
    CongAllRefl(RawAll(s), 1024);
    DotPolyCong(RawAll(b), RawAll(LowVector(b)), RawAll(s), RawAll(s), |b|, k, 1024);
    var x, y := DotPoly(RawAll(b), RawAll(s), |b|)[k], DotPoly(RawAll(LowVector(b)), RawAll(s), |b|)[k];
    ToMod(x, y, 1024);
    LowOfWrap(x);
    LowOfWrap(y);
  }

  lemma LowOfWrap(x: int)
    ensures WrapU16(x) % 1024 == x % 1024
  {
  }

  // -------------------------------------------------------------------------------------------
  // A re-parsed key
  // -------------------------------------------------------------------------------------------

  /** Coefficient `k` of `v' - m * 2^9 + h1`, as a wrapping word. */
  function Shifted(v: Elem, msg: Bytes, k: nat): u16
    requires k < 256
  {
    AddToAll(Minus(v, MessageElem(msg)), 4)[k]
  }

  lemma ShiftedLow(v: Elem, v': Elem, msg: Bytes, k: nat)
    requires k < 256 && v[k] % 1024 == v'[k] % 1024
    ensures Shifted(v, msg, k) % 1024 == Shifted(v', msg, k) % 1024
  {
    ShiftedIs(v, msg, k);
    ShiftedIs(v', msg, k);
    hide *;
    ModShift(v[k], v'[k], 4 - MessageElem(msg)[k] as int);
  }

  lemma ModShift(x: int, y: int, c: int)
    requires x % 1024 == y % 1024
    ensures (x + c) % 1024 == (y + c) % 1024
  {
  }

  lemma ShiftedIs(v: Elem, msg: Bytes, k: nat)
    requires k < 256
    ensures Shifted(v, msg, k) % 1024 == (v[k] as int + (4 - MessageElem(msg)[k] as int)) % 1024
  {
    var m: int := MessageElem(msg)[k];
    var d := WrapU16(v[k] as int - m);
    assert Shifted(v, msg, k) == WrapU16(d as int + 4) by { hide WrapU16, MessageElem; }
    hide *;
    LowOfWrap(d as int + 4);
    LowOfWrap(v[k] as int - m);
    ModShift(d, v[k] as int - m, 4);
  }

  /** The kept bits of the message part are bits 10 - t to 9. */
  lemma KeptBits(t: nat, v: Elem, msg: Bytes, k: nat)
    requires t <= 10 && k < 256
    ensures Masked(t, CPart(t, v, msg))[k] == Slice(Shifted(v, msg, k), 10 - t, t)
  {
    hide AddToAll, Minus, MessageElem, Pow2;
  }

  lemma SliceLow(x: nat, y: nat, t: nat)
    requires t <= 10 && x % 1024 == y % 1024
    ensures Slice(x, 10 - t, t) == Slice(y, 10 - t, t)
  {
    SliceOfSlice(x, 0, 10, 10 - t, t);
    SliceOfSlice(y, 0, 10, 10 - t, t);
    SliceZero(x);
    SliceZero(y);
  }

  lemma SliceZero(x: nat)
    ensures Slice(x, 0, 10) == x % 1024
  {
    Pow2Values();
    assert x / 1 == x;
  }

  /** The message part does not depend on bits 10 and up of `v'`. */
  lemma CPartLow(t: nat, v: Elem, v': Elem, msg: Bytes)
    requires t <= 10 && forall k :: 0 <= k < 256 ==> v[k] % 1024 == v'[k] % 1024
    ensures Pack(t, CPart(t, v, msg)) == Pack(t, CPart(t, v', msg))
  {
    hide CPart, Slice, Shifted, Masked;
    forall k | 0 <= k < 256
      ensures Masked(t, CPart(t, v, msg))[k] == Masked(t, CPart(t, v', msg))[k]
    {
      KeptBits(t, v, msg, k);
      KeptBits(t, v', msg, k);
      ShiftedLow(v, v', msg, k);
      SliceLow(Shifted(v, msg, k), Shifted(v', msg, k), t);
    }
    assert Masked(t, CPart(t, v, msg)) == Masked(t, CPart(t, v', msg));
  }

  /** Encrypting with the cached vector, bits 10 to 12 and all, gives the same bytes as encrypting with
      the vector a re-parsed key has. */
  lemma LowVectorEncryptsAlike(ps: ParamSet, seed: Bytes, b: seq<Elem>, msg: Bytes, r: Bytes)
    requires IsParamSet(ps) && |b| == ps.l
    ensures Ciphertext(ps, seed, b, msg, r) == Ciphertext(ps, seed, LowVector(b), msg, r)
  {
    var sp := GenSecret(ps.l, ps.mu, r);
    hide GenSecret, GenMatrix, Dot, Pack, CPart, LowVector, Flat, PackVector, BPrime;
    forall k | 0 <= k < 256
      ensures Dot(b, sp)[k] % 1024 == Dot(LowVector(b), sp)[k] % 1024
    {
      DotLow(b, sp, k);
    }
    CPartLow(ps.t, Dot(b, sp), Dot(LowVector(b), sp), msg);
  }

  /** The vector of the key that `from_bytes` builds from `serialize`'s output. */
  lemma ReparsedVector(l: nat, pk: PublicKey, b: seq<Elem>)
    requires IsKey(l, pk, b) && |pk.matrixSeed| == 32
    ensures |KeyBytes(pk)| == 320 * l + 32 && KeyBytes(pk)[320 * l..] == pk.matrixSeed
    ensures UnpackVector(l, KeyBytes(pk)[..320 * l]) == LowVector(b)
  {
    var bytes := KeyBytes(pk);
    assert bytes[..320 * l] == Flat(pk.vecBytes);
    hide TransformsMatrix, TransformsVector, UnpackElem, PackElem, Flat, Chunk;
    forall i | 0 <= i < l
      ensures UnpackVector(l, Flat(pk.vecBytes))[i] == LowVector(b)[i]
    {
      ChunkOfFlat(pk.vecBytes, [], i);
      assert Flat(pk.vecBytes) + [] == Flat(pk.vecBytes);
    }
  }

  /** A key and the key parsed from its serialization: the same bytes, the same hash, the same
      ciphertext for every message and randomness. */
  lemma ReparsedKeyAgrees(ps: ParamSet, pk: PublicKey, b: seq<Elem>, pk': PublicKey, b': seq<Elem>, msg: Bytes,
                          r: Bytes)
    requires IsParamSet(ps) && IsKey(ps.l, pk, b) && |pk.matrixSeed| == 32 && IsKey(ps.l, pk', b')
    requires var bytes := KeyBytes(pk);
             && |bytes| == 320 * ps.l + 32 && b' == UnpackVector(ps.l, bytes[..320 * ps.l])
             && pk'.matrixSeed == bytes[320 * ps.l..] && KeyBytes(pk') == bytes
    ensures KeyHash(KeyBytes(pk')) == KeyHash(KeyBytes(pk))
    ensures Ciphertext(ps, pk'.matrixSeed, b', msg, r) == Ciphertext(ps, pk.matrixSeed, b, msg, r)
  {
    hide IsKey, Ciphertext, KeyBytes;
    ReparsedVector(ps.l, pk, b);
    LowVectorEncryptsAlike(ps, pk.matrixSeed, b, msg, r);
  }

  // -------------------------------------------------------------------------------------------
  // Decryption
  // -------------------------------------------------------------------------------------------

  /** What truncating the message part to `t` bits throws away: bits 0 to 9 - t. */
  function Dropped(t: nat, v: Elem, msg: Bytes, k: nat): (rho: nat)
    requires t <= 10 && k < 256
    ensures rho < Pow2(10 - t)
  {
    Ser.Low(10 - t, Shifted(v, msg, k))
  }

  /** Whether coefficient `k` survives: decryption's `v` and encryption's `v'`, with the truncation and
      the rounding constants added, differ by less than half of 2^10, modulo 2^10. */
  predicate Survives(t: nat, v: Elem, v': Elem, msg: Bytes, k: nat)
    requires 1 <= t <= 9 && k < 256
  {
    (v[k] - v'[k] + Dropped(t, v', msg, k) + 256 - Pow2(9 - t)) % 1024 < 512
  }

  /** Bit `k` of the message. */
  function MessageBit(msg: Bytes, k: nat): (b: nat)
    requires k < 256
    ensures b < 2
  {
    assert Pow2(1) == 2;
    Unpack(1, 256, msg)[k]
  }

  lemma MessageAt(msg: Bytes, k: nat)
    requires k < 256
    ensures MessageElem(msg)[k] == 512 * MessageBit(msg, k)
  {
    Pow2Values();
    hide Pow2, Unpack;
  }

  /** The coefficient decryption looks at, before the final shift. */
  function Looked(t: nat, v: Elem, c: Elem, k: nat): u16
    requires 1 <= t <= 9 && k < 256
  {
    AddToAll(Minus(v, ShiftLeft(c, 10 - t)), H2(t))[k]
  }

  lemma LookedIs(t: nat, v: Elem, c: Elem, k: nat)
    requires 1 <= t <= 9 && k < 256
    ensures Looked(t, v, c, k) % 1024 == (v[k] as int - c[k] as int * Pow2(10 - t) + H2(t)) % 1024
  {
    var cl := WrapU16(c[k] as int * Pow2(10 - t));
    var d := WrapU16(v[k] as int - cl as int);
    assert Looked(t, v, c, k) == WrapU16(d as int + H2(t)) by { hide WrapU16, H2, Pow2; }
    hide *;
    LowOfWrap(d as int + H2(t));
    LowOfWrap(v[k] as int - cl as int);
    LowOfWrap(c[k] as int * Pow2(10 - t));
    ModShift(d, v[k] as int - cl as int, H2(t));
    ModNegate(cl, c[k] as int * Pow2(10 - t), v[k] as int + H2(t));
  }

  lemma ModNegate(x: int, y: int, c: int)
    requires x % 1024 == y % 1024
    ensures (c - x) % 1024 == (c - y) % 1024
  {
  }

  /** The bits that are kept and the bits that are dropped make up the low ten. */
  lemma KeptAndDropped(w: nat, t: nat)
    requires t <= 10
    ensures w % 1024 == Slice(w, 10 - t, t) * Pow2(10 - t) + Ser.Low(10 - t, w)
  {
    SliceZero(w);
    SliceOfSlice(w, 0, 10, 10 - t, t);
    var y, p := w % 1024, Pow2(10 - t);
    Pow2Add(10 - t, t);
    Pow2Values();
    hide Slice, Pow2;
    TopOf(y, t, p, Pow2(t));
    LowOfLow(w, p, Pow2(t));
  }

  lemma TopOf(y: nat, t: nat, p: nat, q: nat)
    requires t <= 10 && p == Pow2(10 - t) && q == Pow2(t) && p * q == 1024 && y < 1024
    ensures y == Slice(y, 10 - t, t) * p + y % p
  {
    Divide(y, p);
    QuotientBelow(p, y, q);
    ModBound(y, p);
    assert Slice(y, 10 - t, t) == y / p % q;
    hide *;
    DivUnique(y / p, q, 0, y / p);
  }

  lemma LowOfLow(w: nat, p: nat, q: nat)
    requires p > 0 && q > 0 && p * q == 1024
    ensures w % 1024 % p == w % p
  {
    var u, r := w / 1024, w % 1024;
    ModBound(r, p);
    Divide(r, p);
    assert p * (q * u) == 1024 * u;
    DivUnique(w, p, q * u + r / p, r % p);
  }

  /** The bit decryption reads at coefficient `k` is the message's exactly when the coefficient
      survives. */
  lemma BitDecrypts(t: nat, v: Elem, v': Elem, msg: Bytes, c: Elem, k: nat)
    requires 1 <= t <= 9 && k < 256 && c[k] == Masked(t, CPart(t, v', msg))[k]
    ensures Slice(Looked(t, v, c, k), 9, 1) == MessageBit(msg, k) <==> Survives(t, v, v', msg, k)
  {
    var w, rho, bit := Shifted(v', msg, k), Dropped(t, v', msg, k), MessageBit(msg, k);
    var n := v[k] as int - v'[k] as int + rho + 256 - Pow2(9 - t);
    assert rho == Ser.Low(10 - t, w);
    SurvivesIs(t, v, v', msg, k, rho, n);
    assert H2(t) == 256 - Pow2(9 - t) + 4 by { H2Positive(t); }
    hide *;
    KeptBits(t, v', msg, k);
    KeptAndDropped(w, t);
    LookedIs(t, v, c, k);
    ShiftedIs(v', msg, k);
    MessageAt(msg, k);
    NoiseStep(w, v'[k], bit, c[k] as int * Pow2(10 - t), rho, v[k], H2(t), Pow2(9 - t), Looked(t, v, c, k), n);
    TopBit(Looked(t, v, c, k));
    BitTest(Looked(t, v, c, k), n, bit);
  }

  lemma SurvivesIs(t: nat, v: Elem, v': Elem, msg: Bytes, k: nat, rho: int, n: int)
    requires 1 <= t <= 9 && k < 256 && rho == Dropped(t, v', msg, k)
             && n == v[k] as int - v'[k] as int + rho + 256 - Pow2(9 - t)
    ensures Survives(t, v, v', msg, k) == (n % 1024 < 512)
  {
    hide Dropped, Pow2;
  }

  lemma NoiseStep(w: int, v': int, bit: int, cl: int, rho: int, v: int, h2: int, p: int, z: int, n: int)
    requires w % 1024 == (v' + (4 - 512 * bit)) % 1024 && w % 1024 == cl + rho
    requires z % 1024 == (v - cl + h2) % 1024 && h2 == 256 - p + 4 && n == v - v' + rho + 256 - p
    ensures z % 1024 == (n + 512 * bit) % 1024
  {
    ModNegate(w % 1024, v' + (4 - 512 * bit), v + rho + h2);
  }

  lemma TopBit(z: nat)
    ensures Slice(z, 9, 1) == if z % 1024 < 512 then 0 else 1
  {
    SliceZero(z);
    SliceOfSlice(z, 0, 10, 9, 1);
    Pow2Values();
    hide Pow2;
  }

  lemma BitTest(z: int, n: int, bit: int)
    requires 0 <= bit < 2 && z % 1024 == (n + 512 * bit) % 1024
    ensures (if z % 1024 < 512 then 0 else 1) == bit <==> n % 1024 < 512
  {
  }

  /** A packed bit string is the message exactly when its bits are the message's. */
  lemma PackOneIs(m: Elem, msg: Bytes)
    requires |msg| == 32
    ensures Pack(1, m) == msg <==> Masked(1, m) == Unpack(1, 256, msg)
  {
    hide Pack, Unpack, Masked;
    UnpackAfterPack(1, m);
    PackAfterUnpack(1, 256, msg);
    MaskedSmall(1, Unpack(1, 256, msg));
    if Masked(1, m) == Unpack(1, 256, msg) { PackOfMasked(1, m, Unpack(1, 256, msg)); }
  }

  /** Packing looks at the masked words only. */
  lemma PackOfMasked(w: nat, a: seq<u16>, b: seq<u16>)
    requires |a| == |b| && Masked(w, a) == Masked(w, b)
    ensures Pack(w, a) == Pack(w, b)
  {
    hide Masked, Num, Digits;
  }

  /** Decryption's inner product with the vector the ciphertext carries. */
  function Received(l: nat, a: Matrix<Elem>, sp: seq<Elem>, s: seq<Elem>): Elem
    requires IsMatrix(a, l, l) && |sp| == |s| == l
  {
    Dot(LowVector(BPrime(l, a, sp)), s)
  }

  /** What decryption parses out of a ciphertext. */
  lemma CiphertextParts(ps: ParamSet, a: Matrix<Elem>, b: seq<Elem>, sp: seq<Elem>, msg: Bytes)
    requires IsParamSet(ps) && IsMatrix(a, ps.l, ps.l) && |b| == |sp| == ps.l
    ensures var ct := CiphertextOf(ps, a, b, sp, msg);
            && UnpackVector(ps.l, ct[..320 * ps.l]) == LowVector(BPrime(ps.l, a, sp))
            && Unpack(ps.t, 256, ct[320 * ps.l..]) == Masked(ps.t, CPart(ps.t, Dot(b, sp), msg))
  {
    var bp, c := BPrime(ps.l, a, sp), CPart(ps.t, Dot(b, sp), msg);
    var chunks := PackVector(bp);
    hide BPrime, CPart, Dot, Pack, Unpack, Masked, Flat, PackElem, UnpackElem, Chunk;
    var ct := CiphertextOf(ps, a, b, sp, msg);
    assert ct[..320 * ps.l] == Flat(chunks) && ct[320 * ps.l..] == Pack(ps.t, c);
    forall i | 0 <= i < ps.l
      ensures UnpackVector(ps.l, Flat(chunks))[i] == LowVector(bp)[i]
    {
      ChunkOfFlat(chunks, [], i);
      assert Flat(chunks) + [] == Flat(chunks);
    }
    UnpackAfterPack(ps.t, c);
  }

  lemma PlaintextIs(t: nat, v: Elem, v': Elem, msg: Bytes, c: Elem)
    requires 1 <= t <= 9 && |msg| == 32 && c == Masked(t, CPart(t, v', msg))
    ensures PlaintextOf(t, v, c) == msg <==> forall k :: 0 <= k < 256 ==> Survives(t, v, v', msg, k)
  {
    var m := ShiftRight(AddToAll(Minus(v, ShiftLeft(c, 10 - t)), H2(t)), 9);
    assert PlaintextOf(t, v, c) == Pack(1, m) by { hide Pack, ShiftRight, AddToAll, Minus, ShiftLeft, H2; }
    forall k | 0 <= k < 256
      ensures Masked(1, m)[k] == Unpack(1, 256, msg)[k] <==> Survives(t, v, v', msg, k)
    {
      BitOf(t, v, c, k, m);
      MessageBitIs(msg, k);
      BitDecrypts(t, v, v', msg, c, k);
    }
    hide *;
    PackOneIs(m, msg);
    assert Masked(1, m) == Unpack(1, 256, msg) <==> forall k :: 0 <= k < 256 ==>
           Masked(1, m)[k] == Unpack(1, 256, msg)[k];
  }

  lemma MessageBitIs(msg: Bytes, k: nat)
    requires k < 256
    ensures Unpack(1, 256, msg)[k] == MessageBit(msg, k)
  {
    hide Unpack;
  }

  lemma BitOf(t: nat, v: Elem, c: Elem, k: nat, m: Elem)
    requires 1 <= t <= 9 && k < 256 && m == ShiftRight(AddToAll(Minus(v, ShiftLeft(c, 10 - t)), H2(t)), 9)
    ensures Masked(1, m)[k] == Slice(Looked(t, v, c, k), 9, 1)
  {
    hide AddToAll, Minus, ShiftLeft, H2, Pow2;
  }

  /** Decryption undoes encryption exactly when every coefficient survives. */
  lemma DecryptsIff(ps: ParamSet, a: Matrix<Elem>, b: seq<Elem>, sp: seq<Elem>, s: seq<Elem>, msg: Bytes)
    requires IsParamSet(ps) && IsMatrix(a, ps.l, ps.l) && |b| == |sp| == |s| == ps.l && |msg| == 32
    ensures Plaintext(ps, s, CiphertextOf(ps, a, b, sp, msg)) == msg
            <==> forall k :: 0 <= k < 256 ==> Survives(ps.t, Received(ps.l, a, sp, s), Dot(b, sp), msg, k)
  {
    CiphertextParts(ps, a, b, sp, msg);
    hide CiphertextOf, PlaintextOf, Dot, LowVector, BPrime, CPart, Masked, Unpack, UnpackVector, Survives;
    PlaintextIs(ps.t, Received(ps.l, a, sp, s), Dot(b, sp), msg, Masked(ps.t, CPart(ps.t, Dot(b, sp), msg)));
  }

  /** A noise of at most `2^8 - 2^(9 - t)` either way is survived, whatever was truncated. */
  lemma SmallNoiseSurvives(t: nat, v: Elem, v': Elem, msg: Bytes, k: nat, delta: int)
    requires 1 <= t <= 9 && k < 256 && Cong(v[k] as int - v'[k] as int, delta, 1024)
    requires -(256 - Pow2(9 - t)) <= delta <= 256 - Pow2(9 - t)
    ensures Survives(t, v, v', msg, k)
  {
    var rho, p := Dropped(t, v', msg, k), Pow2(9 - t);
    assert Pow2(10 - t) == 2 * p;
    hide Dropped, Pow2, Cong;
    ToMod(v[k] as int - v'[k] as int, delta, 1024);
    ModShift(v[k] as int - v'[k] as int, delta, rho + 256 - p);
    InRange(delta + rho + 256 - p);
  }

  lemma InRange(x: int)
    requires 0 <= x < 512
    ensures x % 1024 < 512
  {
  }
}
