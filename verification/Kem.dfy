/** The IND-CCA-secure key encapsulation mechanism (`src/kem.rs`): the Fujisaki-Okamoto check by
    re-encryption, and implicit rejection. */
module Kem {
  import opened Words
  import opened Bits
  import opened Ser
  import opened RingMul
  import opened NttArith
  import opened Schoolbook
  import opened PlainArith
  import opened TurboShake
  import opened Sample
  import opened Pke
  import opened PkeCorrect
  import opened Noise
  import SpongeFacts

  const DOMSEP_FO: u8 := 0x05
  const DOMSEP_NOREJECT: u8 := 0x06

  datatype KemPublicKey = KemPublicKey(pkePk: PublicKey, hash: Bytes)

  datatype KemSecretKey = KemSecretKey(seed: Bytes, z: Bytes, pkeSk: Matrix<NttElem>, kemPk: KemPublicKey)

  // -------------------------------------------------------------------------------------------
  // What is derived from what
  // -------------------------------------------------------------------------------------------

  /** The shared secret and the encryption randomness come from one stream. */
  function SharedSecret(m: Bytes, pkh: Bytes): Bytes {
    Stream(RATE_256, DOMSEP_FO, m + pkh, 0, 32)
  }

  function Randomness(m: Bytes, pkh: Bytes): Bytes {
    Stream(RATE_256, DOMSEP_FO, m + pkh, 32, 32)
  }

  function Rejection(z: Bytes, ct: Bytes): Bytes {
    Stream(RATE_256, DOMSEP_NOREJECT, z + ct, 0, 32)
  }

  /** Secret and randomness are the two halves of 64 bytes of TurboSHAKE256 over message and key hash. */
  lemma DerivedAre(m: Bytes, pkh: Bytes)
    ensures var st := Stream(136, 0x05, m + pkh, 0, 64);
            SharedSecret(m, pkh) == st[..32] && Randomness(m, pkh) == st[32..]
    ensures SharedSecret(m, pkh) + Randomness(m, pkh) == Stream(136, 0x05, m + pkh, 0, 64)
  {
    hide Stream;
    SpongeFacts.StreamConcat(136, 0x05, m + pkh, 0, 32, 32);
  }

  lemma RejectionIs(z: Bytes, ct: Bytes)
    ensures Rejection(z, ct) == Stream(136, 0x06, z + ct, 0, 32)
  {
    hide Stream;
  }

  /** The ciphertext of `m` under matrix seed, vector and key hash. */
  function Encapsulated(ps: ParamSet, seed: Bytes, b: seq<Elem>, pkh: Bytes, m: Bytes): (ct: Bytes)
    requires IsParamSet(ps) && |b| == ps.l
    ensures |ct| == CiphertextLen(ps)
  {
    Ciphertext(ps, seed, b, m, Randomness(m, pkh))
  }

  /** A public key for vector `b`, with its own hash. */
  ghost predicate IsKemKey(l: nat, pk: KemPublicKey, b: seq<Elem>) {
    IsKey(l, pk.pkePk, b) && |pk.pkePk.matrixSeed| == 32 && pk.hash == KeyHash(KeyBytes(pk.pkePk))
  }

  /** A secret key for secret vector `s`, whose public vector is the rounded product. */
  ghost predicate IsKemSecret(ps: ParamSet, sk: KemSecretKey, s: seq<Elem>) {
    && IsParamSet(ps) && |s| == ps.l && TransformsVector(false, sk.pkeSk, s)
    && (forall k :: 0 <= k < ps.l ==> IsSecret(s[k], ps.mu / 2))
    && IsKemKey(ps.l, sk.kemPk, KeyVector(ps.l, GenMatrix(ps.l, sk.kemPk.pkePk.matrixSeed), s))
  }

  // -------------------------------------------------------------------------------------------
  // The methods
  // -------------------------------------------------------------------------------------------

  /** `expand_from_seed`. */
  method ExpandFromSeed(backend: Backend, ps: ParamSet, seed: Bytes) returns (sk: KemSecretKey)
    requires IsParamSet(ps)
    ensures IsKemSecret(ps, sk, GenSecret(ps.l, ps.mu, SecretSeed(ps.l, seed)))
    ensures sk.seed == seed && sk.z == RejectSeed(ps.l, seed)
    ensures var st := Stream(136, 0x01, seed + [ps.l], 0, 96);
            && sk.kemPk.pkePk.matrixSeed == st[..32] && sk.z == st[64..]
            && TransformsVector(false, sk.pkeSk, GenSecret(ps.l, ps.mu, st[32..64]))
    ensures sk.kemPk.hash == Stream(136, 0x04, KeyBytes(sk.kemPk.pkePk), 0, 32)
  {
    Shape(ps);
    hide *;
    var pkeSk, z, pkePk, pkh := ExpandSecretKey(backend, ps, seed);
    sk := KemSecretKey(seed, z, pkeSk, KemPublicKey(pkePk, pkh));
    SecretsSmall(ps.l, ps.mu, SecretSeed(ps.l, seed));
    SeedLen(ps.l, seed);
    SecretMade(ps, sk, GenSecret(ps.l, ps.mu, SecretSeed(ps.l, seed)));
  }

  lemma SeedLen(l: u8, seed: Bytes)
    ensures |MatSeed(l, seed)| == 32
  {
  }

  lemma SecretMade(ps: ParamSet, sk: KemSecretKey, s: seq<Elem>)
    requires IsParamSet(ps) && |s| == ps.l && TransformsVector(false, sk.pkeSk, s) && |sk.kemPk.pkePk.matrixSeed| == 32
    requires forall k :: 0 <= k < ps.l ==> IsSecret(s[k], ps.mu / 2)
    requires IsKey(ps.l, sk.kemPk.pkePk, KeyVector(ps.l, GenMatrix(ps.l, sk.kemPk.pkePk.matrixSeed), s))
    requires sk.kemPk.hash == KeyHash(KeyBytes(sk.kemPk.pkePk))
    ensures IsKemSecret(ps, sk, s)
  {
    hide TransformsVector, IsSecret, KeyVector, GenMatrix, KeyHash, KeyBytes, IsParamSet;
  }

  /** `from_bytes_inner`: parse, then hash again. */
  method FromBytesInner(backend: Backend, l: nat, bytes: Bytes) returns (pk: KemPublicKey)
    requires l <= 256 && |bytes| == 320 * l + 32
    ensures IsKemKey(l, pk, UnpackVector(l, bytes[..320 * l])) && pk.pkePk.matrixSeed == bytes[320 * l..]
    ensures KeyBytes(pk.pkePk) == bytes && pk.hash == Stream(136, 0x04, bytes, 0, 32)
  {
    KeyHashIs(bytes);
    hide Stream, UnpackVector, KeyBytes, KeyHash, TransformsMatrix, TransformsVector, PackVector;
    var pkePk := FromBytes(backend, l, bytes);
    var hash := Hash(pkePk);
    pk := KemPublicKey(pkePk, hash);
  }

  /** `k || r` read from the stream over `m || pkh`. */
  method ReadFo(m: Bytes, pkh: Bytes) returns (k: Bytes, r: Bytes)
    ensures k == SharedSecret(m, pkh) && r == Randomness(m, pkh)
    ensures |k| == |r| == 32 && k + r == Stream(136, 0x05, m + pkh, 0, 64)
  {
    DerivedAre(m, pkh);
    hide Stream;
    var kBuf, rBuf := new u8[32](_ => 0), new u8[32](_ => 0);
    var xof := new Reader(RATE_256, DOMSEP_FO, m + pkh);
    xof.Read(kBuf);
    k := kBuf[..];
    xof.Read(rBuf);
    r := rBuf[..];
  }

  /** `encap_deterministic`. */
  method Encap(backend: Backend, ps: ParamSet, randomness: Bytes, pk: KemPublicKey, ghost b: seq<Elem>, out: array<u8>)
    returns (ss: Bytes)
    requires IsParamSet(ps) && IsKemKey(ps.l, pk, b) && |randomness| == 32 && out.Length == CiphertextLen(ps)
    modifies out
    ensures ss == SharedSecret(randomness, pk.hash)
    ensures out[..] == Encapsulated(ps, pk.pkePk.matrixSeed, b, pk.hash, randomness)
    ensures var st := Stream(136, 0x05, randomness + pk.hash, 0, 64);
            ss == st[..32] && out[..] == Ciphertext(ps, pk.pkePk.matrixSeed, b, randomness, st[32..])
  {
    KemKeyParts(ps.l, pk, b);
    DerivedAre(randomness, pk.hash);
    EncapsulatedIs(ps, pk.pkePk.matrixSeed, b, pk.hash, randomness);
    hide *;
    var k, r := ReadFo(randomness, pk.hash);
    Encrypt(backend, ps, pk.pkePk, b, randomness, r, out);
    ss := k;
  }

  lemma EncapsulatedIs(ps: ParamSet, seed: Bytes, b: seq<Elem>, pkh: Bytes, m: Bytes)
    requires IsParamSet(ps) && |b| == ps.l
    ensures Encapsulated(ps, seed, b, pkh, m) == Ciphertext(ps, seed, b, m, Randomness(m, pkh))
  {
    hide Ciphertext, Randomness, IsParamSet;
  }

  lemma KemKeyParts(l: nat, pk: KemPublicKey, b: seq<Elem>)
    requires IsKemKey(l, pk, b)
    ensures IsKey(l, pk.pkePk, b) && |b| == l && pk.hash == KeyHash(KeyBytes(pk.pkePk)) && |pk.pkePk.matrixSeed| == 32
  {
  }

  /** What decapsulation returns: the derived secret when re-encrypting what was decrypted gives the
      ciphertext back byte for byte, and a value derived from `z` otherwise. */
  function Decapsulated(ps: ParamSet, seed: Bytes, b: seq<Elem>, s: seq<Elem>, pkh: Bytes, z: Bytes, ct: Bytes): Bytes
    requires IsParamSet(ps) && |b| == |s| == ps.l && |ct| == CiphertextLen(ps)
  {
    var m := Plaintext(ps, s, ct);
    if Encapsulated(ps, seed, b, pkh, m) == ct then SharedSecret(m, pkh) else Rejection(z, ct)
  }

  /** Decapsulation's second half: derive again, encrypt again, compare. */
  method Reencrypt(backend: Backend, ps: ParamSet, pk: KemPublicKey, ghost b: seq<Elem>, m: Bytes, ct: Bytes)
    returns (k: Bytes, matched: bool)
    requires IsParamSet(ps) && IsKemKey(ps.l, pk, b) && |b| == ps.l && |m| == 32 && |ct| == CiphertextLen(ps)
    ensures k == SharedSecret(m, pk.hash)
    ensures matched == (Encapsulated(ps, pk.pkePk.matrixSeed, b, pk.hash, m) == ct)
  {
    KemKeyParts(ps.l, pk, b);
    EncapsulatedIs(ps, pk.pkePk.matrixSeed, b, pk.hash, m);
    hide *;
    var r;
    k, r := ReadFo(m, pk.hash);
    var buf := new u8[|ct|](_ => 0);
    Encrypt(backend, ps, pk.pkePk, b, m, r, buf);
    matched := buf[..] == ct;
  }

  /** `decap`. */
  method Decap(backend: Backend, ps: ParamSet, sk: KemSecretKey, ghost s: seq<Elem>, ct: Bytes) returns (ss: Bytes)
    requires IsKemSecret(ps, sk, s) && |ct| == CiphertextLen(ps)
    ensures var seed := sk.kemPk.pkePk.matrixSeed;
            ss == Decapsulated(ps, seed, KeyVector(ps.l, GenMatrix(ps.l, seed), s), s, sk.kemPk.hash, sk.z, ct)
    ensures var seed, m := sk.kemPk.pkePk.matrixSeed, Plaintext(ps, s, ct);
            var st := Stream(136, 0x05, m + sk.kemPk.hash, 0, 64);
            ss == if Ciphertext(ps, seed, KeyVector(ps.l, GenMatrix(ps.l, seed), s), m, st[32..]) == ct then st[..32]
                  else Stream(136, 0x06, sk.z + ct, 0, 32)
  {
    SecretParts(ps, sk, s);
    Shape(ps);
    hide *;
    ghost var seed := sk.kemPk.pkePk.matrixSeed;
    ghost var b := KeyVector(ps.l, GenMatrix(ps.l, seed), s);
    KemKeyParts(ps.l, sk.kemPk, b);
    var randomness := Decrypt(backend, ps, sk.pkeSk, s, ct);
    PlaintextLen(ps, s, ct);
    var k, matched := Reencrypt(backend, ps, sk.kemPk, b, randomness, ct);
    var reject := HashTwo(sk.z, ct);
    ss := if matched then k else reject;
    DecapsulatedIs(ps, seed, b, s, sk.kemPk.hash, sk.z, ct, randomness);
    EncapsulatedIs(ps, seed, b, sk.kemPk.hash, randomness);
    DerivedAre(randomness, sk.kemPk.hash);
    RejectionIs(sk.z, ct);
  }

  lemma SecretParts(ps: ParamSet, sk: KemSecretKey, s: seq<Elem>)
    requires IsKemSecret(ps, sk, s)
    ensures IsParamSet(ps) && |s| == ps.l && TransformsVector(false, sk.pkeSk, s)
    ensures forall k :: 0 <= k < ps.l ==> IsSecret(s[k], ps.mu / 2)
    ensures IsKemKey(ps.l, sk.kemPk, KeyVector(ps.l, GenMatrix(ps.l, sk.kemPk.pkePk.matrixSeed), s))
  {
    hide TransformsVector, IsSecret, KeyVector, GenMatrix, IsKemKey;
  }

  lemma DecapsulatedIs(ps: ParamSet, seed: Bytes, b: seq<Elem>, s: seq<Elem>, pkh: Bytes, z: Bytes, ct: Bytes, m: Bytes)
    requires IsParamSet(ps) && |b| == |s| == ps.l && |ct| == CiphertextLen(ps) && m == Plaintext(ps, s, ct)
    ensures Decapsulated(ps, seed, b, s, pkh, z, ct)
            == if Encapsulated(ps, seed, b, pkh, m) == ct then SharedSecret(m, pkh) else Rejection(z, ct)
  {
    hide Plaintext, Encapsulated, SharedSecret, Rejection, Randomness;
  }

  lemma PlaintextLen(ps: ParamSet, s: seq<Elem>, ct: Bytes)
    requires IsParamSet(ps) && |s| == ps.l && |ct| == CiphertextLen(ps)
    ensures |Plaintext(ps, s, ct)| == 32
  {
    hide Dot, UnpackVector, Unpack, ShiftRight, AddToAll, Minus, ShiftLeft, H2;
  }

  /** `turboshake256_hash` with the rejection domain separator. */
  method HashTwo(z: Bytes, ct: Bytes) returns (h: Bytes)
    ensures h == Rejection(z, ct)
  {
    hide Stream;
    var out := new u8[32](_ => 0);
    var reader := new Reader(RATE_256, DOMSEP_NOREJECT, z + ct);
    reader.Read(out);
    h := out[..];
  }

  // -------------------------------------------------------------------------------------------
  // What it promises
  // -------------------------------------------------------------------------------------------

  /** A ciphertext that decrypts to the randomness it was made from decapsulates to the encapsulated
      secret. */
  lemma HonestDecap(ps: ParamSet, seed: Bytes, b: seq<Elem>, s: seq<Elem>, pkh: Bytes, z: Bytes, m: Bytes)
    requires IsParamSet(ps) && |b| == |s| == ps.l
    requires Plaintext(ps, s, Encapsulated(ps, seed, b, pkh, m)) == m
    ensures Decapsulated(ps, seed, b, s, pkh, z, Encapsulated(ps, seed, b, pkh, m)) == SharedSecret(m, pkh)
  {
  }

  /** A ciphertext that decrypts to `m` but is not the encapsulation of `m`, a modified one for
      instance, yields the rejection value; the only ciphertext that yields a secret derived from `m`
      is the encapsulation itself. */
  lemma AcceptedExactly(ps: ParamSet, seed: Bytes, b: seq<Elem>, s: seq<Elem>, pkh: Bytes, z: Bytes, ct: Bytes,
                        m: Bytes)
    requires IsParamSet(ps) && |b| == |s| == ps.l && |ct| == CiphertextLen(ps) && Plaintext(ps, s, ct) == m
    ensures ct != Encapsulated(ps, seed, b, pkh, m) ==> Decapsulated(ps, seed, b, s, pkh, z, ct) == Rejection(z, ct)
    ensures Rejection(z, ct) != SharedSecret(m, pkh) ==>
      (Decapsulated(ps, seed, b, s, pkh, z, ct) == SharedSecret(m, pkh) <==> ct == Encapsulated(ps, seed, b, pkh, m))
  {
    hide Plaintext, Encapsulated, SharedSecret, Rejection;
  }

  /** Encapsulating to a re-parsed copy of the public key is the same as to the cached one. */
  lemma ReparsedEncap(ps: ParamSet, pk: KemPublicKey, b: seq<Elem>, pk': KemPublicKey, b': seq<Elem>, m: Bytes)
    requires IsParamSet(ps) && IsKemKey(ps.l, pk, b) && IsKemKey(ps.l, pk', b')
    requires var bytes := KeyBytes(pk.pkePk);
             && |bytes| == 320 * ps.l + 32 && b' == UnpackVector(ps.l, bytes[..320 * ps.l])
             && pk'.pkePk.matrixSeed == bytes[320 * ps.l..] && KeyBytes(pk'.pkePk) == bytes
    ensures pk'.hash == pk.hash
    ensures Encapsulated(ps, pk'.pkePk.matrixSeed, b', pk'.hash, m)
            == Encapsulated(ps, pk.pkePk.matrixSeed, b, pk.hash, m)
  {
    hide IsKey, KeyBytes, Ciphertext, KeyHash, UnpackVector;
    ReparsedKeyAgrees(ps, pk.pkePk, b, pk'.pkePk, b', m, Randomness(m, pk.hash));
  }

  /** One exchange, as a peer would run it: the public key travels as bytes, the two sides may use
      different backends, and if decryption recovers the randomness both sides hold the same secret. */
  method Exchange(alice: Backend, bob: Backend, ps: ParamSet, seed: Bytes, m: Bytes)
    returns (sent: Bytes, received: Bytes, ct: Bytes)
    requires IsParamSet(ps) && |m| == 32
    ensures |ct| == CiphertextLen(ps)
    ensures Plaintext(ps, GenSecret(ps.l, ps.mu, SecretSeed(ps.l, seed)), ct) == m ==> received == sent
  {
    Shape(ps);
    hide *;
    ghost var s := GenSecret(ps.l, ps.mu, SecretSeed(ps.l, seed));
    var sk := ExpandFromSeed(alice, ps, seed);
    ghost var b := SecretKeyVector(ps, sk, s);
    var wire := new u8[320 * ps.l + 32](_ => 0);
    Pke.Serialize(sk.kemPk.pkePk, wire);
    var bytes := wire[..];
    var pk := FromBytesInner(bob, ps.l, bytes);
    ghost var b' := UnpackVector(ps.l, bytes[..320 * ps.l]);
    var len := 320 * ps.l + 32 * ps.t;
    CiphertextLenIs(ps);
    VectorLen(ps.l, bytes);
    var out := new u8[len](_ => 0);
    sent := Encap(bob, ps, m, pk, b', out);
    ct := out[..];
    received := Decap(alice, ps, sk, s, ct);
    ReparsedEncap(ps, sk.kemPk, b, pk, b', m);
    Agreed(ps, sk, s, b, m, ct);
  }

  lemma VectorLen(l: nat, bytes: Bytes)
    requires |bytes| == 320 * l + 32
    ensures |UnpackVector(l, bytes[..320 * l])| == l
  {
  }

  /** The public vector of a secret key, and the facts about it that are needed to send the key. */
  ghost function SecretKeyVector(ps: ParamSet, sk: KemSecretKey, s: seq<Elem>): (b: seq<Elem>)
    requires IsKemSecret(ps, sk, s)
    ensures IsKemKey(ps.l, sk.kemPk, b) && |b| == ps.l
            && b == KeyVector(ps.l, GenMatrix(ps.l, sk.kemPk.pkePk.matrixSeed), s)
    ensures |sk.kemPk.pkePk.vecBytes| == ps.l && forall i :: 0 <= i < ps.l ==> |sk.kemPk.pkePk.vecBytes[i]| == 320
    ensures |sk.kemPk.pkePk.matrixSeed| == 32
  {
    KeyVector(ps.l, GenMatrix(ps.l, sk.kemPk.pkePk.matrixSeed), s)
  }

  lemma Agreed(ps: ParamSet, sk: KemSecretKey, s: seq<Elem>, b: seq<Elem>, m: Bytes, ct: Bytes)
    requires IsKemSecret(ps, sk, s) && b == KeyVector(ps.l, GenMatrix(ps.l, sk.kemPk.pkePk.matrixSeed), s)
    requires ct == Encapsulated(ps, sk.kemPk.pkePk.matrixSeed, b, sk.kemPk.hash, m)
    ensures Plaintext(ps, s, ct) == m ==>
      Decapsulated(ps, sk.kemPk.pkePk.matrixSeed, b, s, sk.kemPk.hash, sk.z, ct) == SharedSecret(m, sk.kemPk.hash)
  {
    hide Plaintext, Encapsulated, Decapsulated, SharedSecret, IsKemKey, IsSecret, TransformsVector, KeyVector;
    if Plaintext(ps, s, ct) == m {
      HonestDecap(ps, sk.kemPk.pkePk.matrixSeed, b, s, sk.kemPk.hash, sk.z, m);
    }
  }

  /** When the noise is small, decapsulation always agrees. */
  lemma SmallNoiseAgrees(ps: ParamSet, seed: Bytes, s: seq<Elem>, pkh: Bytes, z: Bytes, m: Bytes)
    requires IsParamSet(ps) && |s| == ps.l && |m| == 32
    requires var a, sp := GenMatrix(ps.l, seed), GenSecret(ps.l, ps.mu, Randomness(m, pkh));
             forall k :: 0 <= k < 256 ==>
               -(8 * (256 - Pow2(9 - ps.t))) <= NoiseAt(ps.l, a, s, sp, k) <= 8 * (256 - Pow2(9 - ps.t))
    ensures var b := KeyVector(ps.l, GenMatrix(ps.l, seed), s);
            Decapsulated(ps, seed, b, s, pkh, z, Encapsulated(ps, seed, b, pkh, m)) == SharedSecret(m, pkh)
  {
    hide NoiseAt, Plaintext, CiphertextOf, KeyVector, GenMatrix, GenSecret, Pow2, Decapsulated, Randomness;
    var a, sp := GenMatrix(ps.l, seed), GenSecret(ps.l, ps.mu, Randomness(m, pkh));
    SmallNoiseDecrypts(ps, a, s, sp, m);
    HonestDecap(ps, seed, KeyVector(ps.l, a, s), s, pkh, z, m);
  }
}
