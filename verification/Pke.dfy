/** The IND-CPA-secure encryption scheme (`src/pke.rs`).  Every method is proved against a description
    in terms of schoolbook products, whichever backend runs it and whichever made its operands. */
module Pke {
  import opened Words
  import opened Bits
  import opened Ser
  import opened RingMul
  import opened Schoolbook
  import opened NttArith
  import opened PlainArith
  import opened TurboShake
  import opened Sample
  import VecSample
  import SpongeFacts

  const DOMSEP_KGEXPAND: u8 := 0x01
  const DOMSEP_PKHASH: u8 := 0x04

  /** Rank, bits of the message part kept, and binomial parameter. */
  datatype ParamSet = ParamSet(l: nat, t: nat, mu: nat)

  /** What the code accepts: an exact multiplier, a supported sampler, and shifts that make sense. */
  predicate IsParamSet(ps: ParamSet) {
    && 1 <= ps.l <= 4 && 1 <= ps.t <= 9 && (ps.mu == 6 || ps.mu == 8 || ps.mu == 10)
    && IsExact(ps.l, ps.mu / 2)
  }

  const KOPIS512 := ParamSet(2, 3, 10)
  const KOPIS768 := ParamSet(3, 4, 8)
  const KOPIS1024 := ParamSet(4, 6, 6)

  lemma ParameterSetsAreAccepted()
    ensures IsParamSet(KOPIS512) && IsParamSet(KOPIS768) && IsParamSet(KOPIS1024)
  {
    ParameterSetsAreExact();
  }

  /** The matrix and the vector in transformed form, the seed, and the packed vector. */
  datatype PublicKey = PublicKey(matrixSeed: Bytes, matANtt: Matrix<NttElem>, vecNtt: Matrix<NttElem>,
                                 vecBytes: seq<Bytes>)

  // -------------------------------------------------------------------------------------------
  // The scheme in terms of ring elements
  // -------------------------------------------------------------------------------------------

  /** Multiplication by 2^10 / 2^13, rounded: the low 10 bits are the rounded value, and what is above
      them is the quotient's overflow. */
  function Rounded(e: Elem): Elem {
    ShiftRight(AddToAll(e, 4), 3)
  }

  /** The public vector before packing: the rounded transpose product. */
  function KeyVector(l: nat, a: Matrix<Elem>, s: seq<Elem>): (b: seq<Elem>)
    requires IsMatrix(a, l, l) && |s| == l
    ensures |b| == l
  {
    seq(l, j requires 0 <= j < l => Rounded(Dot(Column(a, l, l, j), s)))
  }

  function BPrime(l: nat, a: Matrix<Elem>, sp: seq<Elem>): (b: seq<Elem>)
    requires IsMatrix(a, l, l) && |sp| == l
    ensures |b| == l
  {
    seq(l, i requires 0 <= i < l => Rounded(Dot(Row(a, l, l, i), sp)))
  }

  function MessageElem(msg: Bytes): Elem {
    ShiftLeft(Unpack(1, 256, msg), 9)
  }

  function CPart(t: nat, v: Elem, msg: Bytes): Elem
    requires t <= 10
  {
    ShiftRight(AddToAll(Minus(v, MessageElem(msg)), 4), 10 - t)
  }

  function CiphertextLen(ps: ParamSet): nat {
    320 * ps.l + 32 * ps.t
  }

  /** What encryption writes, for a public vector `b` and encryption secret `sp`. */
  function CiphertextOf(ps: ParamSet, a: Matrix<Elem>, b: seq<Elem>, sp: seq<Elem>, msg: Bytes): (ct: Bytes)
    requires IsMatrix(a, ps.l, ps.l) && |b| == |sp| == ps.l && ps.t <= 10
    ensures |ct| == CiphertextLen(ps)
  {
    PackLen(ps.t);
    Flat(PackVector(BPrime(ps.l, a, sp))) + Pack(ps.t, CPart(ps.t, Dot(b, sp), msg))
  }

  lemma PackLen(w: nat)
    ensures w * 256 / 8 == 32 * w
  {
  }

  function Ciphertext(ps: ParamSet, seed: Bytes, b: seq<Elem>, msg: Bytes, r: Bytes): (ct: Bytes)
    requires IsParamSet(ps) && |b| == ps.l
    ensures |ct| == CiphertextLen(ps)
  {
    CiphertextOf(ps, GenMatrix(ps.l, seed), b, GenSecret(ps.l, ps.mu, r), msg)
  }

  function H2(t: nat): nat
    requires 1 <= t <= 9
  {
    H2Positive(t);
    256 - Pow2(9 - t) + 4
  }

  lemma H2Positive(t: nat)
    requires 1 <= t <= 9
    ensures Pow2(9 - t) <= 256
  {
    Pow2Mono(9 - t, 8);
    Pow2Values();
  }

  function PlaintextOf(t: nat, v: Elem, c: Elem): Bytes
    requires 1 <= t <= 9
  {
    Pack(1, ShiftRight(AddToAll(Minus(v, ShiftLeft(c, 10 - t)), H2(t)), 9))
  }

  function Plaintext(ps: ParamSet, s: seq<Elem>, ct: Bytes): Bytes
    requires IsParamSet(ps) && |s| == ps.l && |ct| == CiphertextLen(ps)
  {
    PlaintextOf(ps.t, Dot(UnpackVector(ps.l, ct[..320 * ps.l]), s), Unpack(ps.t, 256, ct[320 * ps.l..]))
  }

  function MatSeed(l: u8, sk: Bytes): (seed: Bytes)
    ensures |seed| == 32
  {
    Stream(RATE_256, DOMSEP_KGEXPAND, sk + [l], 0, 32)
  }

  function SecretSeed(l: u8, sk: Bytes): (seed: Bytes)
    ensures |seed| == 32
  {
    Stream(RATE_256, DOMSEP_KGEXPAND, sk + [l], 32, 32)
  }

  function RejectSeed(l: u8, sk: Bytes): (seed: Bytes)
    ensures |seed| == 32
  {
    Stream(RATE_256, DOMSEP_KGEXPAND, sk + [l], 64, 32)
  }

  function KeyHash(packed: Bytes): Bytes {
    Stream(RATE_256, DOMSEP_PKHASH, packed, 0, 32)
  }

  /** The three seeds are the first, second and third 32 bytes of one TurboSHAKE256 stream. */
  lemma SeedsAre(l: u8, sk: Bytes)
    ensures var st := Stream(136, 0x01, sk + [l], 0, 96);
            MatSeed(l, sk) == st[..32] && SecretSeed(l, sk) == st[32..64] && RejectSeed(l, sk) == st[64..]
  {
    SeedsJoin(l, sk);
    hide *;
    var st := MatSeed(l, sk) + SecretSeed(l, sk) + RejectSeed(l, sk);
    assert st[..32] == MatSeed(l, sk) && st[32..64] == SecretSeed(l, sk) && st[64..] == RejectSeed(l, sk);
  }

  lemma SeedsJoin(l: u8, sk: Bytes)
    ensures MatSeed(l, sk) + SecretSeed(l, sk) + RejectSeed(l, sk) == Stream(136, 0x01, sk + [l], 0, 96)
  {
    hide Stream;
    SpongeFacts.StreamConcat(136, 0x01, sk + [l], 0, 32, 32);
    SpongeFacts.StreamConcat(136, 0x01, sk + [l], 0, 64, 32);
  }

  lemma KeyHashIs(packed: Bytes)
    ensures KeyHash(packed) == Stream(136, 0x04, packed, 0, 32)
  {
    hide Stream;
  }

  // -------------------------------------------------------------------------------------------
  // Keys in transformed form
  // -------------------------------------------------------------------------------------------

  ghost predicate TransformsMatrix(u: Matrix<NttElem>, m: Matrix<Elem>, l: nat) {
    IsMatrix(u, l, l) && IsMatrix(m, l, l) && forall i, j :: 0 <= i < l && 0 <= j < l ==>
      Transforms(true, u[i][j], m[i][j])
  }

  /** A vector is a matrix of one column. */
  ghost predicate TransformsVector(reduce: bool, u: Matrix<NttElem>, v: seq<Elem>) {
    IsMatrix(u, |v|, 1) && forall i :: 0 <= i < |v| ==> Transforms(reduce, u[i][0], v[i])
  }

  /** `pk` is a key for public vector `b`, whose entries may carry more than the 10 bits that are
      packed. */
  ghost predicate IsKey(l: nat, pk: PublicKey, b: seq<Elem>) {
    && l <= 256 && |b| == l && |pk.matrixSeed| == 32
    && TransformsMatrix(pk.matANtt, GenMatrix(l, pk.matrixSeed), l)
    && TransformsVector(true, pk.vecNtt, b)
    && (forall i :: 0 <= i < l ==> IsUniform(b[i]))
    && pk.vecBytes == PackVector(b)
  }

  /** The serialization of a key. */
  function KeyBytes(pk: PublicKey): Bytes
    requires forall i :: 0 <= i < |pk.vecBytes| ==> |pk.vecBytes[i]| == 320
  {
    Flat(pk.vecBytes) + pk.matrixSeed
  }

  function AsColumn<T>(v: seq<T>): (m: Matrix<T>)
    ensures IsMatrix(m, |v|, 1)
    ensures forall i :: 0 <= i < |v| ==> m[i][0] == v[i]
  {
    seq(|v|, i requires 0 <= i < |v| => [v[i]])
  }

  lemma RoundedIsUniform(e: Elem)
    ensures IsUniform(Rounded(e))
  {
    Pow2Values();
  }

  /** A row of the transformed matrix times a transformed secret is the schoolbook row product. */
  lemma RowProduct(a: Matrix<NttElem>, m: Matrix<Elem>, l: nat, u: Matrix<NttElem>, s: seq<Elem>, half: int, i: nat)
    requires TransformsMatrix(a, m, l) && |s| == l && TransformsVector(false, u, s) && i < l
    requires UniformMatrix(m) && IsExact(l, half) && forall k :: 0 <= k < l ==> IsSecret(s[k], half)
    ensures Entry(Row(a, l, l, i), Column(u, l, 1, 0)) == Dot(Row(m, l, l, i), s)
  {
    hide Entry, Dot, Transforms, IsUniform, IsSecret, IsExact;
    EntryIsSchoolbook(Row(m, l, l, i), s, Row(a, l, l, i), Column(u, l, 1, 0), half);
  }

  lemma ColumnProduct(a: Matrix<NttElem>, m: Matrix<Elem>, l: nat, u: Matrix<NttElem>, s: seq<Elem>, half: int, j: nat)
    requires TransformsMatrix(a, m, l) && |s| == l && TransformsVector(false, u, s) && j < l
    requires UniformMatrix(m) && IsExact(l, half) && forall k :: 0 <= k < l ==> IsSecret(s[k], half)
    ensures Entry(Column(a, l, l, j), Column(u, l, 1, 0)) == Dot(Column(m, l, l, j), s)
  {
    hide Entry, Dot, Transforms, IsUniform, IsSecret, IsExact;
    EntryIsSchoolbook(Column(m, l, l, j), s, Column(a, l, l, j), Column(u, l, 1, 0), half);
  }

  lemma VectorProduct(u: Matrix<NttElem>, b: seq<Elem>, w: Matrix<NttElem>, s: seq<Elem>, half: int)
    requires |b| == |s| && TransformsVector(true, u, b) && TransformsVector(false, w, s)
    requires IsExact(|b|, half) && forall k :: 0 <= k < |b| ==> IsUniform(b[k]) && IsSecret(s[k], half)
    ensures Entry(Column(u, |b|, 1, 0), Column(w, |b|, 1, 0)) == Dot(b, s)
  {
    hide Entry, Dot, Transforms, IsUniform, IsSecret, IsExact;
    EntryIsSchoolbook(b, s, Column(u, |b|, 1, 0), Column(w, |b|, 1, 0), half);
  }

  // -------------------------------------------------------------------------------------------
  // The methods
  // -------------------------------------------------------------------------------------------

  method TransformVector(backend: Backend, reduce: bool, v: seq<Elem>) returns (u: Matrix<NttElem>)
    ensures TransformsVector(reduce, u, v)
  {
    hide FromElem;
    u := TransformMatrix(backend, reduce, AsColumn(v), |v|, 1);
    MatrixTransforms(backend, reduce, AsColumn(v), |v|, 1);
  }

  /** The matrix both sides derive from the seed, in transformed form. */
  method ExpandMatrix(backend: Backend, l: nat, seed: Bytes) returns (u: Matrix<NttElem>)
    requires l <= 256 && |seed| == 32
    ensures TransformsMatrix(u, GenMatrix(l, seed), l)
  {
    hide FromElem, MatrixEntry;
    var a := VecSample.SampleMatrix(backend, l, seed);
    u := TransformMatrix(backend, true, a, l, l);
    MatrixTransforms(backend, true, a, l, l);
  }

  /** `wrapping_add_to_all` and `shift_right` over a column of products. */
  function RoundAll(prod: Matrix<Elem>, l: nat): (b: seq<Elem>)
    requires IsMatrix(prod, l, 1)
    ensures |b| == l
  {
    seq(l, i requires 0 <= i < l => Rounded(prod[i][0]))
  }

  /** The seeds and rejection value, read one after another. */
  method ReadSeeds(l: u8, sk: Bytes) returns (matSeed: Bytes, secretSeed: Bytes, z: Bytes)
    ensures matSeed == MatSeed(l, sk) && secretSeed == SecretSeed(l, sk) && z == RejectSeed(l, sk)
    ensures |matSeed| == |secretSeed| == |z| == 32
    ensures matSeed + secretSeed + z == Stream(136, 0x01, sk + [l], 0, 96)
  {
    SeedsJoin(l, sk);
    SeedStreams(l, sk);
    hide *;
    var xof := new Reader(RATE_256, DOMSEP_KGEXPAND, sk + [l]);
    matSeed := ReadSeed(xof);
    secretSeed := ReadSeed(xof);
    z := ReadSeed(xof);
  }

  lemma SeedStreams(l: u8, sk: Bytes)
    ensures IsRate(RATE_256) && MatSeed(l, sk) == Stream(RATE_256, DOMSEP_KGEXPAND, sk + [l], 0, 32)
    ensures SecretSeed(l, sk) == Stream(RATE_256, DOMSEP_KGEXPAND, sk + [l], 32, 32)
    ensures RejectSeed(l, sk) == Stream(RATE_256, DOMSEP_KGEXPAND, sk + [l], 64, 32)
  {
    hide Stream;
  }

  /** The next 32 bytes. */
  method ReadSeed(xof: Reader) returns (seed: Bytes)
    requires xof.Valid()
    modifies xof`pos
    ensures xof.Valid() && xof.pos == old(xof.pos) + 32
    ensures |seed| == 32 && seed == Stream(xof.rate, xof.ds, xof.msg, old(xof.pos), 32)
  {
    hide Stream;
    var buf := new u8[32](_ => 0);
    xof.Read(buf);
    seed := buf[..];
  }

  /** `expand_secret_key`. */
  method ExpandSecretKey(backend: Backend, ps: ParamSet, sk: Bytes)
    returns (skNtt: Matrix<NttElem>, z: Bytes, pk: PublicKey, pkh: Bytes)
    requires IsParamSet(ps)
    ensures var s := GenSecret(ps.l, ps.mu, SecretSeed(ps.l, sk));
            && TransformsVector(false, skNtt, s) && z == RejectSeed(ps.l, sk) && pk.matrixSeed == MatSeed(ps.l, sk)
            && IsKey(ps.l, pk, KeyVector(ps.l, GenMatrix(ps.l, pk.matrixSeed), s))
            && pkh == KeyHash(KeyBytes(pk))
    ensures var st := Stream(136, 0x01, sk + [ps.l], 0, 96);
            && pk.matrixSeed == st[..32] && TransformsVector(false, skNtt, GenSecret(ps.l, ps.mu, st[32..64]))
            && z == st[64..]
    ensures pkh == Stream(136, 0x04, KeyBytes(pk), 0, 32)
  {
    hide *;
    var matSeed, secretSeed;
    Shape(ps);
    SeedsAre(ps.l, sk);
    matSeed, secretSeed, z := ReadSeeds(ps.l, sk);
    var matANtt := ExpandMatrix(backend, ps.l, matSeed);
    var s := VecSample.SampleSecret(backend, ps.l, ps.mu, secretSeed);
    skNtt := TransformVector(backend, false, s);
    var b := PublicVector(backend, ps, matSeed, matANtt, secretSeed, skNtt, s);
    var vecNtt := TransformVector(backend, true, b);
    var vecBytes := PackAll(b);
    pk := PublicKey(matSeed, matANtt, vecNtt, vecBytes);
    KeyMade(ps.l, pk, b, GenMatrix(ps.l, matSeed), s);
    pkh := Hash(pk);
    KeyHashIs(KeyBytes(pk));
  }

  lemma Shape(ps: ParamSet)
    requires IsParamSet(ps)
    ensures 1 <= ps.l <= 4 && ps.l <= MAX_L && (ps.mu == 6 || ps.mu == 8 || ps.mu == 10) && 1 <= ps.t <= 9
  {
  }

  lemma KeyMade(l: nat, pk: PublicKey, b: seq<Elem>, a: Matrix<Elem>, s: seq<Elem>)
    requires l <= 4 && |pk.matrixSeed| == 32 && IsMatrix(a, l, l) && |s| == l && a == GenMatrix(l, pk.matrixSeed)
             && b == KeyVector(l, a, s)
    requires TransformsMatrix(pk.matANtt, a, l) && TransformsVector(true, pk.vecNtt, b) && pk.vecBytes == PackVector(b)
    ensures IsKey(l, pk, b)
  {
    hide TransformsMatrix, TransformsVector, GenMatrix, Dot, Rounded, IsUniform;
    forall i | 0 <= i < l ensures IsUniform(b[i]) {
      RoundedIsUniform(Dot(Column(a, l, l, i), s));
    }
  }

  /** `b = ((A^T * s) + h1) >> 3`. */
  method PublicVector(backend: Backend, ps: ParamSet, matSeed: Bytes, matANtt: Matrix<NttElem>,
                      secretSeed: Bytes, skNtt: Matrix<NttElem>, ghost s: seq<Elem>) returns (b: seq<Elem>)
    requires IsParamSet(ps) && TransformsMatrix(matANtt, GenMatrix(ps.l, matSeed), ps.l)
    requires s == GenSecret(ps.l, ps.mu, secretSeed) && TransformsVector(false, skNtt, s)
    ensures b == KeyVector(ps.l, GenMatrix(ps.l, matSeed), s)
  {
    hide MatrixEntry, SecretEntry, Transforms, Entry, Dot, Rounded, IsUniform, IsSecret, IsExact;
    var prod := MulTranspose(backend, matANtt, skNtt, ps.l, ps.l, 1);
    MatrixIsUniform(ps.l, matSeed);
    forall i | 0 <= i < ps.l ensures IsSecret(s[i], ps.mu / 2) {
      SecretIsSmall(ps.l, ps.mu, secretSeed, i);
    }
    forall j | 0 <= j < ps.l
      ensures prod[j][0] == Dot(Column(GenMatrix(ps.l, matSeed), ps.l, ps.l, j), s)
    {
      ColumnProduct(matANtt, GenMatrix(ps.l, matSeed), ps.l, skNtt, s, ps.mu / 2, j);
    }
    b := RoundAll(prod, ps.l);
  }

  method PackAll(b: seq<Elem>) returns (chunks: seq<Bytes>)
    ensures chunks == PackVector(b)
  {
    hide *;
    var out := new Bytes[|b|](_ => []);
    for i := 0 to |b|
      invariant forall j :: 0 <= j < i ==> out[j] == PackElem(b[j])
    {
      var chunk := new u8[320](_ => 0);
      SerializeChunk(b[i], chunk);
      out[i] := chunk[..];
    }
    chunks := out[..];
  }

  /** `PkePublicKey::hash`: the chunks, then the seed, absorbed one after another. */
  method Hash(pk: PublicKey) returns (pkh: Bytes)
    requires forall i :: 0 <= i < |pk.vecBytes| ==> |pk.vecBytes[i]| == 320
    ensures pkh == KeyHash(KeyBytes(pk))
    ensures pkh == Stream(136, 0x04, Flat(pk.vecBytes) + pk.matrixSeed, 0, 32)
  {
    hide Stream, Flat;
    var absorbed: Bytes := [];
    FlatNone(pk.vecBytes[..0]);
    for i := 0 to |pk.vecBytes|
      invariant absorbed == Flat(pk.vecBytes[..i])
    {
      FlatStep(pk.vecBytes, i);
      absorbed := absorbed + pk.vecBytes[i];
    }
    assert pk.vecBytes[..|pk.vecBytes|] == pk.vecBytes;
    var out := new u8[32](_ => 0);
    var reader := new Reader(RATE_256, DOMSEP_PKHASH, absorbed + pk.matrixSeed);
    reader.Read(out);
    pkh := out[..];
  }

  /** `PkePublicKey::serialize`. */
  method Serialize(pk: PublicKey, buf: array<u8>)
    requires forall i :: 0 <= i < |pk.vecBytes| ==> |pk.vecBytes[i]| == 320
    requires buf.Length == 320 * |pk.vecBytes| + |pk.matrixSeed|
    modifies buf
    ensures buf[..] == KeyBytes(pk)
  {
    hide Flat;
    FlatNone(pk.vecBytes[..0]);
    for i := 0 to |pk.vecBytes|
      invariant buf[..320 * i] == Flat(pk.vecBytes[..i])
    {
      FlatStep(pk.vecBytes, i);
      CopyInto(buf, 320 * i, pk.vecBytes[i]);
    }
    assert pk.vecBytes[..|pk.vecBytes|] == pk.vecBytes;
    CopyInto(buf, 320 * |pk.vecBytes|, pk.matrixSeed);
    assert buf[..] == buf[..buf.Length];
  }

  /** `PkePublicKey::from_bytes`. */
  method FromBytes(backend: Backend, l: nat, bytes: Bytes) returns (pk: PublicKey)
    requires l <= 256 && |bytes| == 320 * l + 32
    ensures IsKey(l, pk, UnpackVector(l, bytes[..320 * l])) && pk.matrixSeed == bytes[320 * l..]
    ensures KeyBytes(pk) == bytes
  {
    hide *;
    var vecSlice, seed := bytes[..320 * l], bytes[320 * l..];
    var vec := DeserializeVector(backend, l, vecSlice);
    var vecNtt := TransformVector(backend, true, vec);
    var vecBytes := CopyChunks(l, vecSlice);
    var matANtt := ExpandMatrix(backend, l, seed);
    pk := PublicKey(seed, matANtt, vecNtt, vecBytes);
    KeyParsed(l, pk, vecSlice, bytes);
  }

  method CopyChunks(l: nat, bytes: Bytes) returns (chunks: seq<Bytes>)
    requires |bytes| == 320 * l
    ensures |chunks| == l && forall i :: 0 <= i < l ==> chunks[i] == Chunk(bytes, i)
  {
    hide *;
    var out := new Bytes[l](_ => []);
    for i := 0 to l
      invariant forall j :: 0 <= j < i ==> out[j] == Chunk(bytes, j)
    {
      out[i] := bytes[320 * i..320 * i + 320];
      ChunkIs(bytes, i);
    }
    chunks := out[..];
  }

  lemma ChunkIs(bytes: Bytes, i: nat)
    requires 320 * i + 320 <= |bytes|
    ensures Chunk(bytes, i) == bytes[320 * i..320 * i + 320]
  {
  }

  /** Ten-bit packing is canonical: a chunk is what packing its own unpacking gives. */
  lemma ChunkIsCanonical(c: Bytes)
    requires |c| == 320
    ensures PackElem(UnpackElem(c)) == c && IsUniform(UnpackElem(c))
  {
    PackAfterUnpack(10, 256, c);
    Pow2Values();
    hide Pack, Unpack, Pow2;
  }

  lemma KeyParsed(l: nat, pk: PublicKey, vecSlice: Bytes, bytes: Bytes)
    requires l <= 256 && |bytes| == 320 * l + 32 && vecSlice == bytes[..320 * l] && pk.matrixSeed == bytes[320 * l..]
    requires TransformsMatrix(pk.matANtt, GenMatrix(l, pk.matrixSeed), l)
    requires TransformsVector(true, pk.vecNtt, UnpackVector(l, vecSlice))
    requires |pk.vecBytes| == l && forall i :: 0 <= i < l ==> pk.vecBytes[i] == Chunk(vecSlice, i)
    ensures IsKey(l, pk, UnpackVector(l, vecSlice)) && KeyBytes(pk) == bytes
  {
    hide TransformsMatrix, TransformsVector, GenMatrix, IsUniform, PackElem, UnpackElem, Chunk, Flat;
    var b := UnpackVector(l, vecSlice);
    forall i | 0 <= i < l
      ensures IsUniform(b[i]) && PackVector(b)[i] == pk.vecBytes[i]
    {
      ChunkIsCanonical(Chunk(vecSlice, i));
    }
    FlatOfChunks(vecSlice, l, pk.vecBytes);
    assert vecSlice + pk.matrixSeed == bytes;
  }

  /** `b' = ((A * s') + h1) >> 3`. */
  method EncryptVector(backend: Backend, ps: ParamSet, pk: PublicKey, r: Bytes, spNtt: Matrix<NttElem>,
                       ghost sp: seq<Elem>) returns (bp: seq<Elem>)
    requires IsParamSet(ps) && TransformsMatrix(pk.matANtt, GenMatrix(ps.l, pk.matrixSeed), ps.l)
    requires sp == GenSecret(ps.l, ps.mu, r) && TransformsVector(false, spNtt, sp)
    ensures bp == BPrime(ps.l, GenMatrix(ps.l, pk.matrixSeed), sp)
  {
    hide MatrixEntry, SecretEntry, Transforms, Entry, Dot, Rounded, IsUniform, IsSecret, IsExact;
    var prod := Mul(backend, pk.matANtt, spNtt, ps.l, ps.l, 1);
    MatrixIsUniform(ps.l, pk.matrixSeed);
    forall i | 0 <= i < ps.l ensures IsSecret(sp[i], ps.mu / 2) {
      SecretIsSmall(ps.l, ps.mu, r, i);
    }
    forall i | 0 <= i < ps.l
      ensures prod[i][0] == Dot(Row(GenMatrix(ps.l, pk.matrixSeed), ps.l, ps.l, i), sp)
    {
      RowProduct(pk.matANtt, GenMatrix(ps.l, pk.matrixSeed), ps.l, spNtt, sp, ps.mu / 2, i);
    }
    bp := RoundAll(prod, ps.l);
  }

  /** The one entry of a transposed vector product. */
  method InnerProduct(backend: Backend, ps: ParamSet, u: Matrix<NttElem>, ghost b: seq<Elem>, w: Matrix<NttElem>,
                      ghost s: seq<Elem>) returns (v: Elem)
    requires IsParamSet(ps) && |b| == |s| == ps.l && TransformsVector(true, u, b) && TransformsVector(false, w, s)
    requires forall k :: 0 <= k < ps.l ==> IsUniform(b[k]) && IsSecret(s[k], ps.mu / 2)
    ensures v == Dot(b, s)
  {
    hide Transforms, Entry, Dot, IsUniform, IsSecret, IsExact;
    var prod := MulTranspose(backend, u, w, ps.l, 1, 1);
    VectorProduct(u, b, w, s, ps.mu / 2);
    v := prod[0][0];
  }

  /** The rounded vector and the inner product a ciphertext is made of. */
  method EncryptProducts(backend: Backend, ps: ParamSet, pk: PublicKey, ghost b: seq<Elem>, r: Bytes)
    returns (bp: seq<Elem>, v: Elem)
    requires IsParamSet(ps) && IsKey(ps.l, pk, b) && |r| == 32
    ensures bp == BPrime(ps.l, GenMatrix(ps.l, pk.matrixSeed), GenSecret(ps.l, ps.mu, r))
    ensures v == Dot(b, GenSecret(ps.l, ps.mu, r))
  {
    KeyParts(ps.l, pk, b);
    Shape(ps);
    hide *;
    var sp := VecSample.SampleSecret(backend, ps.l, ps.mu, r);
    SecretsSmall(ps.l, ps.mu, r);
    var spNtt := TransformVector(backend, false, sp);
    bp := EncryptVector(backend, ps, pk, r, spNtt, sp);
    v := InnerProduct(backend, ps, pk.vecNtt, b, spNtt, sp);
  }

  /** The message part of a ciphertext. */
  method EncryptMessage(ps: ParamSet, v: Elem, msg: Bytes) returns (tail: Bytes)
    requires IsParamSet(ps) && |msg| == 32
    ensures |tail| == 32 * ps.t && tail == Pack(ps.t, CPart(ps.t, v, msg))
  {
    Shape(ps);
    CPartIs(ps.t, v, msg);
    hide *;
    var m := DeserializeGeneric(msg, 256, 1);
    var c := ShiftRight(AddToAll(Minus(v, ShiftLeft(m, 9)), 4), 10 - ps.t);
    var buf := new u8[32 * ps.t](_ => 0);
    PlainArith.Serialize(ps.t, c, buf);
    tail := buf[..];
  }

  lemma CPartIs(t: nat, v: Elem, msg: Bytes)
    requires t <= 10
    ensures CPart(t, v, msg) == ShiftRight(AddToAll(Minus(v, ShiftLeft(Unpack(1, 256, msg), 9)), 4), 10 - t)
  {
    hide ShiftRight, AddToAll, Minus, ShiftLeft, Unpack;
  }

  /** `encrypt_deterministic`, into a caller's buffer. */
  method Encrypt(backend: Backend, ps: ParamSet, pk: PublicKey, ghost b: seq<Elem>, msg: Bytes, r: Bytes,
                 out: array<u8>)
    requires IsParamSet(ps) && IsKey(ps.l, pk, b) && |msg| == |r| == 32 && out.Length == CiphertextLen(ps)
    modifies out
    ensures out[..] == Ciphertext(ps, pk.matrixSeed, b, msg, r)
  {
    Shape(ps);
    CiphertextLenIs(ps);
    KeyShape(ps.l, pk, b);
    hide *;
    var bp, v := EncryptProducts(backend, ps, pk, b, r);
    var tail := EncryptMessage(ps, v, msg);
    SerializeWithTail(bp, tail, out);
    Assembled(ps, pk.matrixSeed, b, msg, r, bp, tail);
  }

  lemma KeyShape(l: nat, pk: PublicKey, b: seq<Elem>)
    requires IsKey(l, pk, b)
    ensures l <= 256 && |b| == l
  {
  }

  lemma KeyParts(l: nat, pk: PublicKey, b: seq<Elem>)
    requires IsKey(l, pk, b)
    ensures |b| == l && TransformsMatrix(pk.matANtt, GenMatrix(l, pk.matrixSeed), l)
            && TransformsVector(true, pk.vecNtt, b)
    ensures forall i :: 0 <= i < l ==> IsUniform(b[i])
  {
  }

  lemma CiphertextLenIs(ps: ParamSet)
    ensures CiphertextLen(ps) == 320 * ps.l + 32 * ps.t
  {
  }

  lemma SecretsSmall(l: nat, mu: nat, r: Bytes)
    requires l <= 256 && mu <= 16
    ensures forall i :: 0 <= i < l ==> IsSecret(GenSecret(l, mu, r)[i], mu / 2)
  {
    hide IsSecret, GenSecret;
    forall i | 0 <= i < l ensures IsSecret(GenSecret(l, mu, r)[i], mu / 2) { SecretIsSmall(l, mu, r, i); }
  }

  lemma Assembled(ps: ParamSet, seed: Bytes, b: seq<Elem>, msg: Bytes, r: Bytes, bp: seq<Elem>, tail: Bytes)
    requires IsParamSet(ps) && |b| == ps.l && tail == Pack(ps.t, CPart(ps.t, Dot(b, GenSecret(ps.l, ps.mu, r)), msg))
    requires bp == BPrime(ps.l, GenMatrix(ps.l, seed), GenSecret(ps.l, ps.mu, r))
    ensures Flat(PackVector(bp)) + tail == Ciphertext(ps, seed, b, msg, r)
  {
    hide Flat, PackVector, Pack, BPrime, Dot, GenMatrix, GenSecret, CPart;
  }

  /** `decrypt`. */
  method Decrypt(backend: Backend, ps: ParamSet, skNtt: Matrix<NttElem>, ghost s: seq<Elem>, ct: Bytes)
    returns (msg: Bytes)
    requires IsParamSet(ps) && |s| == ps.l && TransformsVector(false, skNtt, s) && |ct| == CiphertextLen(ps)
    requires forall k :: 0 <= k < ps.l ==> IsSecret(s[k], ps.mu / 2)
    ensures msg == Plaintext(ps, s, ct)
  {
    Shape(ps);
    CiphertextLenIs(ps);
    hide *;
    var bp := DeserializeVector(backend, ps.l, ct[..320 * ps.l]);
    VectorIsUniform(ps.l, ct[..320 * ps.l]);
    var bpNtt := TransformVector(backend, true, bp);
    var c := Deserialize(backend, ps.t, ct[320 * ps.l..]);
    var v := InnerProduct(backend, ps, bpNtt, bp, skNtt, s);
    var mp := ShiftRight(AddToAll(Minus(v, ShiftLeft(c, 10 - ps.t)), H2(ps.t)), 9);
    var m := new u8[32](_ => 0);
    PlainArith.Serialize(1, mp, m);
    msg := m[..];
    Opened(ps, s, ct, bp, c, v);
  }

  lemma VectorIsUniform(l: nat, bytes: Bytes)
    requires |bytes| == 320 * l
    ensures forall i :: 0 <= i < l ==> IsUniform(UnpackVector(l, bytes)[i])
  {
    hide IsUniform, UnpackElem, Chunk;
    forall i | 0 <= i < l ensures IsUniform(UnpackVector(l, bytes)[i]) {
      ChunkIsCanonical(Chunk(bytes, i));
    }
  }

  lemma Opened(ps: ParamSet, s: seq<Elem>, ct: Bytes, bp: seq<Elem>, c: Elem, v: Elem)
    requires IsParamSet(ps) && |s| == ps.l && |ct| == CiphertextLen(ps)
    requires bp == UnpackVector(ps.l, ct[..320 * ps.l]) && c == Unpack(ps.t, 256, ct[320 * ps.l..]) && v == Dot(bp, s)
    ensures Pack(1, ShiftRight(AddToAll(Minus(v, ShiftLeft(c, 10 - ps.t)), H2(ps.t)), 9)) == Plaintext(ps, s, ct)
  {
    hide Pack, UnpackVector, Dot, Unpack, Minus, AddToAll, ShiftRight, ShiftLeft, H2;
  }
}
