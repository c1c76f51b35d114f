/** Every coefficient of a serialized key, every coefficient of a ciphertext and every bit of a decrypted
    message, as a number computed from the schoolbook products, with the scheme's constants written
    out. */
module WireFormat {
  import opened Words
  import opened Congruence
  import opened Bits
  import opened Positional
  import opened Ser
  import opened Fields
  import opened RingMul
  import opened Schoolbook
  import opened NttArith
  import opened PlainArith
  import opened Sample
  import opened Pke
  import opened PkeCorrect

  /** A product's coefficient scaled from 13 bits to 10 and rounded. */
  function RoundedTo10(x: int): int {
    (x + 4) / 8 % 1024
  }

  /** The top `t` of the low ten bits of v - 2^9 m + 4. */
  function MessagePart(t: nat, v: int, bit: int): int
    requires t <= 10
  {
    (v + 4 - 512 * bit) % 1024 / Pow2(10 - t)
  }

  /** Bit 9 of v - 2^(10-t) c + h2, where h2 is 2^8 - 2^(9-t) + 4. */
  function OpenedBit(t: nat, v: int, c: int): int
    requires 1 <= t <= 9
  {
    (v - c * Pow2(10 - t) + 256 - Pow2(9 - t) + 4) % 1024 / 512
  }

  lemma RoundedAt(e: Elem, k: nat)
    requires k < 256
    ensures Rounded(e)[k] % 1024 == RoundedTo10(e[k])
  {
    Pow2Values();
    var x: int := e[k] as int + 4;
    assert Rounded(e)[k] == WrapU16(x) / 8 by { hide Pow2; }
    hide *;
    WrappedShift(x);
  }

  lemma WrappedShift(x: int)
    requires 0 <= x
    ensures WrapU16(x) / 8 % 1024 == x / 8 % 1024
  {
  }

  /** Coefficient `k` of entry `i`, as it lies in the bytes of a packed vector. */
  function EntryCoefficient(bytes: Bytes, i: nat, k: nat): nat
    requires 320 * i + 320 <= |bytes| && k < 256
  {
    Unpack(10, 256, bytes[320 * i..320 * i + 320])[k]
  }

  lemma UnpackedEntry(l: nat, bytes: Bytes, i: nat, k: nat)
    requires 320 * l <= |bytes| && i < l && k < 256
    ensures EntryCoefficient(bytes, i, k) == UnpackVector(l, bytes[..320 * l])[i][k]
  {
    hide Unpack;
    assert bytes[..320 * l][320 * i..320 * i + 320] == bytes[320 * i..320 * i + 320];
  }

  lemma LowVectorAt(b: seq<Elem>, i: nat, k: nat)
    requires i < |b| && k < 256
    ensures LowVector(b)[i][k] == b[i][k] % 1024
  {
    hide PackElem, UnpackElem;
    LowElemAt(b[i], k);
  }

  /** A serialized key: the rounded transpose product at 10 bits a coefficient, then the seed. */
  lemma KeyCoefficient(l: nat, pk: PublicKey, s: seq<Elem>, j: nat, k: nat)
    requires |s| == l && j < l && k < 256 && l <= 256
    requires IsKey(l, pk, KeyVector(l, GenMatrix(l, pk.matrixSeed), s))
    ensures |KeyBytes(pk)| == 320 * l + 32 && KeyBytes(pk)[320 * l..] == pk.matrixSeed
    ensures EntryCoefficient(KeyBytes(pk), j, k)
            == RoundedTo10(Dot(Column(GenMatrix(l, pk.matrixSeed), l, l, j), s)[k])
  {
    var a := GenMatrix(l, pk.matrixSeed);
    var b := KeyVector(l, a, s);
    KeyVectorAt(l, a, s, j);
    KeyShape(l, pk, b);
    SeedLong(l, pk, b);
    hide *;
    ReparsedVector(l, pk, b);
    UnpackedEntry(l, KeyBytes(pk), j, k);
    LowVectorAt(b, j, k);
    RoundedAt(Dot(Column(a, l, l, j), s), k);
  }

  lemma SeedLong(l: nat, pk: PublicKey, b: seq<Elem>)
    requires IsKey(l, pk, b)
    ensures |pk.matrixSeed| == 32
  {
  }

  lemma KeyVectorAt(l: nat, a: Matrix<Elem>, s: seq<Elem>, j: nat)
    requires IsMatrix(a, l, l) && |s| == l && j < l
    ensures KeyVector(l, a, s)[j] == Rounded(Dot(Column(a, l, l, j), s))
  {
    hide Dot, Rounded;
  }

  lemma BPrimeAt(l: nat, a: Matrix<Elem>, sp: seq<Elem>, i: nat)
    requires IsMatrix(a, l, l) && |sp| == l && i < l
    ensures BPrime(l, a, sp)[i] == Rounded(Dot(Row(a, l, l, i), sp))
  {
    hide Dot, Rounded;
  }

  /** The vector part of a ciphertext: the rounded product at 10 bits a coefficient. */
  lemma CiphertextVectorAt(ps: ParamSet, seed: Bytes, b: seq<Elem>, msg: Bytes, r: Bytes, i: nat, k: nat)
    requires IsParamSet(ps) && |b| == ps.l && i < ps.l && k < 256
    ensures EntryCoefficient(Ciphertext(ps, seed, b, msg, r), i, k)
            == RoundedTo10(Dot(Row(GenMatrix(ps.l, seed), ps.l, ps.l, i), GenSecret(ps.l, ps.mu, r))[k])
  {
    Shape(ps);
    CiphertextIs(ps, seed, b, msg, r);
    var a, sp := GenMatrix(ps.l, seed), GenSecret(ps.l, ps.mu, r);
    hide *;
    VectorPartAt(ps, a, b, sp, msg, Ciphertext(ps, seed, b, msg, r), i, k);
  }

  lemma VectorPartAt(ps: ParamSet, a: Matrix<Elem>, b: seq<Elem>, sp: seq<Elem>, msg: Bytes, ct: Bytes, i: nat, k: nat)
    requires IsParamSet(ps) && IsMatrix(a, ps.l, ps.l) && |b| == |sp| == ps.l && i < ps.l && k < 256
    requires ct == CiphertextOf(ps, a, b, sp, msg)
    ensures 320 * i + 320 <= |ct|
    ensures EntryCoefficient(ct, i, k) == RoundedTo10(Dot(Row(a, ps.l, ps.l, i), sp)[k])
  {
    CiphertextLenIs(ps);
    hide *;
    CiphertextParts(ps, a, b, sp, msg);
    UnpackedEntry(ps.l, ct, i, k);
    BPrimeAt(ps.l, a, sp, i);
    LowVectorAt(BPrime(ps.l, a, sp), i, k);
    RoundedAt(Dot(Row(a, ps.l, ps.l, i), sp), k);
  }

  lemma CiphertextIs(ps: ParamSet, seed: Bytes, b: seq<Elem>, msg: Bytes, r: Bytes)
    requires IsParamSet(ps) && |b| == ps.l
    ensures Ciphertext(ps, seed, b, msg, r)
            == CiphertextOf(ps, GenMatrix(ps.l, seed), b, GenSecret(ps.l, ps.mu, r), msg)
  {
    hide CiphertextOf, GenMatrix, GenSecret;
  }

  /** The message part of a ciphertext: the top T of the low ten bits of v' - 2^9 m + 4. */
  lemma CiphertextMessageAt(ps: ParamSet, seed: Bytes, b: seq<Elem>, msg: Bytes, r: Bytes, k: nat)
    requires IsParamSet(ps) && |b| == ps.l && |msg| == 32 && k < 256
    ensures Unpack(ps.t, 256, Ciphertext(ps, seed, b, msg, r)[320 * ps.l..])[k]
            == MessagePart(ps.t, Dot(b, GenSecret(ps.l, ps.mu, r))[k], Bit(msg, k))
  {
    Shape(ps);
    CiphertextIs(ps, seed, b, msg, r);
    var a, sp := GenMatrix(ps.l, seed), GenSecret(ps.l, ps.mu, r);
    hide *;
    MessagePartAt(ps, a, b, sp, msg, Ciphertext(ps, seed, b, msg, r), k);
  }

  lemma MessagePartAt(ps: ParamSet, a: Matrix<Elem>, b: seq<Elem>, sp: seq<Elem>, msg: Bytes, ct: Bytes, k: nat)
    requires IsParamSet(ps) && IsMatrix(a, ps.l, ps.l) && |b| == |sp| == ps.l && |msg| == 32 && k < 256
    requires ct == CiphertextOf(ps, a, b, sp, msg)
    ensures 320 * ps.l <= |ct|
    ensures Unpack(ps.t, 256, ct[320 * ps.l..])[k]
            == MessagePart(ps.t, Dot(b, sp)[k], Bit(msg, k))
  {
    Shape(ps);
    CiphertextLenIs(ps);
    hide *;
    CiphertextParts(ps, a, b, sp, msg);
    MaskedMessageAt(ps.t, Dot(b, sp), msg, k);
  }

  lemma MaskedMessageAt(t: nat, v: Elem, msg: Bytes, k: nat)
    requires t <= 10 && |msg| == 32 && k < 256
    ensures Masked(t, CPart(t, v, msg))[k] == MessagePart(t, v[k], Bit(msg, k))
  {
    assert MessagePart(t, v[k], Bit(msg, k)) == (v[k] as int + 4 - 512 * Bit(msg, k)) % 1024 / Pow2(10 - t);
    hide *;
    var w, p := Shifted(v, msg, k), Pow2(10 - t);
    KeptBits(t, v, msg, k);
    KeptAndDropped(w, t);
    ShiftedIs(v, msg, k);
    MessageAt(msg, k);
    MessageBitIs(msg, k);
    UnpackedBit(msg, k);
    DroppedBelow(t, w);
    DivUnique(w % 1024, p, Slice(w, 10 - t, t), Ser.Low(10 - t, w));
  }

  lemma DroppedBelow(t: nat, w: nat)
    requires t <= 10
    ensures Ser.Low(10 - t, w) < Pow2(10 - t)
  {
  }

  /** A one-bit field is that bit of the string. */
  lemma UnpackedBit(bytes: Bytes, k: nat)
    requires |bytes| == 32 && k < 256
    ensures Unpack(1, 256, bytes)[k] == Bit(bytes, k)
  {
    hide Unpack, Bit, Slice, Num;
    UnpackAt(1, 256, bytes, k, k);
    BitIsSlice(bytes, k);
  }

  /** Bit `k` of a decrypted message: bit 9 of v - 2^(10-T) c + h2, with v the inner product with the
      vector the ciphertext carries and c the message part it carries. */
  lemma PlaintextBitAt(ps: ParamSet, s: seq<Elem>, ct: Bytes, bp: seq<Elem>, k: nat)
    requires IsParamSet(ps) && |s| == |bp| == ps.l && |ct| == 320 * ps.l + 32 * ps.t == CiphertextLen(ps) && k < 256
    requires forall i :: 0 <= i < ps.l ==> bp[i] == Unpack(10, 256, ct[320 * i..320 * i + 320])
    ensures |Plaintext(ps, s, ct)| == 32
    ensures Bit(Plaintext(ps, s, ct), k)
            == OpenedBit(ps.t, Dot(bp, s)[k], Unpack(ps.t, 256, ct[320 * ps.l..])[k])
  {
    Shape(ps);
    CarriedVector(ps.l, ct, bp);
    PlaintextUnfolded(ps, s, ct, bp);
    hide *;
    var v, c := Dot(bp, s), Unpack(ps.t, 256, ct[320 * ps.l..]);
    OpenedBitAt(ps.t, v, c, k);
  }

  lemma OpenedBitAt(t: nat, v: Elem, c: Elem, k: nat)
    requires 1 <= t <= 9 && k < 256
    ensures var m := Pack(1, ShiftRight(AddToAll(Minus(v, ShiftLeft(c, 10 - t)), H2(t)), 9));
            |m| == 32 && Bit(m, k) == OpenedBit(t, v[k], c[k])
  {
    var x := v[k] as int - c[k] as int * Pow2(10 - t) + 256 - Pow2(9 - t) + 4;
    assert OpenedBit(t, v[k], c[k]) == x % 1024 / 512;
    H2Is(t);
    hide *;
    var m := ShiftRight(AddToAll(Minus(v, ShiftLeft(c, 10 - t)), H2(t)), 9);
    PackedBit(m, k);
    BitOf(t, v, c, k, m);
    LookedIs(t, v, c, k);
    assert Looked(t, v, c, k) % 1024 == x % 1024;
    TopBit(Looked(t, v, c, k));
    HalfOf(x % 1024);
  }

  lemma HalfOf(y: nat)
    requires y < 1024
    ensures y / 512 == if y < 512 then 0 else 1
  {
  }

  lemma H2Is(t: nat)
    requires 1 <= t <= 9
    ensures H2(t) == 256 - Pow2(9 - t) + 4
  {
    H2Positive(t);
  }

  lemma CarriedVector(l: nat, ct: Bytes, bp: seq<Elem>)
    requires |bp| == l && 320 * l <= |ct|
    requires forall i :: 0 <= i < l ==> bp[i] == Unpack(10, 256, ct[320 * i..320 * i + 320])
    ensures bp == UnpackVector(l, ct[..320 * l])
  {
    hide Unpack;
    forall i | 0 <= i < l ensures bp[i] == UnpackVector(l, ct[..320 * l])[i] {
      assert ct[..320 * l][320 * i..320 * i + 320] == ct[320 * i..320 * i + 320];
    }
  }

  lemma PlaintextUnfolded(ps: ParamSet, s: seq<Elem>, ct: Bytes, bp: seq<Elem>)
    requires IsParamSet(ps) && |s| == ps.l && |ct| == CiphertextLen(ps) && bp == UnpackVector(ps.l, ct[..320 * ps.l])
    ensures var v, c := Dot(bp, s), Unpack(ps.t, 256, ct[320 * ps.l..]);
            Plaintext(ps, s, ct) == Pack(1, ShiftRight(AddToAll(Minus(v, ShiftLeft(c, 10 - ps.t)), H2(ps.t)), 9))
  {
    hide Dot, UnpackVector, Unpack, ShiftRight, AddToAll, Minus, ShiftLeft, H2, Pack;
  }

  /** Packing at one bit stores the lowest bit of every word. */
  lemma PackedBit(m: Elem, k: nat)
    requires k < 256
    ensures |Pack(1, m)| == 32 && Bit(Pack(1, m), k) == Masked(1, m)[k]
  {
    UnpackAfterPack(1, m);
    hide *;
    UnpackedBit(Pack(1, m), k);
  }

  /** The sizes the three parameter sets give: public keys of 672, 992 and 1312 bytes, and ciphertexts
      of 736, 1088 and 1472. */
  lemma Sizes()
    ensures KOPIS512.mu == 10 && 320 * KOPIS512.l + 32 == 672 && CiphertextLen(KOPIS512) == 736
    ensures KOPIS768.mu == 8 && 320 * KOPIS768.l + 32 == 992 && CiphertextLen(KOPIS768) == 1088
    ensures KOPIS1024.mu == 6 && 320 * KOPIS1024.l + 32 == 1312 && CiphertextLen(KOPIS1024) == 1472
  {
  }
}
