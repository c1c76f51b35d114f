/** Deriving the public matrix and the secret vectors from seeds (`src/sample.rs`). */
module Sample {
  import opened Words
  import opened Ser
  import opened SerFast
  import opened RingMul
  import opened NttArith
  import opened TurboShake
  import opened Cbd

  const DOMSEP_GENMAT: u8 := 0x02
  const DOMSEP_GENSEC: u8 := 0x03
  const RATE_128: nat := 168
  const RATE_256: nat := 136

  /** Entry (i, j) is 416 bytes of TurboSHAKE128(seed || i || j), 13 bits a coefficient. */
  function MatrixEntry(seed: Bytes, i: u8, j: u8): (e: Elem) {
    Unpack(13, 256, Stream(RATE_128, DOMSEP_GENMAT, seed + [i] + [j], 0, 416))
  }

  function GenMatrix(l: nat, seed: Bytes): (m: Matrix<Elem>)
    requires l <= 256
    ensures IsMatrix(m, l, l)
  {
    seq(l, i requires 0 <= i < l => seq(l, j requires 0 <= j < l => MatrixEntry(seed, i, j)))
  }

  /** Entry i is a binomial sample of TurboSHAKE256(seed || i). */
  function SecretEntry(mu: nat, seed: Bytes, i: u8): (e: Elem)
    requires mu <= 16
  {
    CbdElem(mu, Stream(RATE_256, DOMSEP_GENSEC, seed + [i], 0, 32 * mu))
  }

  function GenSecret(l: nat, mu: nat, seed: Bytes): (s: seq<Elem>)
    requires l <= 256 && mu <= 16
    ensures |s| == l
  {
    seq(l, i requires 0 <= i < l => SecretEntry(mu, seed, i))
  }

  lemma MatrixIsUniform(l: nat, seed: Bytes)
    requires l <= 256
    ensures UniformMatrix(GenMatrix(l, seed))
  {
    hide Stream;
    forall i, j | 0 <= i < l && 0 <= j < l
      ensures IsUniform(GenMatrix(l, seed)[i][j])
    {
      EntryIsUniform(seed, i, j);
    }
  }

  lemma EntryIsUniform(seed: Bytes, i: u8, j: u8)
    ensures IsUniform(MatrixEntry(seed, i, j))
  {
    Bits.Pow2Values();
    hide Stream;
  }

  lemma SecretIsSmall(l: nat, mu: nat, seed: Bytes, i: nat)
    requires l <= 256 && mu <= 16 && i < l
    ensures IsSecret(GenSecret(l, mu, seed)[i], mu / 2)
  {
    hide Stream, CbdElem, Signed;
    forall c | 0 <= c < 256
      ensures -(mu / 2) <= Signed(SecretEntry(mu, seed, i))[c] <= mu / 2
    {
      CbdRange(mu, Stream(RATE_256, DOMSEP_GENSEC, seed + [i], 0, 32 * mu), c);
    }
  }

  /** Entry (i, j), packed at 13 bits, is the first 416 bytes of TurboSHAKE128 over seed, i and j. */
  lemma MatrixEntryPacks(l: nat, seed: Bytes, i: u8, j: u8)
    requires l <= 256 && i < l && j < l
    ensures Pack(13, GenMatrix(l, seed)[i][j]) == Stream(168, 0x02, seed + [i, j], 0, 416)
  {
    MatrixEntryIs(seed, i, j);
    var bytes := Stream(168, 0x02, seed + [i, j], 0, 416);
    hide Stream, Pack, Unpack, MatrixEntry;
    PackAfterUnpack(13, 256, bytes);
  }

  lemma MatrixEntryIs(seed: Bytes, i: u8, j: u8)
    ensures MatrixEntry(seed, i, j) == Unpack(13, 256, Stream(168, 0x02, seed + [i, j], 0, 416))
  {
    assert seed + [i] + [j] == seed + [i, j];
    hide Stream, Unpack;
  }

  /** Coefficient c of entry i counts bits of TurboSHAKE256 over seed and i: those of the first half of
      field c less those of its second half. */
  lemma SecretEntryCounts(l: nat, mu: nat, seed: Bytes, i: u8, c: nat, pos: nat)
    requires l <= 256 && i < l && mu <= 16 && mu % 2 == 0 && c < 256 && pos == mu * c
    ensures pos + mu <= 256 * mu
    ensures var bytes := Stream(136, 0x03, seed + [i], 0, 32 * mu);
            GenSecret(l, mu, seed)[i][c] == WrapU16(Ones(bytes, pos, mu / 2) - Ones(bytes, pos + mu / 2, mu / 2))
  {
    hide Stream, CbdElem, Ones;
    CbdIsBitCount(mu, Stream(136, 0x03, seed + [i], 0, 32 * mu), c, pos);
  }

  // -------------------------------------------------------------------------------------------
  // The serial loops
  // -------------------------------------------------------------------------------------------

  method ReadMatrixEntry(seed: Bytes, i: u8, j: u8) returns (e: Elem)
    ensures e == MatrixEntry(seed, i, j)
  {
    hide Stream, Unpack;
    var buf := new u8[416](_ => 0);
    var reader := new Reader(RATE_128, DOMSEP_GENMAT, seed + [i] + [j]);
    reader.Read(buf);
    e := Deserialize13(buf[..]);
  }

  /** The serial `gen_matrix_from_seed`. */
  method GenMatrixFromSeed(l: nat, seed: Bytes) returns (m: Matrix<Elem>)
    requires l <= 256
    ensures m == GenMatrix(l, seed)
  {
    hide MatrixEntry;
    var mat := new Elem[l, l]((_, _) => ZERO_ELEM);
    for i := 0 to l
      invariant forall i', j' :: 0 <= i' < i && 0 <= j' < l ==> mat[i', j'] == MatrixEntry(seed, i', j')
    {
      for j := 0 to l
        invariant forall i', j' :: 0 <= i' < i && 0 <= j' < l ==> mat[i', j'] == MatrixEntry(seed, i', j')
        invariant forall j' :: 0 <= j' < j ==> mat[i, j'] == MatrixEntry(seed, i, j')
      {
        mat[i, j] := ReadMatrixEntry(seed, i, j);
      }
    }
    m := Filled(mat);
    assert forall i :: 0 <= i < l ==> m[i] == GenMatrix(l, seed)[i];
  }

  method ReadSecretEntry(mu: nat, seed: Bytes, i: u8) returns (e: Elem)
    requires mu == 6 || mu == 8 || mu == 10
    ensures e == SecretEntry(mu, seed, i)
  {
    hide Stream, CbdElem;
    var buf, out := new u8[32 * mu](_ => 0), new u16[256](_ => 0);
    var reader := new Reader(RATE_256, DOMSEP_GENSEC, seed + [i]);
    reader.Read(buf);
    Cbd.Cbd(mu, buf[..], out);
    e := out[..];
  }

  /** The serial `gen_secret_from_seed`. */
  method GenSecretFromSeed(l: nat, mu: nat, seed: Bytes) returns (s: seq<Elem>)
    requires l <= 256 && (mu == 6 || mu == 8 || mu == 10)
    ensures s == GenSecret(l, mu, seed)
  {
    hide SecretEntry;
    var secret := new Elem[l](_ => ZERO_ELEM);
    for i := 0 to l
      invariant forall j :: 0 <= j < i ==> secret[j] == SecretEntry(mu, seed, j)
    {
      secret[i] := ReadSecretEntry(mu, seed, i);
    }
    s := secret[..];
  }
}
