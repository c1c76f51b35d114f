/** The batched samplers: several XOF calls at once, a ring element unpacked or sampled from each. */
module VecSample {
  import opened Words
  import opened Congruence
  import opened Positional
  import opened Ser
  import opened RingMul
  import opened NttArith
  import opened TurboShake
  import opened FusedKeccak
  import opened Xof
  import opened Sample
  import opened VecCbd
  import Cbd
  import VecSer

  /** What one sponge wrote. */
  function OutputOf(out: array2<u8>, l: nat): (b: Bytes)
    requires l < out.Length0
    reads out
    ensures |b| == out.Length1
  {
    seq(out.Length1, p requires 0 <= p < out.Length1 reads out requires l < out.Length0 => out[l, p])
  }

  /** The rows of a batch are the serial readers' output. */
  method Batch(arch: Arch, rate: nat, ds: u8, seed: Bytes, suffixes: seq<Bytes>, n: nat) returns (bufs: seq<Bytes>)
    requires IsRate(rate) && 1 <= ds <= 0x7F && |seed| == 32 && |suffixes| == Ways(arch)
    requires forall l :: 0 <= l < Ways(arch) ==> 32 + |suffixes[l]| < rate
    ensures |bufs| == Ways(arch) && forall l :: 0 <= l < Ways(arch) ==>
            bufs[l] == Stream(rate, ds, seed + suffixes[l], 0, n)
  {
    hide StreamByte, Stream;
    var out := new u8[Ways(arch), n]((_, _) => 0);
    Xof.Xof(arch, rate, ds, seed, suffixes, out);
    bufs := [];
    for l := 0 to Ways(arch)
      invariant |bufs| == l
      invariant forall k :: 0 <= k < l ==> bufs[k] == Stream(rate, ds, seed + suffixes[k], 0, n)
    {
      var row := OutputOf(out, l);
      forall p | 0 <= p < n ensures row[p] == Stream(rate, ds, seed + suffixes[l], 0, n)[p] {
        StreamAt(rate, ds, seed + suffixes[l], 0, n, p);
      }
      bufs := bufs + [row];
    }
  }

  // -------------------------------------------------------------------------------------------
  // The matrix
  // -------------------------------------------------------------------------------------------

  /** The row and column of an entry, numbered in row-major order. */
  function RowOf(l: nat, e: nat): (i: nat)
    requires e < l * l
    ensures i < l
  {
    QuotientBelow(l, e, l);
    e / l
  }

  function ColumnOf(l: nat, e: nat): (j: nat)
    requires e < l * l
    ensures j < l
  {
    e % l
  }

  lemma EntryNumber(l: nat, i: nat, j: nat, e: nat)
    requires i < l && j < l && e == i * l + j
    ensures e < l * l && RowOf(l, e) == i && ColumnOf(l, e) == j
  {
    MulMono(i + 1, l, l);
    DivUnique(e, l, i, j);
  }

  /** Entries below `done` are what the serial double loop derives. */
  ghost predicate EntriesDone(mat: array2<Elem>, l: nat, seed: Bytes, done: nat)
    requires mat.Length0 == mat.Length1 == l && l <= 256
    reads mat
  {
    forall e :: 0 <= e < done && e < l * l ==>
      mat[RowOf(l, e), ColumnOf(l, e)] == MatrixEntry(seed, RowOf(l, e), ColumnOf(l, e))
  }

  /** The index bytes of a batch; one that runs past the end repeats the last entry. */
  function MatrixIndex(l: nat, first: nat, lane: nat): (s: Bytes)
    requires first < l * l && l <= 256
    ensures |s| == 2
    ensures first + lane < l * l ==> s == [RowOf(l, first + lane), ColumnOf(l, first + lane)]
  {
    var entry: nat := if first + lane < l * l - 1 then first + lane else l * l - 1;
    [RowOf(l, entry), ColumnOf(l, entry)]
  }

  function MatrixIndices(arch: Arch, l: nat, first: nat): (s: seq<Bytes>)
    requires first < l * l && l <= 256
    ensures |s| == Ways(arch)
  {
    seq(Ways(arch), lane requires 0 <= lane < Ways(arch) => MatrixIndex(l, first, lane))
  }

  method Unpack13(arch: Arch, buf: Bytes) returns (e: Elem)
    requires |buf| == 416
    ensures e == Unpack(13, 256, buf)
  {
    if arch.Avx2? {
      e := VecSer.Avx2Deserialize(13, buf);
    } else {
      e := VecSer.NeonDeserialize(13, buf);
    }
  }

  /** One batch. */
  method MatrixBatch(arch: Arch, l: nat, seed: Bytes, mat: array2<Elem>, first: nat)
    requires |seed| == 32 && l <= 256 && mat.Length0 == mat.Length1 == l && first < l * l
    requires EntriesDone(mat, l, seed, first)
    modifies mat
    ensures EntriesDone(mat, l, seed, first + Ways(arch))
  {
    hide RowOf, ColumnOf, MatrixEntry, Stream, Unpack, MatrixIndex;
    var indices := MatrixIndices(arch, l, first);
    var bufs := Batch(arch, RATE_128, DOMSEP_GENMAT, seed, indices, 416);
    for lane := 0 to Ways(arch)
      invariant EntriesDone(mat, l, seed, first + lane)
    {
      var entry := first + lane;
      if entry < l * l {
        BatchEntry(seed, RowOf(l, entry), ColumnOf(l, entry), indices[lane], bufs[lane]);
        mat[RowOf(l, entry), ColumnOf(l, entry)] := Unpack13(arch, bufs[lane]);
      }
    }
  }

  lemma BatchEntry(seed: Bytes, i: u8, j: u8, index: Bytes, buf: Bytes)
    requires index == [i, j] && buf == Stream(RATE_128, DOMSEP_GENMAT, seed + index, 0, 416)
    ensures |buf| == 416 && Unpack(13, 256, buf) == MatrixEntry(seed, i, j)
  {
    hide Stream, Unpack;
    assert seed + [i] + [j] == seed + index;
  }

  /** The batched `gen_matrix_from_seed`. */
  method GenMatrixBatched(arch: Arch, l: nat, seed: Bytes) returns (m: Matrix<Elem>)
    requires |seed| == 32 && l <= 256
    ensures m == GenMatrix(l, seed)
  {
    var mat := new Elem[l, l]((_, _) => ZERO_ELEM);
    hide EntriesDone, GenMatrix;
    NoEntries(mat, l, seed);
    var first: nat := 0;
    while first < l * l
      invariant EntriesDone(mat, l, seed, first)
    {
      MatrixBatch(arch, l, seed, mat, first);
      first := first + Ways(arch);
    }
    AllEntries(mat, l, seed, first);
    m := Filled(mat);
    IsGenMatrix(m, l, seed);
  }

  lemma NoEntries(mat: array2<Elem>, l: nat, seed: Bytes)
    requires mat.Length0 == mat.Length1 == l && l <= 256
    ensures EntriesDone(mat, l, seed, 0)
  {
  }

  lemma AllEntries(mat: array2<Elem>, l: nat, seed: Bytes, done: nat)
    requires mat.Length0 == mat.Length1 == l && l <= 256 && l * l <= done && EntriesDone(mat, l, seed, done)
    ensures forall i, j :: 0 <= i < l && 0 <= j < l ==> mat[i, j] == MatrixEntry(seed, i, j)
  {
    hide MatrixEntry, RowOf, ColumnOf;
    forall i, j | 0 <= i < l && 0 <= j < l
      ensures mat[i, j] == MatrixEntry(seed, i, j)
    {
      EntryNumber(l, i, j, i * l + j);
    }
  }

  lemma IsGenMatrix(m: Matrix<Elem>, l: nat, seed: Bytes)
    requires l <= 256 && IsMatrix(m, l, l)
    requires forall i, j :: 0 <= i < l && 0 <= j < l ==> m[i][j] == MatrixEntry(seed, i, j)
    ensures m == GenMatrix(l, seed)
  {
    hide MatrixEntry;
    assert forall i :: 0 <= i < l ==> m[i] == GenMatrix(l, seed)[i];
  }

  // -------------------------------------------------------------------------------------------
  // The secret
  // -------------------------------------------------------------------------------------------

  function SecretIndex(l: nat, first: nat, lane: nat): (s: Bytes)
    requires 0 < l <= 256
    ensures |s| == 1 && (first + lane < l ==> s == [first + lane])
  {
    [if first + lane < l - 1 then first + lane else l - 1]
  }

  function SecretIndices(arch: Arch, l: nat, first: nat): (s: seq<Bytes>)
    requires 0 < l <= 256
    ensures |s| == Ways(arch)
  {
    seq(Ways(arch), lane requires 0 <= lane < Ways(arch) => SecretIndex(l, first, lane))
  }

  /** The sampler each backend's `secret` uses: NEON leaves whole bytes to the portable loop. */
  method SampleElem(arch: Arch, mu: nat, buf: Bytes) returns (e: Elem)
    requires (mu == 6 || mu == 8 || mu == 10) && |buf| == 32 * mu
    ensures e == Cbd.CbdElem(mu, buf)
  {
    hide Cbd.CbdElem;
    if arch.Neon? && mu % 8 == 0 {
      var out := new u16[256](_ => 0);
      Cbd.Cbd(mu, buf, out);
      e := out[..];
    } else {
      e := VecCbd.VecCbd(arch, mu, buf);
    }
  }

  /** One batch. */
  method SecretBatch(arch: Arch, l: nat, mu: nat, seed: Bytes, secret: array<Elem>, first: nat)
    requires |seed| == 32 && l <= 256 && (mu == 6 || mu == 8 || mu == 10) && secret.Length == l && first < l
    requires forall i :: 0 <= i < first ==> secret[i] == SecretEntry(mu, seed, i)
    modifies secret
    ensures forall i :: 0 <= i < first + Ways(arch) && i < l ==> secret[i] == SecretEntry(mu, seed, i)
  {
    hide SecretEntry, Stream, Cbd.CbdElem, SecretIndex;
    var indices := SecretIndices(arch, l, first);
    var bufs := Batch(arch, RATE_256, DOMSEP_GENSEC, seed, indices, 32 * mu);
    for lane := 0 to Ways(arch)
      invariant forall i :: 0 <= i < first + lane && i < l ==> secret[i] == SecretEntry(mu, seed, i)
    {
      var i := first + lane;
      if i < l {
        BatchSecret(mu, seed, i, indices[lane], bufs[lane]);
        secret[i] := SampleElem(arch, mu, bufs[lane]);
      }
    }
  }

  lemma BatchSecret(mu: nat, seed: Bytes, i: u8, index: Bytes, buf: Bytes)
    requires mu <= 16 && index == [i] && buf == Stream(RATE_256, DOMSEP_GENSEC, seed + index, 0, 32 * mu)
    ensures |buf| == 32 * mu && Cbd.CbdElem(mu, buf) == SecretEntry(mu, seed, i)
  {
    hide Stream, Cbd.CbdElem;
  }

  /** The batched `gen_secret_from_seed`: a single batch on AVX2, where the vector always fits in one,
      and as many as it takes on NEON. */
  method GenSecretBatched(arch: Arch, l: nat, mu: nat, seed: Bytes) returns (s: seq<Elem>)
    requires |seed| == 32 && 1 <= l <= 4 && (mu == 6 || mu == 8 || mu == 10)
    ensures s == GenSecret(l, mu, seed)
  {
    hide SecretEntry;
    var secret := new Elem[l](_ => ZERO_ELEM);
    if arch.Avx2? {
      SecretBatch(arch, l, mu, seed, secret, 0);
    } else {
      var first := 0;
      while first < l
        invariant forall i :: 0 <= i < first && i < l ==> secret[i] == SecretEntry(mu, seed, i)
      {
        SecretBatch(arch, l, mu, seed, secret, first);
        first := first + Ways(arch);
      }
    }
    s := secret[..];
  }

  // -------------------------------------------------------------------------------------------
  // Dispatch
  // -------------------------------------------------------------------------------------------

  method SampleMatrix(backend: Backend, l: nat, seed: Bytes) returns (m: Matrix<Elem>)
    requires |seed| == 32 && l <= 256
    ensures m == GenMatrix(l, seed)
  {
    hide *;
    if backend.Avx2? {
      m := GenMatrixBatched(Arch.Avx2, l, seed);
    } else if backend.Neon? {
      m := GenMatrixBatched(Arch.Neon, l, seed);
    } else {
      m := GenMatrixFromSeed(l, seed);
    }
  }

  method SampleSecret(backend: Backend, l: nat, mu: nat, seed: Bytes) returns (s: seq<Elem>)
    requires |seed| == 32 && 1 <= l <= 4 && (mu == 6 || mu == 8 || mu == 10)
    ensures s == GenSecret(l, mu, seed)
  {
    hide *;
    if backend.Avx2? {
      s := GenSecretBatched(Arch.Avx2, l, mu, seed);
    } else if backend.Neon? {
      s := GenSecretBatched(Arch.Neon, l, mu, seed);
    } else {
      s := GenSecretFromSeed(l, mu, seed);
    }
  }
}
