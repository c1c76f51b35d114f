/** Coefficient-wise operations on ring elements, and their serialization one by one or in vectors
    (`src/arithmetic/plain_arith.rs`). */
module PlainArith {
  import opened Words
  import opened Congruence
  import opened Bits
  import opened Positional
  import opened Ser
  import opened RingMul
  import SerFast
  import VecSer

  function AddToAll(e: Elem, v: nat): Elem {
    seq(256, i requires 0 <= i < 256 => WrapU16(e[i] as int + v))
  }

  function ShiftRight(e: Elem, k: nat): Elem {
    seq(256, i requires 0 <= i < 256 => ShiftedDown(e[i], k))
  }

  function ShiftedDown(x: u16, k: nat): u16 {
    ShrShrinks(x, k);
    Shr(x, k)
  }

  function ShiftLeft(e: Elem, k: nat): Elem {
    seq(256, i requires 0 <= i < 256 => WrapU16(e[i] as int * Pow2(k)))
  }

  function Minus(a: Elem, b: Elem): Elem {
    seq(256, i requires 0 <= i < 256 => WrapU16(a[i] as int - b[i] as int))
  }

  /** `RingElem::deserialize`: one vector routine for every width, or the portable ones. */
  method Deserialize(backend: Backend, w: nat, bytes: Bytes) returns (e: Elem)
    requires 1 <= w <= 13 && |bytes| == 32 * w
    ensures e == Unpack(w, 256, bytes)
  {
    hide *;
    if backend.Avx2? {
      e := VecSer.Avx2Deserialize(w, bytes);
    } else if backend.Neon? {
      e := VecSer.NeonDeserialize(w, bytes);
    } else if w == 13 {
      e := SerFast.Deserialize13(bytes);
    } else if w == 10 {
      e := SerFast.Deserialize10(bytes);
    } else {
      e := DeserializeGeneric(bytes, 256, w);
    }
  }

  /** `RingElem::serialize`. */
  method Serialize(w: nat, e: Elem, buf: array<u8>)
    requires 1 <= w <= 13 && buf.Length == 32 * w
    modifies buf
    ensures buf[..] == Pack(w, e)
  {
    hide *;
    if w == 10 {
      SerFast.Serialize10(e, buf);
    } else {
      WidthBytes(w, e);
      var left := SerializeGeneric(w, e, buf);
    }
  }

  lemma WidthBytes(w: nat, e: Elem)
    ensures w * |e| / 8 == 32 * w
  {
  }

  // -------------------------------------------------------------------------------------------
  // Vectors at 10 bits a coefficient
  // -------------------------------------------------------------------------------------------

  function Chunk(bytes: Bytes, i: nat): (c: Bytes)
    requires 320 * i + 320 <= |bytes|
    ensures |c| == 320
  {
    bytes[320 * i..320 * i + 320]
  }

  function PackElem(e: Elem): (c: Bytes)
    ensures |c| == 320
  {
    Pack(10, e)
  }

  function UnpackElem(c: Bytes): (e: Elem) {
    Unpack(10, 256, c)
  }

  /** The vector's elements, packed one after another. */
  function Flat(chunks: seq<Bytes>): (bytes: Bytes)
    requires forall i :: 0 <= i < |chunks| ==> |chunks[i]| == 320
    ensures |bytes| == 320 * |chunks|
  {
    if |chunks| == 0 then [] else Flat(chunks[..|chunks| - 1]) + chunks[|chunks| - 1]
  }

  lemma {:induction false} ChunkOfFlat(chunks: seq<Bytes>, rest: Bytes, i: nat)
    requires i < |chunks| && forall j :: 0 <= j < |chunks| ==> |chunks[j]| == 320
    ensures Chunk(Flat(chunks) + rest, i) == chunks[i]
  {
    var n := |chunks| - 1;
    var last := chunks[n];
    if i == n {
      assert Chunk(Flat(chunks) + rest, i) == last;
    } else {
      ChunkOfFlat(chunks[..n], last + rest, i);
      assert Flat(chunks) + rest == Flat(chunks[..n]) + (last + rest);
    }
  }

  /** Cutting a string into chunks and joining them again changes nothing. */
  lemma {:induction false} FlatOfChunks(bytes: Bytes, n: nat, chunks: seq<Bytes>)
    requires |bytes| == 320 * n && |chunks| == n
    requires forall i :: 0 <= i < |chunks| ==> |chunks[i]| == 320
    requires forall i :: 0 <= i < n ==> chunks[i] == Chunk(bytes, i)
    ensures Flat(chunks) == bytes
  {
    if n > 0 {
      var head := bytes[..320 * (n - 1)];
      forall i | 0 <= i < n - 1 ensures chunks[..n - 1][i] == Chunk(head, i) {
        assert Chunk(head, i) == Chunk(bytes, i);
      }
      FlatOfChunks(head, n - 1, chunks[..n - 1]);
      assert bytes == head + Chunk(bytes, n - 1);
    }
  }

  function PackVector(v: seq<Elem>): (chunks: seq<Bytes>)
    ensures |chunks| == |v|
    ensures forall i :: 0 <= i < |v| ==> |chunks[i]| == 320 && chunks[i] == PackElem(v[i])
  {
    seq(|v|, i requires 0 <= i < |v| => PackElem(v[i]))
  }

  function UnpackVector(l: nat, bytes: Bytes): (v: seq<Elem>)
    requires 320 * l <= |bytes|
    ensures |v| == l
    ensures forall i :: 0 <= i < l ==> v[i] == UnpackElem(Chunk(bytes, i))
  {
    seq(l, i requires 0 <= i < l => UnpackElem(Chunk(bytes, i)))
  }

  /** `Matrix::deserialize_10` for a vector. */
  method DeserializeVector(backend: Backend, l: nat, bytes: Bytes) returns (v: seq<Elem>)
    requires |bytes| == 320 * l
    ensures v == UnpackVector(l, bytes)
  {
    hide *;
    var result := new Elem[l](_ => ZeroElem());
    for i := 0 to l
      invariant forall j :: 0 <= j < i ==> result[j] == UnpackElem(Chunk(bytes, j))
    {
      result[i] := DeserializeChunk(backend, bytes, i);
    }
    v := result[..];
  }

  method DeserializeChunk(backend: Backend, bytes: Bytes, i: nat) returns (e: Elem)
    requires 320 * i + 320 <= |bytes|
    ensures e == UnpackElem(Chunk(bytes, i))
  {
    hide Unpack;
    e := Deserialize(backend, 10, Chunk(bytes, i));
  }

  function ZeroElem(): Elem {
    seq(256, _ => 0)
  }

  /** Copying a chunk into place. */
  method CopyInto(buf: array<u8>, at: nat, chunk: Bytes)
    requires at + |chunk| <= buf.Length
    modifies buf
    ensures buf[..at + |chunk|] == old(buf[..at]) + chunk
    ensures buf[at + |chunk|..] == old(buf[at + |chunk|..])
  {
    ghost var was := buf[..at];
    for i := 0 to |chunk|
      invariant buf[..at] == was
      invariant forall j :: 0 <= j < i ==> buf[at + j] == chunk[j]
      invariant buf[at + |chunk|..] == old(buf[at + |chunk|..])
    {
      buf[at + i] := chunk[i];
    }
  }

  /** `Matrix::serialize::<10>` for a vector, into the front of a buffer. */
  method SerializeVector(v: seq<Elem>, buf: array<u8>)
    requires 320 * |v| <= buf.Length
    modifies buf
    ensures buf[..320 * |v|] == Flat(PackVector(v))
  {
    hide *;
    ghost var chunks := PackVector(v);
    assert Flat(chunks[..0]) == [] by { FlatNone(chunks[..0]); }
    for i := 0 to |v|
      invariant buf[..320 * i] == Flat(chunks[..i])
    {
      var chunk := new u8[320](_ => 0);
      SerializeChunk(v[i], chunk);
      CopyInto(buf, 320 * i, chunk[..]);
      FlatStep(chunks, i);
    }
    assert chunks[..|v|] == chunks;
  }

  method SerializeChunk(e: Elem, chunk: array<u8>)
    requires chunk.Length == 320
    modifies chunk
    ensures chunk[..] == PackElem(e)
  {
    hide Pack;
    Serialize(10, e, chunk);
  }

  lemma FlatNone(chunks: seq<Bytes>)
    requires |chunks| == 0
    ensures Flat(chunks) == []
  {
  }

  lemma FlatStep(chunks: seq<Bytes>, i: nat)
    requires i < |chunks| && forall j :: 0 <= j < |chunks| ==> |chunks[j]| == 320
    ensures Flat(chunks[..i + 1]) == Flat(chunks[..i]) + chunks[i]
  {
    assert chunks[..i + 1][..i] == chunks[..i];
  }

  /** A packed vector, then some more bytes. */
  method SerializeWithTail(v: seq<Elem>, tail: Bytes, buf: array<u8>)
    requires buf.Length == 320 * |v| + |tail|
    modifies buf
    ensures buf[..] == Flat(PackVector(v)) + tail
  {
    hide *;
    SerializeVector(v, buf);
    CopyInto(buf, 320 * |v|, tail);
    assert buf[..] == buf[..320 * |v| + |tail|];
  }
}
