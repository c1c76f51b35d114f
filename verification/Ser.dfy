/** Packing ring elements into bytes and back (`src/ser.rs`). */
module Ser {
  import opened Words
  import opened Congruence
  import opened Bits
  import opened Positional

  type Bytes = seq<u8>

  // -------------------------------------------------------------------------------------------
  // What packing means
  // -------------------------------------------------------------------------------------------

  function Low(w: nat, x: nat): (r: nat)
    ensures r < Pow2(w)
  {
    x % Pow2(w)
  }

  /** The low `w` bits of every word. */
  function Masked(w: nat, data: seq<u16>): (r: seq<nat>)
    ensures |r| == |data|
    ensures forall i :: 0 <= i < |r| ==> r[i] < Pow2(w)
  {
    seq(|data|, i requires 0 <= i < |data| => Low(w, data[i]))
  }

  /** The number the words stand for, `w` bits each. */
  function Packed(w: nat, data: seq<u16>): nat {
    Num(Pow2(w), Masked(w, data))
  }

  /** That number in bytes. */
  function Pack(w: nat, data: seq<u16>): (bytes: Bytes)
    ensures |bytes| == w * |data| / 8
  {
    Digits(256, w * |data| / 8, Packed(w, data))
  }

  /** The number the bytes stand for, in words of `w` bits. */
  function Unpack(w: nat, n: nat, bytes: Bytes): (data: seq<u16>)
    requires w <= 16
    ensures |data| == n
    ensures forall i :: 0 <= i < n ==> data[i] < Pow2(w)
  {
    Pow2Mono(w, 16);
    Pow2Values();
    Digits(Pow2(w), n, Num(256, bytes))
  }

  lemma SameWidth(w: nat, n: nat, m: nat)
    requires w * n == 8 * m
    ensures Power(Pow2(w), n) == Power(256, m)
  {
    PowerIsPow2(w, n);
    PowerIsPow2(8, m);
    Pow2Values();
  }

  /** Unpacking what was packed gives back the masked words. */
  lemma UnpackAfterPack(w: nat, data: seq<u16>)
    requires w <= 16 && w * |data| % 8 == 0
    ensures Unpack(w, |data|, Pack(w, data)) == Masked(w, data)
  {
    var m := w * |data| / 8;
    SameWidth(w, |data|, m);
    NumBound(Pow2(w), Masked(w, data));
    NumOfDigits(256, m, Packed(w, data));
    DigitsOfNum(Pow2(w), Masked(w, data));
  }

  /** Masking changes nothing that fits. */
  lemma MaskedSmall(w: nat, data: seq<u16>)
    requires forall i :: 0 <= i < |data| ==> data[i] < Pow2(w)
    ensures Masked(w, data) == data
  {
    forall i | 0 <= i < |data| ensures Masked(w, data)[i] == data[i] { DivUnique(data[i], Pow2(w), 0, data[i]); }
  }

  /** Packing what was unpacked gives back the bytes. */
  lemma PackAfterUnpack(w: nat, n: nat, bytes: Bytes)
    requires w <= 16 && w * n == 8 * |bytes|
    ensures Pack(w, Unpack(w, n, bytes)) == bytes
  {
    var data := Unpack(w, n, bytes);
    SameWidth(w, n, |bytes|);
    NumBound(256, bytes);
    NumOfDigits(Pow2(w), n, Num(256, bytes));
    MaskedSmall(w, data);
    DigitsOfNum(256, bytes);
  }

  // -------------------------------------------------------------------------------------------
  // The sliding windows
  // -------------------------------------------------------------------------------------------

  /** `x << k` on a `u32`. */
  function Shl32(x: nat, k: nat): nat {
    x * Pow2(k) % 0x1_0000_0000
  }

  /** `x >> k`. */
  function Shr(x: nat, k: nat): nat {
    ModBound(x, Pow2(k));
    x / Pow2(k)
  }

  lemma ShrShrinks(x: nat, s: nat)
    ensures Shr(x, s) <= x
  {
    Divide(x, Pow2(s));
    ModBound(x, Pow2(s));
    MulMono(1, Pow2(s), x / Pow2(s));
  }

  /** What is still to be emitted: the window's bits below the bits not yet read. */
  function Pending(window: nat, bits: nat, rest: nat): nat {
    window + Pow2(bits) * rest
  }

  /** Inserting `v` bits on top of the window keeps what is pending, and nothing is shifted out. */
  lemma Insert(window: nat, bits: nat, v: nat, d: nat, rest: nat)
    requires bits + v <= 21 && window < Pow2(bits) && d < Pow2(v)
    ensures var w' := BitOr(window, Shl32(d, bits));
            w' < Pow2(bits + v) && Pending(w', bits + v, rest) == Pending(window, bits, d + Pow2(v) * rest)
  {
    Pow2Mono(bits + v, 21);
    Pow2Values();
    Pow2Add(bits, v);
    var p := Pow2(bits);
    ShiftFits(p, Pow2(v), d);
    OrIsAdd(window, d, bits);
    Below(p, window, d, Pow2(v));
    Expand(p, Pow2(v), d, rest);
  }

  lemma ShiftFits(p: nat, q: nat, d: nat)
    requires p * q <= 0x20_0000 && d < q
    ensures d * p == p * d && d * p % 0x1_0000_0000 == d * p
  {
    MulMono(d, q, p);
  }

  lemma Expand(p: nat, q: nat, d: nat, rest: nat)
    ensures p * (d + q * rest) == p * d + p * q * rest
  {
  }

  /** Taking `w` bits off the window takes the lowest digit off what is pending. */
  lemma TakeBits(window: nat, bits: nat, w: nat, rest: nat)
    requires w <= bits && window < Pow2(bits)
    ensures BitAnd(window, Pow2(w) - 1) == window % Pow2(w) == Pending(window, bits, rest) % Pow2(w)
    ensures Pending(Shr(window, w), bits - w, rest) == Pending(window, bits, rest) / Pow2(w)
    ensures Shr(window, w) < Pow2(bits - w)
  {
    AndIsMod(window, w);
    var p, q := Pow2(w), Pow2(bits - w);
    Pow2Add(w, bits - w);
    QuotientBelow(p, window, q);
    Divide(window, p);
    Assoc(p, q, rest);
    Distribute(p, window / p, q * rest);
    DivUnique(window + p * (q * rest), p, window / p + q * rest, window % p);
  }

  lemma Distribute(p: int, a: int, b: int)
    ensures p * (a + b) == p * a + p * b
  {
  }

  lemma PendingStart(rest: nat)
    ensures Pow2(0) == 1 && Pending(0, 0, rest) == rest
  {
  }

  /** The input never runs out while an element is due. */
  lemma MoreBytes(w: nat, n: nat, idx: nat, len: nat, due: nat)
    requires idx < n && w * n == 8 * len && due == w * idx
    ensures due + w <= 8 * len && w * (idx + 1) == due + w
  {
    MulMono(idx + 1, n, w);
  }

  lemma NumHead(b: nat, ds: seq<nat>, pos: nat)
    requires pos < |ds|
    ensures Num(b, ds[pos..]) == ds[pos] + b * Num(b, ds[pos + 1..])
  {
    assert ds[pos..][1..] == ds[pos + 1..];
  }

  lemma DigitsHead(b: nat, n: nat, x: nat)
    requires b > 0 && n > 0
    ensures Digits(b, n, x) == [x % b] + Digits(b, n - 1, x / b)
  {
  }

  lemma TakenFits(x: nat, p: nat)
    requires 0 < p <= 8192
    ensures 0 <= x % p < 8192
  {
  }

  /** One more element: the digits still due move one place. */
  lemma Emit(done: seq<int>, b: nat, n: nat, x: nat, all: seq<int>)
    requires b > 0 && n > 0 && done + Digits(b, n, x) == all
    ensures done + [x % b] + Digits(b, n - 1, x / b) == all
  {
    DigitsHead(b, n, x);
    assert done + [x % b] + Digits(b, n - 1, x / b) == done + ([x % b] + Digits(b, n - 1, x / b));
  }

  /** The refill loop of `deserialize_generic`. */
  method Refill(bytes: Bytes, w: nat, window0: nat, bits0: nat, pos0: nat) returns (window: nat, bits: nat, pos: nat)
    requires w <= 13 && bits0 < 8 && pos0 <= |bytes| && window0 < Pow2(bits0)
    requires 8 * pos0 + w <= 8 * |bytes| + bits0
    ensures w <= bits && (bits < w + 8 || bits == bits0) && pos0 <= pos <= |bytes| && 8 * pos - bits == 8 * pos0 - bits0
            && window < Pow2(bits)
    ensures Pending(window, bits, Num(256, bytes[pos..])) == Pending(window0, bits0, Num(256, bytes[pos0..]))
  {
    hide *;
    window, bits, pos := window0, bits0, pos0;
    while bits < w
      invariant (bits < w + 8 || bits == bits0) && pos0 <= pos <= |bytes| && 8 * pos - bits == 8 * pos0 - bits0
                && window < Pow2(bits)
      invariant Pending(window, bits, Num(256, bytes[pos..])) == Pending(window0, bits0, Num(256, bytes[pos0..]))
    {
      NumHead(256, bytes, pos);
      Pow2Values();
      Insert(window, bits, 8, bytes[pos], Num(256, bytes[pos + 1..]));
      window := BitOr(window, Shl32(bytes[pos], bits));
      pos := pos + 1;
      bits := bits + 8;
    }
  }

  /** One turn of the loop of `deserialize_generic`. */
  method Element(bytes: Bytes, w: nat, window0: nat, bits0: nat, pos0: nat)
    returns (elem: u16, window: nat, bits: nat, pos: nat)
    requires w <= 13 && bits0 < 8 && pos0 <= |bytes| && window0 < Pow2(bits0)
    requires 8 * pos0 + w <= 8 * |bytes| + bits0
    ensures pos0 <= pos <= |bytes| && 8 * pos - bits == 8 * pos0 - bits0 + w && bits < 8 && window < Pow2(bits)
    ensures var x := Pending(window0, bits0, Num(256, bytes[pos0..]));
            elem == x % Pow2(w) && Pending(window, bits, Num(256, bytes[pos..])) == x / Pow2(w)
  {
    Pow2Mono(w, 13);
    Pow2Values();
    hide *;
    window, bits, pos := Refill(bytes, w, window0, bits0, pos0);
    TakeBits(window, bits, w, Num(256, bytes[pos..]));
    TakenFits(Pending(window, bits, Num(256, bytes[pos..])), Pow2(w));
    elem := BitAnd(window, Pow2(w) - 1);
    window := Shr(window, w);
    bits := bits - w;
  }

  /** `deserialize_generic`. */
  method DeserializeGeneric(bytes: Bytes, n: nat, w: nat) returns (data: seq<u16>)
    requires 1 <= w <= 13 && w * n == 8 * |bytes|
    ensures data == Unpack(w, n, bytes)
  {
    ghost var all: seq<int>, p: nat, x: nat := Unpack(w, n, bytes), Pow2(w), Num(256, bytes);
    assert bytes[0..] == bytes;
    PendingStart(x);
    hide *;
    var out := new u16[n](_ => 0);
    var window: nat, bits: nat, pos: nat := 0, 0, 0;
    ghost var due := 0;
    assert w * 0 == 0;
    for idx := 0 to n
      invariant due == w * idx
      invariant bits < 8 && pos <= |bytes| && 8 * pos == due + bits && window < Pow2(bits)
      invariant x == Pending(window, bits, Num(256, bytes[pos..]))
      invariant out[..idx] + Digits(p, n - idx, x) == all
    {
      MoreBytes(w, n, idx, |bytes|, due);
      Emit(out[..idx], p, n - idx, x, all);
      var elem;
      elem, window, bits, pos := Element(bytes, w, window, bits, pos);
      out[idx] := elem;
      x := x / p;
      due := due + w;
      assert out[..idx + 1] == out[..idx] + [elem];
    }
    assert out[..] == out[..n];
    data := out[..];
    DigitsEnd(data, p, x, all);
  }

  lemma DigitsEnd(done: seq<int>, b: nat, x: nat, all: seq<int>)
    requires b > 0 && done + Digits(b, 0, x) == all
    ensures done == all
  {
  }

  /** The flush loop of `serialize_generic`: complete bytes leave from the bottom of the window. */
  method Flush(buf: array<u8>, window0: nat, bits0: nat, pos0: nat, ghost rest: nat, ghost all: seq<int>)
    returns (window: nat, bits: nat, pos: nat)
    requires pos0 <= buf.Length && 8 * pos0 + bits0 < 8 * buf.Length + 8 && window0 < Pow2(bits0)
    requires buf[..pos0] + Digits(256, buf.Length - pos0, Pending(window0, bits0, rest)) == all
    modifies buf
    ensures bits < 8 && pos <= buf.Length && 8 * pos + bits == 8 * pos0 + bits0 && window < Pow2(bits)
    ensures buf[..pos] + Digits(256, buf.Length - pos, Pending(window, bits, rest)) == all
  {
    Pow2Values();
    hide *;
    window, bits, pos := window0, bits0, pos0;
    while bits >= 8
      invariant pos <= buf.Length && 8 * pos + bits == 8 * pos0 + bits0 && window < Pow2(bits)
      invariant buf[..pos] + Digits(256, buf.Length - pos, Pending(window, bits, rest)) == all
    {
      Emit(buf[..pos], 256, buf.Length - pos, Pending(window, bits, rest), all);
      TakeBits(window, bits, 8, rest);
      var byte := window % 256;
      buf[pos] := byte;
      assert buf[..pos + 1] == buf[..pos] + [byte];
      window := Shr(window, 8);
      bits := bits - 8;
      pos := pos + 1;
    }
  }

  lemma MaskedAt(w: nat, data: seq<u16>, idx: nat)
    requires idx < |data|
    ensures Masked(w, data)[idx] == BitAnd(data[idx], Pow2(w) - 1) == Low(w, data[idx])
  {
    AndIsMod(data[idx], w);
  }

  lemma ElementFits(w: nat, n: nat, idx: nat, due: nat)
    requires idx < n && due == w * idx
    ensures due + w <= w * n && w * (idx + 1) == due + w
  {
    MulMono(idx + 1, n, w);
  }

  /** `serialize_generic`, into a caller's buffer; `left` is `bits_in_window` at the end, which its
      debug assertion expects to be zero. */
  method SerializeGeneric(w: nat, data: seq<u16>, buf: array<u8>) returns (left: nat)
    requires 1 <= w <= 13 && buf.Length == w * |data| / 8
    modifies buf
    ensures buf[..] == Pack(w, data)
    ensures left == w * |data| % 8
  {
    ghost var all: seq<int>, p: nat, ds := Pack(w, data), Pow2(w), Masked(w, data);
    assert ds[0..] == ds && buf[..0] == [];
    PendingStart(Num(p, ds));
    ghost var total := w * |data|;
    assert all == Digits(256, buf.Length, Num(p, ds)) && buf.Length == total / 8;
    hide *;
    var bitmask := Pow2(w) - 1;
    var window: nat, bits: nat, pos: nat := 0, 0, 0;
    ghost var due := 0;
    assert w * 0 == 0;
    for idx := 0 to |data|
      invariant due == w * idx && due <= total
      invariant bits < 8 && pos <= buf.Length && 8 * pos + bits == due && window < Pow2(bits)
      invariant buf[..pos] + Digits(256, buf.Length - pos, Pending(window, bits, Num(p, ds[idx..]))) == all
    {
      ElementFits(w, |data|, idx, due);
      MaskedAt(w, data, idx);
      NumHead(p, ds, idx);
      Insert(window, bits, w, ds[idx], Num(p, ds[idx + 1..]));
      window := BitOr(window, Shl32(BitAnd(data[idx], bitmask), bits));
      bits := bits + w;
      window, bits, pos := Flush(buf, window, bits, pos, Num(p, ds[idx + 1..]), all);
      due := due + w;
    }
    left := bits;
    assert pos == buf.Length && buf[..] == buf[..pos];
    DigitsEnd(buf[..], 256, Pending(window, bits, Num(p, ds[|data|..])), all);
  }
}
