/** The unrolled 13- and 10-bit routines of `src/ser.rs` compute what the sliding windows do. */
module SerFast {
  import opened Words
  import opened Congruence
  import opened Bits
  import opened Positional
  import opened Ser

  /** `x << k` on a `u16`. */
  function Shl16(x: nat, k: nat): nat {
    x * Pow2(k) % 0x1_0000
  }

  // -------------------------------------------------------------------------------------------
  // One field
  // -------------------------------------------------------------------------------------------

  /** `h` below `p`, then a unit `b` of `q * r` values, then the rest: taking a digit of `p * q` values
      takes `h` and the lowest `q` part of `b`. */
  lemma Split(h: nat, p: nat, q: nat, r: nat, b: nat, t: nat)
    requires h < p && 0 < q
    ensures (h + p * (b + q * r * t)) % (p * q) == h + p * (b % q)
    ensures (h + p * (b + q * r * t)) / (p * q) == b / q + r * t
  {
    var lo, hi := b % q, b / q;
    Below(p, h, lo, q);
    Divide(b, q);
    Regroup(h, p, q, r, lo, hi, t);
    DivUnique(h + p * (b + q * r * t), p * q, hi + r * t, h + p * lo);
  }

  lemma Regroup(h: int, p: int, q: int, r: int, lo: int, hi: int, t: int)
    ensures h + p * (lo + q * hi + q * r * t) == p * q * (hi + r * t) + (h + p * lo)
  {
    assert q * r * t == q * (r * t);
    assert p * (q * hi + q * (r * t)) == p * q * (hi + r * t);
  }

  /** `h | ((b & mask) << k)`, with `mask` of `m` ones, is the digit of `k + m` bits, and `b >> m` starts
      the next one. */
  lemma Field(h: nat, k: nat, m: nat, s: nat, b: nat, t: nat)
    requires h < Pow2(k) && k + m <= 16 && b < Pow2(m + s)
    ensures var x := h + Pow2(k) * (b + Pow2(m + s) * t);
            && BitOr(h, Shl16(BitAnd(b, Pow2(m) - 1), k)) == x % Pow2(k + m)
            && Shr(b, m) + Pow2(s) * t == x / Pow2(k + m)
            && Shr(b, m) < Pow2(s)
  {
    Pow2Add(k, m);
    Pow2Add(m, s);
    Pow2Mono(k + m, 16);
    Pow2Values();
    AndIsMod(b, m);
    Split(h, Pow2(k), Pow2(m), Pow2(s), b, t);
    ShiftedFits(Pow2(k), Pow2(m), b % Pow2(m));
    OrIsAdd(h, b % Pow2(m), k);
    QuotientBelow(Pow2(m), b, Pow2(s));
  }

  lemma ShiftedFits(p: nat, q: nat, d: nat)
    requires p * q <= 0x1_0000 && d < q && 0 < p
    ensures d * p == p * d && d * p % 0x1_0000 == d * p
  {
    MulMono(d + 1, q, p);
  }

  /** `h | (b << k)` with a whole unit. */
  lemma Whole(h: nat, k: nat, v: nat, b: nat)
    requires h < Pow2(k) && b < Pow2(v) && k + v <= 16
    ensures BitOr(h, Shl16(b, k)) == h + Pow2(k) * b < Pow2(k + v)
  {
    Pow2Add(k, v);
    Pow2Mono(k + v, 16);
    Pow2Values();
    ShiftedFits(Pow2(k), Pow2(v), b);
    OrIsAdd(h, b, k);
    Below(Pow2(k), h, b, Pow2(v));
  }

  // -------------------------------------------------------------------------------------------
  // Runs of digits
  // -------------------------------------------------------------------------------------------

  /** The digits of `x` are `ds` followed by those of `y`. */
  ghost predicate Starts(b: nat, ds: seq<nat>, x: nat, y: nat)
    requires b > 0
  {
    forall n: nat :: Digits(b, |ds| + n, x) == ds + Digits(b, n, y)
  }

  lemma StartsOne(b: nat, x: nat)
    requires b > 0
    ensures Starts(b, [x % b], x, x / b)
  {
  }

  lemma StartsThen(b: nat, ds: seq<nat>, x: nat, y: nat, es: seq<nat>, z: nat)
    requires b > 0 && Starts(b, ds, x, y) && Starts(b, es, y, z)
    ensures Starts(b, ds + es, x, z)
  {
    forall n: nat ensures Digits(b, |ds + es| + n, x) == ds + es + Digits(b, n, z) {
      assert Digits(b, |ds| + (|es| + n), x) == ds + Digits(b, |es| + n, y);
    }
  }

  lemma ModBelow(x: nat, p: nat)
    requires p > 0
    ensures 0 <= x % p < p
  {
  }

  lemma StartsFour(b: nat, d0: nat, d1: nat, d2: nat, d3: nat, x0: nat, x1: nat, x2: nat, x3: nat, x4: nat)
    requires b > 0 && Starts(b, [d0], x0, x1) && Starts(b, [d1], x1, x2) && Starts(b, [d2], x2, x3)
             && Starts(b, [d3], x3, x4)
    ensures Starts(b, [d0, d1, d2, d3], x0, x4)
  {
    hide Starts;
    StartsThen(b, [d0], x0, x1, [d1], x2);
    StartsThen(b, [d2], x2, x3, [d3], x4);
    StartsThen(b, [d0] + [d1], x0, x2, [d2] + [d3], x4);
    assert [d0] + [d1] + ([d2] + [d3]) == [d0, d1, d2, d3];
  }

  /** One unpacked field.  The powers of two come in as numbers, so that callers only meet literals. */
  lemma Unpacked(h: nat, k: nat, m: nat, s: nat, b: nat, t: nat, mask: nat, pk: nat, pb: nat, ps: nat, base: nat,
                 x: nat, y: nat)
    requires mask == Pow2(m) - 1 && pk == Pow2(k) && pb == Pow2(m + s) && ps == Pow2(s) && base == Pow2(k + m)
    requires h < pk && k + m <= 16 && b < pb && x == h + pk * (b + pb * t) && y == Shr(b, m) + ps * t
    ensures Starts(base, [BitOr(h, Shl16(BitAnd(b, mask), k))], x, y)
    ensures Shr(b, m) < ps && BitOr(h, Shl16(BitAnd(b, mask), k)) < base
  {
    hide *;
    Field(h, k, m, s, b, t);
    ModBelow(x, base);
    StartsOne(base, x);
  }

  /** A whole byte taken in before the field's last one. */
  lemma Joined(h: nat, k: nat, b: u8, pk: nat, bound: nat)
    requires pk == Pow2(k) && bound == Pow2(k + 8) && h < pk && k + 8 <= 16
    ensures BitOr(h, Shl16(b, k)) == h + pk * b < bound
  {
    Pow2Values();
    hide *;
    Whole(h, k, 8, b);
  }

  /** One packed byte: `(h | (b << k)) as u8`. */
  lemma PackedByte(h: nat, k: nat, m: nat, s: nat, b: nat, t: nat, pk: nat, pm: nat, pb: nat, ps: nat, x: nat, y: nat)
    requires pk == Pow2(k) && pm == Pow2(m) && pb == Pow2(m + s) && pk * pm == 256 && pm * ps == pb && k + m + s <= 16
    requires h < pk && b < pb && x == h + pk * (b + pb * t) && y == Shr(b, m) + ps * t
    ensures Starts(256, [BitOr(h, Shl16(b, k)) % 256], x, y)
    ensures Shr(b, m) < ps
  {
    assert Shr(b, m) == b / Pow2(m);
    hide *;
    Whole(h, k, m + s, b);
    QuotientBelow(pm, b, ps);
    PackedDigit(h, pk, pm, ps, pb, b, t);
    StartsOne(256, x);
  }

  lemma PackedDigit(h: nat, p: nat, q: nat, r: nat, qr: nat, b: nat, t: nat)
    requires h < p && 0 < q && p * q == 256 && q * r == qr
    ensures (h + p * b) % 256 == (h + p * (b + qr * t)) % 256
    ensures (h + p * (b + qr * t)) / 256 == b / q + r * t
  {
    Split(h, p, q, r, b, t);
    Split(h, p, q, r, b, 0);
  }

  // -------------------------------------------------------------------------------------------
  // `deserialize_10`
  // -------------------------------------------------------------------------------------------

  /** The four coefficients of a 5-byte group. */
  function Group10(b: Bytes): (g: seq<nat>)
    requires |b| == 5
    ensures |g| == 4
  {
    [BitOr(b[0], Shl16(BitAnd(b[1], 0x03), 8)),
     BitOr(Shr(b[1], 2), Shl16(BitAnd(b[2], 0x0f), 6)),
     BitOr(Shr(b[2], 4), Shl16(BitAnd(b[3], 0x3f), 4)),
     BitOr(Shr(b[3], 6), Shl16(b[4], 2))]
  }

  predicate Group10Small(g: seq<nat>) {
    |g| == 4 && g[0] < 1024 && g[1] < 1024 && g[2] < 1024 && g[3] < 1024
  }

  lemma Group10Digits(b: Bytes, t0: nat, t1: nat, t2: nat, t3: nat, t4: nat, t5: nat)
    requires |b| == 5 && t0 == b[0] + 256 * t1 && t1 == b[1] + 256 * t2 && t2 == b[2] + 256 * t3
    requires t3 == b[3] + 256 * t4 && t4 == b[4] + 256 * t5
    ensures Group10Small(Group10(b))
    ensures Starts(1024, Group10(b), t0, t5)
  {
    Pow2Values();
    hide BitOr, BitAnd, Shl16, Shr, Pow2, Starts;
    var x1, x2, x3 := Shr(b[1], 2) + 64 * t2, Shr(b[2], 4) + 16 * t3, Shr(b[3], 6) + 4 * t4;
    Unpacked(b[0], 8, 2, 6, b[1], t2, 3, 256, 256, 64, 1024, t0, x1);
    Unpacked(Shr(b[1], 2), 6, 4, 4, b[2], t3, 15, 64, 256, 16, 1024, x1, x2);
    Unpacked(Shr(b[2], 4), 4, 6, 2, b[3], t4, 63, 16, 256, 4, 1024, x2, x3);
    UnpackedLast(Shr(b[3], 6), 2, b[4], t5, 4, 1024, x3);
    var g := Group10(b);
    StartsFour(1024, g[0], g[1], g[2], g[3], t0, x1, x2, x3, t5);
    assert g == [g[0], g[1], g[2], g[3]];
  }

  /** The number the bytes from `pos` on stand for. */
  function From(b: nat, ds: seq<nat>, pos: nat): nat
    requires pos <= |ds|
  {
    Num(b, ds[pos..])
  }

  /** The same for bytes. */
  function Bytes256(bytes: Bytes, pos: nat): nat
    requires pos <= |bytes|
  {
    From(256, bytes, pos)
  }

  function Window(bytes: Bytes, pos: nat, n: nat): (b: Bytes)
    requires pos + n <= |bytes|
    ensures |b| == n
  {
    bytes[pos..pos + n]
  }

  lemma WindowFour(bytes: Bytes, pos: nat, b: Bytes, o: nat)
    requires o + 4 <= |b| && pos + |b| <= |bytes| && b == Window(bytes, pos, |b|)
    ensures Bytes256(bytes, pos + o) == b[o] + 256 * Bytes256(bytes, pos + o + 1)
    ensures Bytes256(bytes, pos + o + 1) == b[o + 1] + 256 * Bytes256(bytes, pos + o + 2)
    ensures Bytes256(bytes, pos + o + 2) == b[o + 2] + 256 * Bytes256(bytes, pos + o + 3)
    ensures Bytes256(bytes, pos + o + 3) == b[o + 3] + 256 * Bytes256(bytes, pos + o + 4)
  {
    hide From;
    FromFour(256, bytes, pos + o);
  }

  lemma Group10At(bytes: Bytes, pos: nat)
    requires pos + 5 <= |bytes|
    ensures Group10Small(Group10(Window(bytes, pos, 5)))
    ensures Starts(1024, Group10(Window(bytes, pos, 5)), Bytes256(bytes, pos), Bytes256(bytes, pos + 5))
  {
    hide *;
    var b := Window(bytes, pos, 5);
    WindowFour(bytes, pos, b, 0);
    WindowFour(bytes, pos, b, 1);
    Group10Digits(b, Bytes256(bytes, pos), Bytes256(bytes, pos + 1), Bytes256(bytes, pos + 2),
                  Bytes256(bytes, pos + 3), Bytes256(bytes, pos + 4), Bytes256(bytes, pos + 5));
  }

  lemma FromHead(b: nat, ds: seq<nat>, pos: nat)
    requires pos < |ds|
    ensures From(b, ds, pos) == ds[pos] + b * From(b, ds, pos + 1)
  {
    NumHead(b, ds, pos);
  }

  lemma FromFour(b: nat, ds: seq<nat>, pos: nat)
    requires pos + 4 <= |ds|
    ensures From(b, ds, pos) == ds[pos] + b * From(b, ds, pos + 1)
    ensures From(b, ds, pos + 1) == ds[pos + 1] + b * From(b, ds, pos + 2)
    ensures From(b, ds, pos + 2) == ds[pos + 2] + b * From(b, ds, pos + 3)
    ensures From(b, ds, pos + 3) == ds[pos + 3] + b * From(b, ds, pos + 4)
  {
    hide *;
    FromHead(b, ds, pos);
    FromHead(b, ds, pos + 1);
    FromHead(b, ds, pos + 2);
    FromHead(b, ds, pos + 3);
  }

  /** The last field of a group takes all of its last byte. */
  lemma UnpackedLast(h: nat, k: nat, b: u8, t: nat, pk: nat, base: nat, x: nat)
    requires pk == Pow2(k) && base == Pow2(k + 8) && h < pk && k + 8 <= 16 && x == h + pk * (b + 256 * t)
    ensures Starts(base, [BitOr(h, Shl16(b, k))], x, t) && BitOr(h, Shl16(b, k)) < base
  {
    Pow2Values();
    AllOfByte(b);
    hide *;
    Unpacked(h, k, 8, 0, b, t, 255, pk, 256, 1, base, x, t);
  }

  /** Masking or shifting a byte by all eight bits. */
  lemma AllOfByte(b: u8)
    ensures BitAnd(b, Pow2(8) - 1) == b && Shr(b, 8) == 0
  {
    Pow2Values();
    hide BitAnd, Pow2;
    AndIsMod(b, 8);
  }

  /** Each loop here emits `all` from the front, the digits of `x` being what is still due. */
  ghost predicate Progress(done: seq<int>, b: nat, n: int, x: nat, all: seq<int>)
    requires b > 0
  {
    0 <= n && done + Digits(b, n, x) == all
  }

  lemma NextGroup(done: seq<int>, b: nat, g: seq<nat>, n: nat, x: nat, y: nat, all: seq<int>)
    requires b > 0 && Starts(b, g, x, y) && |g| <= n && Progress(done, b, n, x, all)
    ensures Progress(done + g, b, n - |g|, y, all)
  {
    var k: nat := n - |g|;
    assert Digits(b, |g| + k, x) == g + Digits(b, k, y);
    assert done + g + Digits(b, k, y) == done + (g + Digits(b, k, y));
  }

  lemma Finished(done: seq<int>, b: nat, x: nat, all: seq<int>)
    requires b > 0 && Progress(done, b, 0, x, all)
    ensures done == all
  {
  }

  /** The assignments to `out[o]`, `out[o + 1]` and so on. */
  method StoreWords(out: array<u16>, o: nat, c: seq<nat>)
    requires o + |c| <= out.Length && WordsFit(c)
    modifies out
    ensures out[..o + |c|] == old(out[..o]) + c
  {
    ghost var was := out[..o];
    for i := 0 to |c|
      invariant out[..o] == was
      invariant forall j :: 0 <= j < i ==> out[o + j] == c[j]
    {
      out[o + i] := c[i];
    }
  }

  method Deserialize10(bytes: Bytes) returns (data: seq<u16>)
    requires |bytes| == 320
    ensures data == Unpack(10, 256, bytes)
  {
    hide *;
    ghost var all: seq<int> := Unpack(10, 256, bytes);
    var out := new u16[256](_ => 0);
    UnpackStart10(bytes, out[..0], all);
    for g := 0 to 64
      invariant Progress(out[..4 * g], 1024, 256 - 4 * g, Bytes256(bytes, 5 * g), all)
    {
      Take10(out, bytes, 4 * g, 5 * g, all);
    }
    data := out[..];
    assert out[..] == out[..256];
    Finished(data, 1024, Bytes256(bytes, 320), all);
  }

  /** One turn of the loop, coefficients from `o` and bytes from `i` on. */
  method Take10(out: array<u16>, bytes: Bytes, o: nat, i: nat, ghost all: seq<int>)
    requires out.Length == 256 && |bytes| == 320 && o + 4 <= 256 && i + 5 <= 320
    requires Progress(out[..o], 1024, 256 - o, Bytes256(bytes, i), all)
    modifies out
    ensures Progress(out[..o + 4], 1024, 256 - o - 4, Bytes256(bytes, i + 5), all)
  {
    hide *;
    var c := Group10(Window(bytes, i, 5));
    Group10At(bytes, i);
    NextGroup(out[..o], 1024, c, 256 - o, Bytes256(bytes, i), Bytes256(bytes, i + 5), all);
    SmallFits10(c);
    StoreWords(out, o, c);
  }

  lemma UnpackStart10(bytes: Bytes, done: seq<int>, all: seq<int>)
    requires all == Unpack(10, 256, bytes) && done == []
    ensures Progress(done, 1024, 256, Bytes256(bytes, 0), all)
  {
    Pow2Values();
    assert bytes[0..] == bytes;
  }

  predicate WordsFit(c: seq<nat>) {
    forall i :: 0 <= i < |c| ==> c[i] < 0x1_0000
  }

  lemma SmallFits10(c: seq<nat>)
    requires Group10Small(c)
    ensures WordsFit(c)
  {
  }

  // -------------------------------------------------------------------------------------------
  // `deserialize_13`
  // -------------------------------------------------------------------------------------------

  /** The eight coefficients of a 13-byte group. */
  function Group13(b: Bytes): (g: seq<nat>)
    requires |b| == 13
    ensures |g| == 8
  {
    Low13(b) + High13(b)
  }

  function Low13(b: Bytes): (g: seq<nat>)
    requires |b| == 13
    ensures |g| == 4
  {
    [BitOr(b[0], Shl16(BitAnd(b[1], 0x1f), 8)),
     BitOr(BitOr(Shr(b[1], 5), Shl16(b[2], 3)), Shl16(BitAnd(b[3], 0x03), 11)),
     BitOr(Shr(b[3], 2), Shl16(BitAnd(b[4], 0x7f), 6)),
     BitOr(BitOr(Shr(b[4], 7), Shl16(b[5], 1)), Shl16(BitAnd(b[6], 0x0f), 9))]
  }

  function High13(b: Bytes): (g: seq<nat>)
    requires |b| == 13
    ensures |g| == 4
  {
    [BitOr(BitOr(Shr(b[6], 4), Shl16(b[7], 4)), Shl16(BitAnd(b[8], 0x01), 12)),
     BitOr(Shr(b[8], 1), Shl16(BitAnd(b[9], 0x3f), 7)),
     BitOr(BitOr(Shr(b[9], 6), Shl16(b[10], 2)), Shl16(BitAnd(b[11], 0x07), 10)),
     BitOr(Shr(b[11], 3), Shl16(b[12], 5))]
  }

  predicate Group13Small(g: seq<nat>) {
    |g| == 4 && g[0] < 8192 && g[1] < 8192 && g[2] < 8192 && g[3] < 8192
  }

  /** The first four coefficients, up to what byte 6 still holds. */
  lemma Group13Low(b: Bytes, t0: nat, t1: nat, t2: nat, t3: nat, t4: nat, t5: nat, t6: nat, t7: nat)
    requires |b| == 13 && t0 == b[0] + 256 * t1 && t1 == b[1] + 256 * t2 && t2 == b[2] + 256 * t3
             && t3 == b[3] + 256 * t4
    requires t4 == b[4] + 256 * t5 && t5 == b[5] + 256 * t6 && t6 == b[6] + 256 * t7
    ensures Shr(b[6], 4) < 16 && Group13Small(Low13(b))
    ensures Starts(8192, Low13(b), t0, Shr(b[6], 4) + 16 * t7)
  {
    Pow2Values();
    hide BitOr, BitAnd, Shl16, Shr, Pow2, Starts;
    var x1, x2, x3, x4 := Shr(b[1], 5) + 8 * t2, Shr(b[3], 2) + 64 * t4, Shr(b[4], 7) + 2 * t5, Shr(b[6], 4) + 16 * t7;
    Unpacked(b[0], 8, 5, 3, b[1], t2, 31, 256, 256, 8, 8192, t0, x1);
    Joined(Shr(b[1], 5), 3, b[2], 8, 2048);
    Unpacked(BitOr(Shr(b[1], 5), Shl16(b[2], 3)), 11, 2, 6, b[3], t4, 3, 2048, 256, 64, 8192, x1, x2);
    Unpacked(Shr(b[3], 2), 6, 7, 1, b[4], t5, 127, 64, 256, 2, 8192, x2, x3);
    Joined(Shr(b[4], 7), 1, b[5], 2, 512);
    Unpacked(BitOr(Shr(b[4], 7), Shl16(b[5], 1)), 9, 4, 4, b[6], t7, 15, 512, 256, 16, 8192, x3, x4);
    var g := Low13(b);
    StartsFour(8192, g[0], g[1], g[2], g[3], t0, x1, x2, x3, x4);
    assert g == [g[0], g[1], g[2], g[3]];
  }

  /** The last four. */
  lemma Group13High(b: Bytes, t7: nat, t8: nat, t9: nat, t10: nat, t11: nat, t12: nat, t13: nat)
    requires |b| == 13 && Shr(b[6], 4) < 16 && t7 == b[7] + 256 * t8 && t8 == b[8] + 256 * t9 && t9 == b[9] + 256 * t10
    requires t10 == b[10] + 256 * t11 && t11 == b[11] + 256 * t12 && t12 == b[12] + 256 * t13
    ensures Group13Small(High13(b))
    ensures Starts(8192, High13(b), Shr(b[6], 4) + 16 * t7, t13)
  {
    Pow2Values();
    hide BitOr, BitAnd, Shl16, Shr, Pow2, Starts;
    var x4 := Shr(b[6], 4) + 16 * t7;
    var x5, x6, x7 := Shr(b[8], 1) + 128 * t9, Shr(b[9], 6) + 4 * t10, Shr(b[11], 3) + 32 * t12;
    Joined(Shr(b[6], 4), 4, b[7], 16, 4096);
    Unpacked(BitOr(Shr(b[6], 4), Shl16(b[7], 4)), 12, 1, 7, b[8], t9, 1, 4096, 256, 128, 8192, x4, x5);
    Unpacked(Shr(b[8], 1), 7, 6, 2, b[9], t10, 63, 128, 256, 4, 8192, x5, x6);
    Joined(Shr(b[9], 6), 2, b[10], 4, 1024);
    Unpacked(BitOr(Shr(b[9], 6), Shl16(b[10], 2)), 10, 3, 5, b[11], t12, 7, 1024, 256, 32, 8192, x6, x7);
    UnpackedLast(Shr(b[11], 3), 5, b[12], t13, 32, 8192, x7);
    var g := High13(b);
    StartsFour(8192, g[0], g[1], g[2], g[3], x4, x5, x6, x7, t13);
    assert g == [g[0], g[1], g[2], g[3]];
  }

  lemma Group13At(bytes: Bytes, pos: nat)
    requires pos + 13 <= |bytes|
    ensures var b := Window(bytes, pos, 13); Group13Small(Low13(b)) && Group13Small(High13(b))
    ensures Starts(8192, Group13(Window(bytes, pos, 13)), Bytes256(bytes, pos), Bytes256(bytes, pos + 13))
  {
    hide *;
    var b := Window(bytes, pos, 13);
    Group13LowAt(bytes, pos, b);
    Group13HighAt(bytes, pos, b);
    StartsThen(8192, Low13(b), Bytes256(bytes, pos), Shr(b[6], 4) + 16 * Bytes256(bytes, pos + 7), High13(b),
      Bytes256(bytes, pos + 13));
    Group13Is(b);
  }

  lemma Group13Is(b: Bytes)
    requires |b| == 13
    ensures Group13(b) == Low13(b) + High13(b)
  {
  }

  lemma Group13LowAt(bytes: Bytes, pos: nat, b: Bytes)
    requires pos + 13 <= |bytes| && b == Window(bytes, pos, 13)
    ensures Group13Small(Low13(b)) && Shr(b[6], 4) < 16
    ensures Starts(8192, Low13(b), Bytes256(bytes, pos), Shr(b[6], 4) + 16 * Bytes256(bytes, pos + 7))
  {
    hide *;
    WindowFour(bytes, pos, b, 0);
    WindowFour(bytes, pos, b, 3);
    Group13Low(b, Bytes256(bytes, pos), Bytes256(bytes, pos + 1), Bytes256(bytes, pos + 2), Bytes256(bytes, pos + 3),
               Bytes256(bytes, pos + 4), Bytes256(bytes, pos + 5), Bytes256(bytes, pos + 6), Bytes256(bytes, pos + 7));
  }

  lemma Group13HighAt(bytes: Bytes, pos: nat, b: Bytes)
    requires pos + 13 <= |bytes| && b == Window(bytes, pos, 13) && Shr(b[6], 4) < 16
    ensures Group13Small(High13(b))
    ensures Starts(8192, High13(b), Shr(b[6], 4) + 16 * Bytes256(bytes, pos + 7), Bytes256(bytes, pos + 13))
  {
    hide *;
    WindowFour(bytes, pos, b, 7);
    WindowFour(bytes, pos, b, 9);
    Group13High(b, Bytes256(bytes, pos + 7), Bytes256(bytes, pos + 8), Bytes256(bytes, pos + 9),
      Bytes256(bytes, pos + 10),
                Bytes256(bytes, pos + 11), Bytes256(bytes, pos + 12), Bytes256(bytes, pos + 13));
  }

  method Deserialize13(bytes: Bytes) returns (data: seq<u16>)
    requires |bytes| == 416
    ensures data == Unpack(13, 256, bytes)
  {
    hide *;
    ghost var all: seq<int> := Unpack(13, 256, bytes);
    var out := new u16[256](_ => 0);
    UnpackStart13(bytes, out[..0], all);
    for g := 0 to 32
      invariant Progress(out[..8 * g], 8192, 256 - 8 * g, Bytes256(bytes, 13 * g), all)
    {
      Take13(out, bytes, 8 * g, 13 * g, all);
    }
    data := out[..];
    assert out[..] == out[..256];
    Finished(data, 8192, Bytes256(bytes, 416), all);
  }

  lemma UnpackStart13(bytes: Bytes, done: seq<int>, all: seq<int>)
    requires all == Unpack(13, 256, bytes) && done == []
    ensures Progress(done, 8192, 256, Bytes256(bytes, 0), all)
  {
    Pow2Values();
    assert bytes[0..] == bytes;
  }

  /** One turn of the loop, coefficients from `o` and bytes from `i` on. */
  method Take13(out: array<u16>, bytes: Bytes, o: nat, i: nat, ghost all: seq<int>)
    requires out.Length == 256 && |bytes| == 416 && o + 8 <= 256 && i + 13 <= 416
    requires Progress(out[..o], 8192, 256 - o, Bytes256(bytes, i), all)
    modifies out
    ensures Progress(out[..o + 8], 8192, 256 - o - 8, Bytes256(bytes, i + 13), all)
  {
    hide *;
    var b := Window(bytes, i, 13);
    var c := Group13(b);
    Group13At(bytes, i);
    NextGroup(out[..o], 8192, c, 256 - o, Bytes256(bytes, i), Bytes256(bytes, i + 13), all);
    SmallFits13(b);
    StoreWords(out, o, c);
  }

  lemma SmallFits13(b: Bytes)
    requires |b| == 13 && Group13Small(Low13(b)) && Group13Small(High13(b))
    ensures WordsFit(Group13(b))
  {
  }

  // -------------------------------------------------------------------------------------------
  // `serialize_10`
  // -------------------------------------------------------------------------------------------

  /** The five bytes of a group of four masked coefficients. */
  function Bytes10(d: seq<nat>): (g: seq<nat>)
    requires |d| == 4
    ensures |g| == 5
  {
    [d[0] % 256,
     BitOr(Shr(d[0], 8), Shl16(d[1], 2)) % 256,
     BitOr(Shr(d[1], 6), Shl16(d[2], 4)) % 256,
     BitOr(Shr(d[2], 4), Shl16(d[3], 6)) % 256,
     Shr(d[3], 2) % 256]
  }

  lemma Bytes10Digits(d: seq<nat>, t0: nat, t1: nat, t2: nat, t3: nat, t4: nat)
    requires |d| == 4 && d[0] < 1024 && d[1] < 1024 && d[2] < 1024 && d[3] < 1024
    requires t0 == d[0] + 1024 * t1 && t1 == d[1] + 1024 * t2 && t2 == d[2] + 1024 * t3 && t3 == d[3] + 1024 * t4
    ensures Starts(256, Bytes10(d), t0, t4)
  {
    Pow2Values();
    FirstByte(d[0]);
    LastByte(d[3]);
    hide BitOr, Shl16, Shr, Pow2, Starts;
    var x1, x2, x3, x4 := Shr(d[0], 8) + 4 * t1, Shr(d[1], 6) + 16 * t2, Shr(d[2], 4) + 64 * t3,
      Shr(d[3], 2) + 256 * t4;
    PackedByte(0, 0, 8, 2, d[0], t1, 1, 256, 1024, 4, t0, x1);
    PackedByte(Shr(d[0], 8), 2, 6, 4, d[1], t2, 4, 64, 1024, 16, x1, x2);
    PackedByte(Shr(d[1], 6), 4, 4, 6, d[2], t3, 16, 16, 1024, 64, x2, x3);
    PackedByte(Shr(d[2], 4), 6, 2, 8, d[3], t4, 64, 4, 1024, 256, x3, x4);
    PackedByte(Shr(d[3], 2), 8, 0, 0, 0, t4, 256, 1, 1, 1, x4, t4);
    var g := Bytes10(d);
    StartsFour(256, g[0], g[1], g[2], g[3], t0, x1, x2, x3, x4);
    StartsThen(256, [g[0], g[1], g[2], g[3]], t0, x4, [g[4]], t4);
    assert g == [g[0], g[1], g[2], g[3]] + [g[4]];
  }

  lemma TimesOne(d: nat, p: nat)
    requires d < 1024 && p == 1
    ensures d * p % 0x1_0000 == d
  {
  }

  lemma FirstByte(d: nat)
    requires d < 1024
    ensures BitOr(0, Shl16(d, 0)) == d
  {
    assert Pow2(0) == 1;
    TimesOne(d, Pow2(0));
    assert Shl16(d, 0) == d;
    hide *;
    OrZero(d);
  }

  lemma LastByte(d: nat)
    ensures BitOr(Shr(d, 2), Shl16(0, 8)) == Shr(d, 2) && Shr(0, 0) == 0
  {
    Pow2Values();
    hide Pow2;
    OrComm(Shr(d, 2), 0);
    OrZero(Shr(d, 2));
  }

  /** `serialize_10`. */
  method Serialize10(data: seq<u16>, buf: array<u8>)
    requires |data| == 256 && buf.Length == 320
    modifies buf
    ensures buf[..] == Pack(10, data)
  {
    ghost var all: seq<int>, ds := Pack(10, data), Masked(10, data);
    PackStart(data, buf[..0], ds, all);
    hide *;
    for g := 0 to 64
      invariant Progress(buf[..5 * g], 256, 320 - 5 * g, From(1024, ds, 4 * g), all)
    {
      Put10(data, buf, 4 * g, 5 * g, ds, all);
    }
    assert buf[..] == buf[..320];
    Finished(buf[..], 256, From(1024, ds, 256), all);
  }

  lemma PackStart(data: seq<u16>, done: seq<int>, ds: seq<nat>, all: seq<int>)
    requires |data| == 256 && done == [] && ds == Masked(10, data) && all == Pack(10, data)
    ensures Progress(done, 256, 320, From(1024, ds, 0), all)
  {
    Pow2Values();
    assert ds[0..] == ds;
  }

  /** One turn of the loop, coefficients from `o` and bytes from `i` on. */
  method Put10(data: seq<u16>, buf: array<u8>, o: nat, i: nat, ghost ds: seq<nat>, ghost all: seq<int>)
    requires |data| == 256 && buf.Length == 320 && o + 4 <= 256 && i + 5 <= 320 && ds == Masked(10, data)
    requires Progress(buf[..i], 256, 320 - i, From(1024, ds, o), all)
    modifies buf
    ensures Progress(buf[..i + 5], 256, 320 - i - 5, From(1024, ds, o + 4), all)
  {
    hide *;
    var d := [BitAnd(data[o], 0x3ff), BitAnd(data[o + 1], 0x3ff), BitAnd(data[o + 2], 0x3ff),
      BitAnd(data[o + 3], 0x3ff)];
    var c := Bytes10(d);
    Bytes10At(data, d, o);
    NextGroup(buf[..i], 256, c, 320 - i, From(1024, ds, o), From(1024, ds, o + 4), all);
    StoreBytes(buf, i, c);
  }

  method StoreBytes(buf: array<u8>, o: nat, c: seq<nat>)
    requires o + |c| <= buf.Length && Bytes10Small(c)
    modifies buf
    ensures buf[..o + |c|] == old(buf[..o]) + c
  {
    ghost var was := buf[..o];
    for i := 0 to |c|
      invariant buf[..o] == was
      invariant forall j :: 0 <= j < i ==> buf[o + j] == c[j]
    {
      buf[o + i] := c[i];
    }
  }

  lemma Bytes10At(data: seq<u16>, d: seq<nat>, o: nat)
    requires o + 4 <= |data| && d == [BitAnd(data[o], 0x3ff), BitAnd(data[o + 1], 0x3ff), BitAnd(data[o + 2], 0x3ff),
             BitAnd(data[o + 3], 0x3ff)]
    ensures Bytes10Small(Bytes10(d))
    ensures var ds := Masked(10, data); Starts(256, Bytes10(d), From(1024, ds, o), From(1024, ds, o + 4))
  {
    var ds := Masked(10, data);
    Pow2Values();
    MaskedAt(10, data, o);
    MaskedAt(10, data, o + 1);
    MaskedAt(10, data, o + 2);
    MaskedAt(10, data, o + 3);
    assert Bytes10Small(Bytes10(d)) by { hide BitOr, BitAnd, Shl16, Shr, Masked, From; }
    FromFour(1024, ds, o);
    hide *;
    Bytes10Digits(d, From(1024, ds, o), From(1024, ds, o + 1), From(1024, ds, o + 2), From(1024, ds, o + 3),
      From(1024, ds, o + 4));
  }

  predicate Bytes10Small(g: seq<nat>) {
    |g| == 5 && forall i :: 0 <= i < 5 ==> g[i] < 256
  }
}
