/** The AVX2 and NEON unpackers: one shuffle plan per width, a 4-byte window per coefficient, and a
    zero-padded copy of the tail so that every 16-byte load is in bounds. */
module VecSer {
  import opened Words
  import opened Congruence
  import opened Bits
  import opened Positional
  import opened Ser
  import opened Fields

  // -------------------------------------------------------------------------------------------
  // Plans
  // -------------------------------------------------------------------------------------------

  /** Control byte `i`: byte `i % 4` of lane `i / 4`'s window, which starts at its coefficient's first
      byte. */
  function ShuffleAt(w: nat, i: nat): nat {
    i / 4 * w / 8 + i % 4
  }

  /** How far down lane `k`'s coefficient lies in its window; NEON wants the count negated. */
  function ShiftAt(w: nat, negate: bool, k: nat): int {
    if negate then 0 - k * w % 8 else k * w % 8
  }

  datatype Plan = Plan(shuffle: seq<nat>, shift: seq<int>)

  predicate IsPlan(w: nat, negate: bool, p: Plan) {
    && |p.shuffle| == 32 && |p.shift| == 8
    && (forall i :: 0 <= i < 32 ==> p.shuffle[i] == ShuffleAt(w, i))
    && (forall k :: 0 <= k < 8 ==> p.shift[k] == ShiftAt(w, negate, k))
  }

  /** `plan`. */
  method MakePlan(w: nat, negate: bool) returns (p: Plan)
    ensures IsPlan(w, negate, p)
  {
    var shuffle, shift := new nat[32](_ => 0), new int[8](_ => 0);
    var k := 0;
    while k < 8
      invariant 0 <= k <= 8
      invariant forall j :: 0 <= j < k ==> shift[j] == ShiftAt(w, negate, j)
      invariant forall i :: 0 <= i < 4 * k ==> shuffle[i] == ShuffleAt(w, i)
    {
      shift[k] := if negate then 0 - k * w % 8 else k * w % 8;
      PlanLane(shuffle, w, k);
      k := k + 1;
    }
    p := Plan(shuffle[..], shift[..]);
  }

  /** The inner loop of `plan`. */
  method PlanLane(shuffle: array<nat>, w: nat, k: nat)
    requires shuffle.Length == 32 && k < 8
    modifies shuffle
    ensures forall i :: 4 * k <= i < 4 * k + 4 ==> shuffle[i] == ShuffleAt(w, i)
    ensures forall i :: 0 <= i < 4 * k ==> shuffle[i] == old(shuffle[i])
  {
    var offset := k * w / 8;
    var byte := 0;
    while byte < 4
      invariant 0 <= byte <= 4
      invariant forall i :: 4 * k <= i < 4 * k + byte ==> shuffle[i] == ShuffleAt(w, i)
      invariant forall i :: 0 <= i < 4 * k ==> shuffle[i] == old(shuffle[i])
    {
      ShuffleIs(w, k, byte, 4 * k + byte);
      shuffle[4 * k + byte] := offset + byte;
      byte := byte + 1;
    }
  }

  lemma ShuffleIs(w: nat, k: nat, byte: nat, i: nat)
    requires byte < 4 && i == 4 * k + byte
    ensures ShuffleAt(w, i) == k * w / 8 + byte
  {
    assert i / 4 == k && i % 4 == byte;
  }

  // -------------------------------------------------------------------------------------------
  // Loads
  // -------------------------------------------------------------------------------------------

  type Quad = b: Bytes | |b| == 16 witness [0, 0, 0, 0, 0, 0, 0, 0, 0, 0, 0, 0, 0, 0, 0, 0]

  /** `load_u8x16`. */
  function Load16(b: Bytes, at: nat): (q: Quad)
    requires at + 16 <= |b|
  {
    b[at..at + 16]
  }

  /** The buffer with the zero bytes the scratch copy supplies. */
  ghost function Padded(bytes: Bytes): Bytes {
    bytes + Zeros(32)
  }

  /** How many groups of eight start within 15 bytes of the end, and where the last of the others
      ends. */
  lemma TailFacts(w: nat, tailGroups: nat, tailStart: nat)
    requires 1 <= w <= 13 && tailGroups == 15 / w && tailStart == (32 - tailGroups) * w
    ensures tailGroups <= 15 && tailStart <= 32 * w && 32 * w - tailStart <= 15
    ensures 32 * w - tailStart == tailGroups * w && tailGroups * w + w > 15
  {
    if w == 1 { } else if w == 2 { } else if w == 3 { } else if w == 4 { }
    else if w == 5 { } else if w <= 7 { } else { }
  }

  /** The tail copy. */
  method CopyTail(bytes: Bytes, tailStart: nat) returns (tail: Bytes)
    requires tailStart <= |bytes| <= tailStart + 15
    ensures |tail| == 32 && tail == Padded(bytes)[tailStart..tailStart + 32]
  {
    var t := new u8[32](_ => 0);
    for i := 0 to |bytes| - tailStart
      invariant forall j :: 0 <= j < i ==> t[j] == bytes[tailStart + j]
      invariant forall j :: i <= j < 32 ==> t[j] == 0
    {
      t[i] := bytes[tailStart + i];
    }
    tail := t[..];
    ZerosAt(32);
  }

  /** Every group's 16 bytes, from the buffer itself or from the copy of its tail, in bounds. */
  method LoadGroup(bytes: Bytes, tail: Bytes, w: nat, headGroups: nat, tailStart: nat, group: nat) returns (raw: Quad)
    requires 1 <= w <= 13 && |bytes| == 32 * w && group < 32
    requires headGroups == 32 - 15 / w && tailStart == headGroups * w
    requires |tail| == 32 && tailStart <= |bytes| && tail == Padded(bytes)[tailStart..tailStart + 32]
    ensures group * w + 16 <= |Padded(bytes)| && raw == Padded(bytes)[group * w..group * w + 16]
  {
    GroupInBounds(w, headGroups, tailStart, group);
    hide *;
    var at := group * w;
    if group < headGroups {
      raw := Load16(bytes, at);
      LoadedHead(bytes, at);
    } else {
      raw := Load16(tail, at - tailStart);
      LoadedTail(bytes, tail, tailStart, at);
    }
  }

  lemma LoadedHead(bytes: Bytes, at: nat)
    requires at + 16 <= |bytes|
    ensures at + 16 <= |Padded(bytes)| && Load16(bytes, at) == Padded(bytes)[at..at + 16]
  {
  }

  lemma LoadedTail(bytes: Bytes, tail: Bytes, tailStart: nat, at: nat)
    requires tailStart <= at <= |bytes| && at - tailStart + 16 <= 32 == |tail| && tailStart <= |bytes|
    requires tail == Padded(bytes)[tailStart..tailStart + 32]
    ensures at + 16 <= |Padded(bytes)| && Load16(tail, at - tailStart) == Padded(bytes)[at..at + 16]
  {
    PaddedIs(bytes);
    hide Padded;
    var p, x, o := Padded(bytes), Load16(tail, at - tailStart), at - tailStart;
    forall i | 0 <= i < 16 ensures x[i] == p[at + i] {
      assert x[i] == tail[o + i] == p[tailStart + (o + i)];
    }
  }

  lemma GroupInBounds(w: nat, headGroups: nat, tailStart: nat, group: nat)
    requires 1 <= w <= 13 && group < 32 && headGroups == 32 - 15 / w && tailStart == headGroups * w
    ensures group * w + w <= 32 * w
    ensures group < headGroups ==> group * w + 16 <= 32 * w
    ensures group >= headGroups ==> tailStart <= group * w && group * w - tailStart + 16 <= 32
  {
    TailFacts(w, 15 / w, tailStart);
    BoundsFrom(w, 15 / w, headGroups, tailStart, group);
  }

  lemma BoundsFrom(w: nat, tailGroups: nat, headGroups: nat, tailStart: nat, group: nat)
    requires group < 32 && headGroups == 32 - tailGroups && tailStart == headGroups * w
    requires 32 * w - tailStart == tailGroups * w <= 15 && tailGroups * w + w > 15
    ensures group * w + w <= 32 * w
    ensures group < headGroups ==> group * w + 16 <= 32 * w
    ensures group >= headGroups ==> tailStart <= group * w && group * w - tailStart + 16 <= 32
  {
    OneMore(group, 32, w);
    if group < headGroups {
      OneMore(group, headGroups, w);
    } else {
      MulMono(headGroups, group, w);
    }
  }

  lemma OneMore(a: nat, b: nat, w: nat)
    requires a < b
    ensures a * w + w <= b * w
  {
    MulMono(a + 1, b, w);
  }

  // -------------------------------------------------------------------------------------------
  // One lane
  // -------------------------------------------------------------------------------------------

  /** Lane `k` of the shuffled group: its four bytes, as a little-endian word. */
  function WindowLane(raw: Quad, p: Plan, k: nat): nat
    requires k < 8 && |p.shuffle| == 32
    requires forall i :: 0 <= i < 32 ==> p.shuffle[i] < 16
  {
    Num(256, [raw[p.shuffle[4 * k]], raw[p.shuffle[4 * k + 1]], raw[p.shuffle[4 * k + 2]], raw[p.shuffle[4 * k + 3]]])
  }

  /** The largest byte a plan names is 14, well inside the 16 that were loaded. */
  lemma PlanInBounds(w: nat, negate: bool, p: Plan)
    requires w <= 13 && IsPlan(w, negate, p)
    ensures forall i :: 0 <= i < 32 ==> p.shuffle[i] <= 14
  {
    forall i | 0 <= i < 32 ensures p.shuffle[i] <= 14 {
      assert p.shuffle[i] == ShuffleAt(w, i);
      ShuffleBound(w, i);
    }
  }

  lemma ShuffleBound(w: nat, i: nat)
    requires w <= 13 && i < 32
    ensures ShuffleAt(w, i) <= 14
  {
    MulMono(w, 13, i / 4);
  }

  lemma WindowIs(raw: Quad, p: Plan, w: nat, negate: bool, k: nat, o: nat)
    requires w <= 13 && IsPlan(w, negate, p) && k < 8 && o == k * w / 8
    requires forall i :: 0 <= i < 32 ==> p.shuffle[i] < 16
    ensures o + 4 <= 16 && WindowLane(raw, p, k) == Num(256, raw[o..o + 4])
  {
    ShuffleIs(w, k, 0, 4 * k);
    ShuffleIs(w, k, 1, 4 * k + 1);
    ShuffleIs(w, k, 2, 4 * k + 2);
    ShuffleIs(w, k, 3, 4 * k + 3);
    hide ShuffleAt, Num;
    assert p.shuffle[4 * k] == o && p.shuffle[4 * k + 1] == o + 1 && p.shuffle[4 * k + 2] == o + 2
           && p.shuffle[4 * k + 3] == o + 3;
    assert raw[o..o + 4] == [raw[o], raw[o + 1], raw[o + 2], raw[o + 3]];
  }

  /** Shifted and masked, the window of lane `k` of group `g` is coefficient `8 * g + k`. */
  lemma LaneIsField(bytes: Bytes, w: nat, g: nat, k: nat, raw: Quad, at: nat, o: nat, s: nat)
    requires 1 <= w <= 13 && |bytes| == 32 * w && g < 32 && k < 8 && at == g * w && o == k * w / 8 && s == k * w % 8
    requires at + 16 <= |Padded(bytes)| && raw == Padded(bytes)[at..at + 16] && o + 4 <= 16
    ensures BitAnd(Shr(Num(256, raw[o..o + 4]), s), Pow2(w) - 1) == Unpack(w, 256, bytes)[8 * g + k]
  {
    var pos, b := 8 * (at + o) + s, Padded(bytes);
    LanePosition(w, g, k, at, pos);
    SubSlice(b, at, raw, o);
    hide *;
    UnpackPadded(w, 256, bytes, 32);
    PaddedIs(bytes);
    UnpackAt(w, 256, b, 8 * g + k, pos);
    SliceInWindow(b, at + o, s, w, 4);
    MaskedShift(Num(256, raw[o..o + 4]), s, w);
  }

  lemma SubSlice(b: Bytes, at: nat, raw: Quad, o: nat)
    requires at + 16 <= |b| && raw == b[at..at + 16] && o + 4 <= 16
    ensures raw[o..o + 4] == b[at + o..at + o + 4]
  {
    var x, y := raw[o..o + 4], b[at + o..at + o + 4];
    assert forall i :: 0 <= i < 4 ==> x[i] == y[i];
  }

  lemma PaddedIs(bytes: Bytes)
    ensures Padded(bytes) == bytes + Zeros(32)
  {
  }

  lemma LanePosition(w: nat, g: nat, k: nat, at: nat, pos: nat)
    requires at == g * w && pos == 8 * (at + k * w / 8) + k * w % 8
    ensures pos == w * (8 * g + k)
  {
    assert pos == 8 * at + k * w;
  }

  lemma MaskedShift(x: nat, s: nat, w: nat)
    ensures BitAnd(Shr(x, s), Pow2(w) - 1) == Slice(x, s, w)
  {
    hide BitAnd, Pow2;
    AndIsMod(Shr(x, s), w);
  }

  // -------------------------------------------------------------------------------------------
  // The unpackers
  // -------------------------------------------------------------------------------------------

  /** `vpsrlvd` on one lane, and `ushl` with a signed count. */
  function Shift32(x: nat, negated: bool, count: int): nat
    requires if negated then -32 < count <= 0 else 0 <= count < 32
  {
    Shr(x, if negated then 0 - count else count)
  }

  /** The masked windows of a group. */
  function Lanes(raw: Quad, p: Plan, w: nat, negate: bool): (v: seq<nat>)
    requires w <= 13 && IsPlan(w, negate, p)
    ensures |v| == 8
  {
    PlanInBounds(w, negate, p);
    seq(8, k requires 0 <= k < 8 => BitAnd(Shift32(WindowLane(raw, p, k), negate, LaneShift(p, w, negate, k)),
      Pow2(w) - 1))
  }

  function LaneShift(p: Plan, w: nat, negate: bool, k: nat): (c: int)
    requires IsPlan(w, negate, p) && k < 8
    ensures if negate then -32 < c <= 0 else 0 <= c < 32
    ensures (if negate then 0 - c else c) == k * w % 8
  {
    p.shift[k]
  }

  lemma LanesAre(bytes: Bytes, w: nat, negate: bool, p: Plan, g: nat, raw: Quad, at: nat)
    requires 1 <= w <= 13 && IsPlan(w, negate, p) && |bytes| == 32 * w && g < 32 && at == g * w
    requires at + 16 <= |Padded(bytes)| && raw == Padded(bytes)[at..at + 16]
    ensures Lanes(raw, p, w, negate) == Unpack(w, 256, bytes)[8 * g..8 * g + 8]
  {
    hide *;
    var v, e := Lanes(raw, p, w, negate), Unpack(w, 256, bytes);
    forall k | 0 <= k < 8
      ensures v[k] == e[8 * g + k]
    {
      LaneOf(raw, p, w, negate, k);
      LaneIsField(bytes, w, g, k, raw, at, k * w / 8, k * w % 8);
    }
    assert v == e[8 * g..8 * g + 8];
  }

  lemma LaneOf(raw: Quad, p: Plan, w: nat, negate: bool, k: nat)
    requires w <= 13 && IsPlan(w, negate, p) && k < 8
    ensures var o := k * w / 8;
            o + 4 <= 16 && Lanes(raw, p, w, negate)[k] == BitAnd(Shr(Num(256, raw[o..o + 4]), k * w % 8), Pow2(w) - 1)
  {
    PlanInBounds(w, negate, p);
    WindowIs(raw, p, w, negate, k, k * w / 8);
    hide BitAnd, Shr, Pow2, Num, WindowLane, IsPlan;
  }

  function Saturate(v: seq<nat>): (r: seq<u16>)
    ensures |r| == |v|
  {
    seq(|v|, i requires 0 <= i < |v| => if v[i] > 0xFFFF then 0xFFFF else v[i])
  }

  /** `vpackusdw`, which works within each half of its operands. */
  function Packus(a: seq<nat>, b: seq<nat>): (r: seq<u16>)
    requires |a| == 8 && |b| == 8
    ensures |r| == 16
  {
    Saturate(a[..4]) + Saturate(b[..4]) + Saturate(a[4..]) + Saturate(b[4..])
  }

  /** `vpermq` with quarters 0, 2, 1, 3. */
  function PermuteQuarters(v: seq<u16>): (r: seq<u16>)
    requires |v| == 16
    ensures |r| == 16
  {
    v[..4] + v[8..12] + v[4..8] + v[12..]
  }

  lemma PackusRepaired(a: seq<u16>, b: seq<u16>)
    requires |a| == 8 && |b| == 8
    ensures PermuteQuarters(Packus(a, b)) == a + b
  {
    SaturateExact(a[..4]);
    SaturateExact(b[..4]);
    SaturateExact(a[4..]);
    SaturateExact(b[4..]);
    hide Saturate, PermuteQuarters;
    QuartersSwapped(a[..4], b[..4], a[4..], b[4..]);
    assert a[..4] + a[4..] == a && b[..4] + b[4..] == b;
    assert a[..4] + a[4..] + b[..4] + b[4..] == (a[..4] + a[4..]) + (b[..4] + b[4..]);
  }

  lemma SaturateExact(v: seq<u16>)
    ensures Saturate(v) == v
  {
  }

  lemma QuartersSwapped(p: seq<u16>, q: seq<u16>, r: seq<u16>, s: seq<u16>)
    requires |p| == |q| == |r| == |s| == 4
    ensures PermuteQuarters(p + q + r + s) == p + r + q + s
  {
    var v := p + q + r + s;
    assert v[..4] == p && v[4..8] == q && v[8..12] == r && v[12..] == s;
  }

  method StoreSlice(out: array<u16>, at: nat, v: seq<u16>)
    requires at + |v| <= out.Length
    modifies out
    ensures out[..at + |v|] == old(out[..at]) + v
  {
    ghost var was := out[..at];
    for i := 0 to |v|
      invariant out[..at] == was
      invariant forall j :: 0 <= j < i ==> out[at + j] == v[j]
    {
      out[at + i] := v[i];
    }
  }

  lemma TailSlack(w: nat, bytes: Bytes, tailStart: nat)
    requires 1 <= w <= 13 && |bytes| == 32 * w && tailStart == (32 - 15 / w) * w
    ensures tailStart <= |bytes| <= tailStart + 15
  {
    TailFacts(w, 15 / w, tailStart);
  }

  /** AVX2's `deserialize`: two groups to a store. */
  method Avx2Deserialize(w: nat, bytes: Bytes) returns (data: seq<u16>)
    requires 1 <= w <= 13 && |bytes| == 32 * w
    ensures data == Unpack(w, 256, bytes)
  {
    hide *;
    var plan := MakePlan(w, false);
    var headGroups := 32 - 15 / w;
    var tailStart := headGroups * w;
    TailSlack(w, bytes, tailStart);
    var tail := CopyTail(bytes, tailStart);
    var out := new u16[256](_ => 0);
    ghost var e := Unpack(w, 256, bytes);
    for pair := 0 to 16
      invariant out[..16 * pair] == e[..16 * pair]
    {
      Avx2Pair(w, bytes, plan, headGroups, tailStart, tail, out, pair, e);
    }
    data := out[..];
    assert out[..] == out[..256] && e == e[..256];
  }

  method Avx2Pair(w: nat, bytes: Bytes, plan: Plan, headGroups: nat, tailStart: nat, tail: Bytes, out: array<u16>,
                  pair: nat, ghost e: seq<u16>)
    requires 1 <= w <= 13 && |bytes| == 32 * w && IsPlan(w, false, plan) && pair < 16
    requires headGroups == 32 - 15 / w && tailStart == headGroups * w
    requires |tail| == 32 && tailStart <= |bytes| && tail == Padded(bytes)[tailStart..tailStart + 32]
    requires e == Unpack(w, 256, bytes) && out.Length == 256 && out[..16 * pair] == e[..16 * pair]
    modifies out
    ensures out[..16 * pair + 16] == e[..16 * pair + 16]
  {
    hide *;
    var v := PairLanes(w, bytes, plan, headGroups, tailStart, tail, pair, e);
    StoreSlice(out, 16 * pair, v);
    assert e[..16 * pair + 16] == e[..16 * pair] + e[16 * pair..16 * pair + 16];
  }

  /** The sixteen coefficients of a pair of groups. */
  method PairLanes(w: nat, bytes: Bytes, plan: Plan, headGroups: nat, tailStart: nat, tail: Bytes, pair: nat,
                   ghost e: seq<u16>) returns (v: seq<u16>)
    requires 1 <= w <= 13 && |bytes| == 32 * w && IsPlan(w, false, plan) && pair < 16
    requires headGroups == 32 - 15 / w && tailStart == headGroups * w
    requires |tail| == 32 && tailStart <= |bytes| && tail == Padded(bytes)[tailStart..tailStart + 32]
    requires e == Unpack(w, 256, bytes)
    ensures v == e[16 * pair..16 * pair + 16]
  {
    hide *;
    var raw0 := LoadGroup(bytes, tail, w, headGroups, tailStart, 2 * pair);
    LanesAre(bytes, w, false, plan, 2 * pair, raw0, 2 * pair * w);
    var raw1 := LoadGroup(bytes, tail, w, headGroups, tailStart, 2 * pair + 1);
    LanesAre(bytes, w, false, plan, 2 * pair + 1, raw1, (2 * pair + 1) * w);
    ghost var a, b := e[16 * pair..16 * pair + 8], e[16 * pair + 8..16 * pair + 16];
    v := PermuteQuarters(Packus(Lanes(raw0, plan, w, false), Lanes(raw1, plan, w, false)));
    PackusRepaired(a, b);
    assert e[16 * pair..16 * pair + 16] == a + b;
  }

  /** `xtn` and `xtn2` on values already masked to 13 bits. */
  function Narrow(v: seq<nat>): (r: seq<u16>)
    ensures |r| == |v|
  {
    seq(|v|, i requires 0 <= i < |v| => WrapU16(v[i]))
  }

  lemma NarrowExact(v: seq<u16>)
    ensures Narrow(v) == v
  {
  }

  /** NEON's `deserialize`: one group to a store. */
  method NeonDeserialize(w: nat, bytes: Bytes) returns (data: seq<u16>)
    requires 1 <= w <= 13 && |bytes| == 32 * w
    ensures data == Unpack(w, 256, bytes)
  {
    hide *;
    var plan := MakePlan(w, true);
    var headGroups := 32 - 15 / w;
    var tailStart := headGroups * w;
    TailSlack(w, bytes, tailStart);
    var tail := CopyTail(bytes, tailStart);
    var out := new u16[256](_ => 0);
    ghost var e := Unpack(w, 256, bytes);
    for group := 0 to 32
      invariant out[..8 * group] == e[..8 * group]
    {
      NeonGroup(w, bytes, plan, headGroups, tailStart, tail, out, group, e);
    }
    data := out[..];
    assert out[..] == out[..256] && e == e[..256];
  }

  method NeonGroup(w: nat, bytes: Bytes, plan: Plan, headGroups: nat, tailStart: nat, tail: Bytes, out: array<u16>,
                   group: nat, ghost e: seq<u16>)
    requires 1 <= w <= 13 && |bytes| == 32 * w && IsPlan(w, true, plan) && group < 32
    requires headGroups == 32 - 15 / w && tailStart == headGroups * w
    requires |tail| == 32 && tailStart <= |bytes| && tail == Padded(bytes)[tailStart..tailStart + 32]
    requires e == Unpack(w, 256, bytes) && out.Length == 256 && out[..8 * group] == e[..8 * group]
    modifies out
    ensures out[..8 * group + 8] == e[..8 * group + 8]
  {
    hide *;
    var raw := LoadGroup(bytes, tail, w, headGroups, tailStart, group);
    LanesAre(bytes, w, true, plan, group, raw, group * w);
    NarrowExact(e[8 * group..8 * group + 8]);
    StoreSlice(out, 8 * group, Narrow(Lanes(raw, plan, w, true)));
    assert e[..8 * group + 8] == e[..8 * group] + e[8 * group..8 * group + 8];
  }
}
