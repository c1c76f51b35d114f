/** The portable two-prime transform, in place on lanes. */
module NttCrt {
  import opened Words
  import opened Congruence
  import opened Tables
  import opened Params
  import opened Lane
  import opened Levels
  import opened Schedules
  import opened RingMul

  method BarrettBlock(second: bool, b: array<i16>)
    requires b.Length == 256
    modifies b
    ensures b[..] == B(second, old(b[..]))
  {
    hide Barrett, BarrettM, Q;
    var q, m := Q(second), BarrettM(second);
    for i := 0 to 256
      invariant forall p :: 0 <= p < i ==> b[p] == Barrett(old(b[p]), m, q)
      invariant forall p :: i <= p < 256 ==> b[p] == old(b[p])
    {
      b[i] := Barrett(b[i], m, q);
    }
  }

  /** Block `t` of a level: what its butterflies leave is what the level says. */
  lemma BlockDone(dir: Dir, second: bool, len: int, s: Block, t: nat, k: nat, b: Block, start: nat)
    requires IsLen(len) && t < 128 / len && k < 256
    requires k == if dir.Forward? then 128 / len + t else 256 / len - 1 - t
    requires start == 2 * len * t && start + 2 * len <= 256
    requires forall j :: start <= j < start + len ==> FlyAt(dir, second, len, k, s, b, j)
    ensures forall p :: start <= p < start + 2 * len ==> b[p] == MLevel(dir, second, len, s)[p]
  {
    hide IsLen, Low, Idx, MLevel, MFly;
    forall p | start <= p < start + 2 * len
      ensures b[p] == MLevel(dir, second, len, s)[p]
    {
      var j := if p < start + len then p else p - len;
      assert FlyAt(dir, second, len, k, s, b, j);
      BlockPosition(dir, len, t, j - start, j);
      MLevelPair(dir, second, len, s, j);
    }
  }

  /** Partners `j` and `j + len` of `b` are the butterfly of those of `s` at table index `k`. */
  ghost predicate FlyAt(dir: Dir, second: bool, len: int, k: nat, s: Block, b: Block, j: nat)
    requires k < 256
  {
    0 <= len && j + len < 256 && (b[j], b[j + len]) == MFly(dir, second, k, s[j], s[j + len])
  }

  /** `(lo + z * hi, lo - z * hi)`. */
  method CtButterfly(lo: i16, hi: i16, z: i16, zq: i16, q: i16) returns (a: i16, b: i16)
    ensures (a, b) == LaneFly(Forward, lo, hi, z, zq, q)
  {
    hide MontMul;
    var t := MontMul(hi, z, zq, q);
    b := Wrap16(lo as int - t as int);
    a := Wrap16(lo as int + t as int);
  }

  /** `(lo + hi, z * (lo - hi))`, with the negation already in `z`. */
  method GsButterfly(lo: i16, hi: i16, z: i16, zq: i16, q: i16) returns (a: i16, b: i16)
    ensures (a, b) == LaneFly(Inverse, lo, hi, z, zq, q)
  {
    hide MontMul;
    a := Wrap16(lo as int + hi as int);
    b := MontMul(Wrap16(lo as int - hi as int), z, zq, q);
  }

  /** The butterflies of one Cooley-Tukey block. */
  method CtBlock(len: nat, second: bool, b: array<i16>, start: nat, k: nat)
    requires b.Length == 256 && start + 2 * len <= 256 && k < 256
    modifies b
    ensures forall j :: start <= j < start + len ==> FlyAt(Forward, second, len, k, old(b[..]), b[..], j)
    ensures forall p :: 0 <= p < 256 && !(start <= p < start + 2 * len) ==> b[p] == old(b[p])
  {
    hide LaneFly, Tables.Zeta, Twin, Q;
    var q, z, zq := Q(second), Zeta(second, k), ZetaQ(second, k);
    ghost var s: Block := b[..];
    for j := start to start + len
      invariant forall p :: start <= p < j ==> b[p] == LaneFly(Forward, s[p], s[p + len], z, zq, q).0
      invariant forall p :: start + len <= p < j + len ==> b[p] == LaneFly(Forward, s[p - len], s[p], z, zq, q).1
      invariant forall p :: 0 <= p < start || j <= p < start + len || j + len <= p < 256 ==> b[p] == s[p]
    {
      var lo, hi := CtButterfly(b[j], b[j + len], z, zq, q);
      b[j + len] := hi;
      b[j] := lo;
    }
  }

  /** The butterflies of one Gentleman-Sande block. */
  method GsBlock(len: nat, second: bool, b: array<i16>, start: nat, k: nat)
    requires b.Length == 256 && start + 2 * len <= 256 && k < 256
    modifies b
    ensures forall j :: start <= j < start + len ==> FlyAt(Inverse, second, len, k, old(b[..]), b[..], j)
    ensures forall p :: 0 <= p < 256 && !(start <= p < start + 2 * len) ==> b[p] == old(b[p])
  {
    hide LaneFly, Tables.Zeta, Q, QInv;
    var q, z := Q(second), Wrap16(0 - Zeta(second, k));
    var zq := Wrap16(z * QInv(second));
    ghost var s: Block := b[..];
    for j := start to start + len
      invariant forall p :: start <= p < j ==> b[p] == LaneFly(Inverse, s[p], s[p + len], z, zq, q).0
      invariant forall p :: start + len <= p < j + len ==> b[p] == LaneFly(Inverse, s[p - len], s[p], z, zq, q).1
      invariant forall p :: 0 <= p < start || j <= p < start + len || j + len <= p < 256 ==> b[p] == s[p]
    {
      var lo, hi := GsButterfly(b[j], b[j + len], z, zq, q);
      b[j] := lo;
      b[j + len] := hi;
    }
  }

  lemma LevelProgress(len: int, n: int, t: int)
    requires 0 < len && 2 * len * n == 256 && 0 <= t <= n
    ensures 2 * len * t < 256 <==> t < n
    ensures t < n ==> 2 * len * t + 2 * len <= 256 && 2 * len * (t + 1) == 2 * len * t + 2 * len
  {
    if t < n { MulMono(t + 1, n, 2 * len); }
  }

  /** The same when the butterflies ran on a block whose earlier part was already done. */
  lemma BlockAgrees(dir: Dir, second: bool, len: int, s: Block, before: Block, after: Block, t: nat, k: nat, start: nat)
    requires IsLen(len) && t < 128 / len && k < 256
    requires k == if dir.Forward? then 128 / len + t else 256 / len - 1 - t
    requires start == 2 * len * t && start + 2 * len <= 256
    requires forall p :: start <= p < 256 ==> before[p] == s[p]
    requires forall j :: start <= j < start + len ==> FlyAt(dir, second, len, k, before, after, j)
    ensures forall p :: start <= p < start + 2 * len ==> after[p] == MLevel(dir, second, len, s)[p]
  {
    hide IsLen, MLevel, MFly;
    forall j | start <= j < start + len
      ensures FlyAt(dir, second, len, k, s, after, j)
    {
      assert FlyAt(dir, second, len, k, before, after, j);
    }
    BlockDone(dir, second, len, s, t, k, after, start);
  }

  /** One Cooley-Tukey level; `k` counts up to the table entry in use. */
  method CtLevel(len: int, second: bool, b: array<i16>, k0: nat) returns (k: nat)
    requires b.Length == 256 && IsLen(len) && k0 + 1 == 128 / len
    modifies b
    ensures b[..] == F(second, len, old(b[..]))
    ensures k + 1 == 256 / len
  {
    hide IsLen, MFly, MLevel;
    LenFacts(len);
    ghost var s: Block := b[..];
    ghost var r := F(second, len, s);
    ghost var n := 128 / len;
    k := k0;
    var start := 0;
    ghost var t := 0;
    while start < 256
      invariant 0 <= t <= n && start == 2 * len * t && k == k0 + t && start <= 256
      invariant forall p :: 0 <= p < start ==> b[p] == r[p]
      invariant forall p :: start <= p < 256 ==> b[p] == s[p]
      decreases n - t
    {
      LevelProgress(len, n, t);
      k := k + 1;
      ghost var before: Block := b[..];
      CtBlock(len, second, b, start, k);
      BlockAgrees(Forward, second, len, s, before, b[..], t, k, start);
      start := start + 2 * len;
      t := t + 1;
    }
    LevelProgress(len, n, t);
  }

  /** One Gentleman-Sande level; `k` counts down. */
  method GsLevel(len: int, second: bool, b: array<i16>, k0: nat) returns (k: nat)
    requires b.Length == 256 && IsLen(len) && k0 == 256 / len
    modifies b
    ensures b[..] == I(second, len, old(b[..]))
    ensures k == 128 / len
  {
    hide IsLen, MFly, MLevel;
    LenFacts(len);
    ghost var s: Block := b[..];
    ghost var r := I(second, len, s);
    ghost var n := 128 / len;
    k := k0;
    var start := 0;
    ghost var t := 0;
    while start < 256
      invariant 0 <= t <= n && start == 2 * len * t && k == k0 - t && start <= 256
      invariant forall p :: 0 <= p < start ==> b[p] == r[p]
      invariant forall p :: start <= p < 256 ==> b[p] == s[p]
      decreases n - t
    {
      LevelProgress(len, n, t);
      k := k - 1;
      ghost var before: Block := b[..];
      GsBlock(len, second, b, start, k);
      BlockAgrees(Inverse, second, len, s, before, b[..], t, k, start);
      start := start + 2 * len;
      t := t + 1;
    }
    LevelProgress(len, n, t);
  }

  /** The forward transform: levels in runs of 3, 3 and 2, re-centring after each run. */
  method NttBlock(second: bool, b: array<i16>)
    requires b.Length == 256
    modifies b
    ensures b[..] == PortableNtt(second, old(b[..]))
  {
    hide F, B;
    var k := 0;
    k := CtLevel(128, second, b, k);
    k := CtLevel(64, second, b, k);
    k := CtLevel(32, second, b, k);
    BarrettBlock(second, b);
    k := CtLevel(16, second, b, k);
    k := CtLevel(8, second, b, k);
    k := CtLevel(4, second, b, k);
    BarrettBlock(second, b);
    k := CtLevel(2, second, b, k);
    k := CtLevel(1, second, b, k);
    BarrettBlock(second, b);
  }

  /** The inverse transform, with its final scaling. */
  method InvNttBlock(second: bool, b: array<i16>)
    requires b.Length == 256
    modifies b
    ensures b[..] == InvBlock(second, old(b[..]))
  {
    hide I, B, MontMul, Twin, InvNttScale, Q;
    var q, scale := Q(second), InvNttScale(second);
    var scaleQ := Twin(second, scale);
    var k := 256;
    k := GsLevel(1, second, b, k);
    k := GsLevel(2, second, b, k);
    BarrettBlock(second, b);
    k := GsLevel(4, second, b, k);
    k := GsLevel(8, second, b, k);
    BarrettBlock(second, b);
    k := GsLevel(16, second, b, k);
    k := GsLevel(32, second, b, k);
    BarrettBlock(second, b);
    k := GsLevel(64, second, b, k);
    k := GsLevel(128, second, b, k);
    ghost var s := InvLevels(second, old(b[..]));
    assert b[..] == s;
    hide InvLevels;
    for i := 0 to 256
      invariant forall p :: 0 <= p < i ==> b[p] == MontMul(s[p], scale, scaleQ, q)
      invariant forall p :: i <= p < 256 ==> b[p] == s[p]
    {
      b[i] := MontMul(b[i], scale, scaleQ, q);
    }
  }

  /** Splits a ring element into one residue block and transforms it. */
  method SplitAndTransform(second: bool, reduce: bool, elem: Elem, b: array<i16>)
    requires b.Length == 256
    modifies b
    ensures b[..] == PortableNtt(second, Split(second, reduce, elem))
  {
    hide Barrett, BarrettM, Q, Wrap16, PortableNtt;
    var q, m := Q(second), BarrettM(second);
    for i := 0 to 256
      invariant forall p :: 0 <= p < i ==> b[p] == Split(second, reduce, elem)[p]
    {
      var x := Wrap16(elem[i]);
      b[i] := if reduce then Barrett(x, m, q) else x;
    }
    assert b[..] == Split(second, reduce, elem);
    NttBlock(second, b);
  }

  /** `from_uniform` with `reduce`, `from_secret` without. */
  method FromRingElem(reduce: bool, elem: Elem) returns (out: NttElem)
    ensures out == FromElem(Portable, reduce, elem)
  {
    hide PortableNtt, Split;
    var b := new i16[256](_ => 0);
    SplitAndTransform(false, reduce, elem, b);
    out := b[..] + b[..];
    SplitAndTransform(true, reduce, elem, b);
    out := out[..256] + b[..];
  }

  /** Adds the pointwise product into the accumulator, on wrapping `i32` lanes. */
  method PointwiseMulAcc(acc: array<i32>, lhs: NttElem, rhs: NttElem)
    requires acc.Length == 512
    modifies acc
    ensures forall i :: 0 <= i < 512 ==> acc[i] == Wrap32(old(acc[i]) + Wrap32(lhs[i] as int * rhs[i] as int))
  {
    hide Wrap32;
    for i := 0 to 512
      invariant forall p :: 0 <= p < i ==> acc[p] == Wrap32(old(acc[p]) + Wrap32(lhs[p] as int * rhs[p] as int))
      invariant forall p :: i <= p < 512 ==> acc[p] == old(acc[p])
    {
      acc[i] := Wrap32(acc[i] + Wrap32(lhs[i] as int * rhs[i] as int));
    }
  }

  /** Montgomery-reduces the half of the accumulator that belongs to one prime. */
  method ReduceBlock(second: bool, acc: Acc, b: array<i16>)
    requires b.Length == 256
    modifies b
    ensures b[..] == MReduce(second, acc)
  {
    hide MontReduce, QInv, Q;
    var q, qinv := Q(second), QInv(second);
    var a := Half(second, acc);
    for i := 0 to 256
      invariant forall p :: 0 <= p < i ==> b[p] == MontReduce(a[p], qinv, q)
    {
      b[i] := MontReduce(a[i], qinv, q);
    }
  }

  /** Reduces, inverts and reconstructs. */
  method ReduceInvNtt(acc: Acc) returns (out: Elem)
    ensures out == ReduceInv(acc)
  {
    hide InvBlock, MReduce, Garner;
    var v1, v2 := new i16[256](_ => 0), new i16[256](_ => 0);
    ReduceBlock(false, acc, v1);
    ReduceBlock(true, acc, v2);
    InvNttBlock(false, v1);
    InvNttBlock(true, v2);
    ghost var w1, w2 := InvBlock(false, MReduce(false, acc)), InvBlock(true, MReduce(true, acc));
    assert v1[..] == w1 && v2[..] == w2;
    var res := new u16[256](_ => 0);
    for i := 0 to 256
      invariant v1[..] == w1 && v2[..] == w2
      invariant forall p :: 0 <= p < i ==> res[p] == Garner(w1[p], w2[p])
    {
      assert v1[i] == w1[i] && v2[i] == w2[i];
      res[i] := Garner(v1[i], v2[i]);
    }
    out := res[..];
  }
}
