/** The permutation on several sponges at once, one per 64-bit lane of a register. */
module VecKeccak {
  import opened Keccak
  import opened KeccakTables
  import opened FusedKeccak

  // -------------------------------------------------------------------------------------------
  // Several sponges at once
  // -------------------------------------------------------------------------------------------

  predicate AllWays(s: seq<Vec>, ways: nat) {
    |s| == 25 && forall i :: 0 <= i < 25 ==> |s[i]| == ways
  }

  /** Sponge `l` of the register file. */
  function LaneState(s: seq<Vec>, ways: nat, l: nat): (a: State)
    requires AllWays(s, ways) && l < ways
  {
    seq(25, i requires 0 <= i < 25 => s[i][l])
  }

  // Every instruction acts on each 64-bit lane of its operands by itself.

  function FoldV(arch: Arch, ways: nat, a: Vec, b: Vec, c: Vec, d: Vec, e: Vec): (v: Vec)
    requires |a| == |b| == |c| == |d| == |e| == ways
    ensures |v| == ways
  {
    seq(ways, l requires 0 <= l < ways => Fold(arch, a[l], b[l], c[l], d[l], e[l]))
  }

  function MixV(arch: Arch, ways: nat, before: Vec, after: Vec): (v: Vec)
    requires |before| == |after| == ways
    ensures |v| == ways
  {
    seq(ways, l requires 0 <= l < ways => Mix(arch, before[l], after[l]))
  }

  function ThetaRhoV(arch: Arch, ways: nat, s: Vec, d: Vec, r: nat): (v: Vec)
    requires |s| == |d| == ways && r < 64
    ensures |v| == ways
  {
    seq(ways, l requires 0 <= l < ways => ThetaRho(arch, s[l], d[l], r))
  }

  function ChiV(arch: Arch, ways: nat, t0: Vec, t1: Vec, t2: Vec): (v: Vec)
    requires |t0| == |t1| == |t2| == ways
    ensures |v| == ways
  {
    seq(ways, l requires 0 <= l < ways => ChiOf(arch, t0[l], t1[l], t2[l]))
  }

  function XorV(ways: nat, a: Vec, b: Vec): (v: Vec)
    requires |a| == |b| == ways
    ensures |v| == ways
  {
    seq(ways, l requires 0 <= l < ways => Xor(a[l], b[l]))
  }

  /** Theta's `d`: the five columns mixed with their neighbours. */
  function MixAll(arch: Arch, ways: nat, s: seq<Vec>): (d: seq<Vec>)
    requires AllWays(s, ways)
    ensures |d| == 5 && forall x :: 0 <= x < 5 ==> |d[x]| == ways
  {
    var c0 := FoldV(arch, ways, s[0], s[5], s[10], s[15], s[20]);
    var c1 := FoldV(arch, ways, s[1], s[6], s[11], s[16], s[21]);
    var c2 := FoldV(arch, ways, s[2], s[7], s[12], s[17], s[22]);
    var c3 := FoldV(arch, ways, s[3], s[8], s[13], s[18], s[23]);
    var c4 := FoldV(arch, ways, s[4], s[9], s[14], s[19], s[24]);
    [MixV(arch, ways, c4, c1), MixV(arch, ways, c0, c2), MixV(arch, ways, c1, c3), MixV(arch, ways, c2, c4),
      MixV(arch, ways, c3, c0)]
  }

  lemma MixAllAt(arch: Arch, ways: nat, s: seq<Vec>, l: nat, x: nat)
    requires AllWays(s, ways) && l < ways && x < 5
    ensures MixAll(arch, ways, s)[x][l] == MixColumn(arch, LaneState(s, ways, l), x)
  {
    hide Fold, Mix;
    if x == 0 { } else if x == 1 { } else if x == 2 { } else if x == 3 { } else { }
  }

  /** `chi_row`: one row of the destination. */
  method ChiRow(arch: Arch, ways: nat, src: array<Vec>, dst: array<Vec>, d: seq<Vec>, y: nat)
    requires src.Length == 25 && dst.Length == 25 && src != dst && AllWays(src[..], ways) && AllWays(dst[..], ways)
             && y < 5
    requires d == MixAll(arch, ways, src[..])
    modifies dst
    ensures AllWays(dst[..], ways)
    ensures forall i :: 0 <= i < 25 && !(5 * y <= i < 5 * y + 5) ==> dst[i] == old(dst[i])
    ensures forall i :: 5 * y <= i < 5 * y + 5 ==> dst[i] == RowVec(arch, ways, src[..], d, y)[i - 5 * y]
  {
    hide RowVec, MixAll;
    var row := RowVec(arch, ways, src[..], d, y);
    for x := 0 to 5
      invariant AllWays(dst[..], ways)
      invariant forall i :: 0 <= i < 25 && !(5 * y <= i < 5 * y + x) ==> dst[i] == old(dst[i])
      invariant forall i :: 5 * y <= i < 5 * y + x ==> dst[i] == row[i - 5 * y]
    {
      dst[5 * y + x] := row[x];
    }
  }

  /** Rotated register `k` of a destination row. */
  function Rotated(arch: Arch, ways: nat, s: seq<Vec>, d: seq<Vec>, y: nat, k: nat): (t: Vec)
    requires AllWays(s, ways) && |d| == 5 && (forall x :: 0 <= x < 5 ==> |d[x]| == ways) && y < 5 && k < 5
    ensures |t| == ways
  {
    ThetaRhoV(arch, ways, s[Source(y, k)], d[Source(y, k) % 5], Turn(y, k))
  }

  lemma RotatedAt(arch: Arch, ways: nat, s: seq<Vec>, d: seq<Vec>, y: nat, k: nat, l: nat)
    requires AllWays(s, ways) && d == MixAll(arch, ways, s) && y < 5 && k < 5 && l < ways
    ensures Rotated(arch, ways, s, d, y, k)[l] == RowLane(arch, LaneState(s, ways, l), y, k)
  {
    hide MixAll, MixColumn, ThetaRho, Source, Turn;
    MixAllAt(arch, ways, s, l, Source(y, k) % 5);
  }

  /** The five registers of a destination row. */
  function RowVec(arch: Arch, ways: nat, s: seq<Vec>, d: seq<Vec>, y: nat): (row: seq<Vec>)
    requires AllWays(s, ways) && |d| == 5 && (forall x :: 0 <= x < 5 ==> |d[x]| == ways) && y < 5
    ensures |row| == 5 && forall x :: 0 <= x < 5 ==> |row[x]| == ways
  {
    var t0 := Rotated(arch, ways, s, d, y, 0);
    var t1 := Rotated(arch, ways, s, d, y, 1);
    var t2 := Rotated(arch, ways, s, d, y, 2);
    var t3 := Rotated(arch, ways, s, d, y, 3);
    var t4 := Rotated(arch, ways, s, d, y, 4);
    [ChiV(arch, ways, t0, t1, t2), ChiV(arch, ways, t1, t2, t3), ChiV(arch, ways, t2, t3, t4),
     ChiV(arch, ways, t3, t4, t0), ChiV(arch, ways, t4, t0, t1)]
  }

  lemma RowVecAt(arch: Arch, ways: nat, s: seq<Vec>, d: seq<Vec>, y: nat, x: nat, l: nat)
    requires AllWays(s, ways) && d == MixAll(arch, ways, s) && y < 5 && x < 5 && l < ways
    ensures RowVec(arch, ways, s, d, y)[x][l] == FusedLane(arch, LaneState(s, ways, l), y, x)
  {
    hide MixAll, RowLane, ChiOf, Rotated, LaneState;
    RotatedAt(arch, ways, s, d, y, x, l);
    RotatedAt(arch, ways, s, d, y, (x + 1) % 5, l);
    RotatedAt(arch, ways, s, d, y, (x + 2) % 5, l);
    if x == 0 { } else if x == 1 { } else if x == 2 { } else if x == 3 { } else { }
  }

  /** Every register holds its destination row's value, iota aside. */
  ghost predicate RowsDone(arch: Arch, ways: nat, s: seq<Vec>, t: seq<Vec>, rows: nat)
    requires AllWays(s, ways) && |t| == 25
  {
    forall i :: 0 <= i < 5 * rows && i < 25 ==> t[i] == RowVec(arch, ways, s, MixAll(arch, ways, s), i / 5)[i % 5]
  }

  lemma RowDone(arch: Arch, ways: nat, s: seq<Vec>, t: seq<Vec>, t': seq<Vec>, y: nat)
    requires AllWays(s, ways) && |t| == |t'| == 25 && y < 5 && RowsDone(arch, ways, s, t, y)
    requires forall i :: 0 <= i < 25 && !(5 * y <= i < 5 * y + 5) ==> t'[i] == t[i]
    requires forall i :: 5 * y <= i < 5 * y + 5 ==> t'[i] == RowVec(arch, ways, s, MixAll(arch, ways, s), y)[i - 5 * y]
    ensures RowsDone(arch, ways, s, t', y + 1)
  {
    hide RowVec, MixAll;
    forall i | 0 <= i < 5 * y + 5
      ensures t'[i] == RowVec(arch, ways, s, MixAll(arch, ways, s), i / 5)[i % 5]
    {
      if i >= 5 * y { assert i / 5 == y && i % 5 == i - 5 * y; }
    }
  }

  /** After iota, each sponge has been through the fused round. */
  lemma RoundLane(arch: Arch, ways: nat, s: seq<Vec>, t: seq<Vec>, rc: Vec, l: nat)
    requires AllWays(s, ways) && AllWays(t, ways) && |rc| == ways && l < ways && RowsDone(arch, ways, s, t, 5)
    ensures LaneState(t[0 := XorV(ways, t[0], rc)], ways, l) == FusedRound(arch, LaneState(s, ways, l), rc[l])
  {
    hide RowVec, MixAll, FusedLane, Xor;
    var a, u := LaneState(s, ways, l), t[0 := XorV(ways, t[0], rc)];
    forall i | 0 <= i < 25
      ensures t[i][l] == FusedLane(arch, a, i / 5, i % 5)
    {
      RowVecAt(arch, ways, s, MixAll(arch, ways, s), i / 5, i % 5, l);
    }
    FusedRoundLanes(arch, a, rc[l], LaneState(u, ways, l));
  }

  lemma FusedRoundLanes(arch: Arch, a: State, rc: Word, u: State)
    requires u[0] == Xor(FusedLane(arch, a, 0, 0), rc)
    requires forall i :: 1 <= i < 25 ==> u[i] == FusedLane(arch, a, i / 5, i % 5)
    ensures u == FusedRound(arch, a, rc)
  {
    hide FusedLane, Xor;
    var f := FusedRound(arch, a, rc);
    assert forall i :: 0 <= i < 25 ==> u[i] == f[i];
  }

  /** `round`. */
  method Round(arch: Arch, ways: nat, src: array<Vec>, dst: array<Vec>, rc: Vec)
    requires src.Length == 25 && dst.Length == 25 && src != dst && AllWays(src[..], ways) && AllWays(dst[..], ways)
             && |rc| == ways
    modifies dst
    ensures AllWays(dst[..], ways)
    ensures forall l :: 0 <= l < ways ==>
            LaneState(dst[..], ways, l) == FusedRound(arch, LaneState(src[..], ways, l), rc[l])
  {
    ghost var s := src[..];
    var d := MixAll(arch, ways, src[..]);
    assert RowsDone(arch, ways, s, dst[..], 0);
    hide *;
    Row(arch, ways, src, dst, d, 0);
    Row(arch, ways, src, dst, d, 1);
    Row(arch, ways, src, dst, d, 2);
    Row(arch, ways, src, dst, d, 3);
    Row(arch, ways, src, dst, d, 4);
    RcInto(ways, dst, rc, arch, s);
  }

  method Row(arch: Arch, ways: nat, src: array<Vec>, dst: array<Vec>, d: seq<Vec>, y: nat)
    requires src.Length == 25 && dst.Length == 25 && src != dst && AllWays(src[..], ways) && AllWays(dst[..], ways)
             && y < 5
    requires d == MixAll(arch, ways, src[..]) && RowsDone(arch, ways, src[..], dst[..], y)
    modifies dst
    ensures AllWays(dst[..], ways) && RowsDone(arch, ways, src[..], dst[..], y + 1)
  {
    hide RowVec, MixAll, RowsDone;
    ghost var t := dst[..];
    ChiRow(arch, ways, src, dst, d, y);
    RowDone(arch, ways, src[..], t, dst[..], y);
  }

  /** Iota. */
  method RcInto(ways: nat, dst: array<Vec>, rc: Vec, ghost arch: Arch, ghost s: seq<Vec>)
    requires dst.Length == 25 && AllWays(s, ways) && AllWays(dst[..], ways) && |rc| == ways
             && RowsDone(arch, ways, s, dst[..], 5)
    modifies dst
    ensures AllWays(dst[..], ways)
    ensures forall l :: 0 <= l < ways ==> LaneState(dst[..], ways, l) == FusedRound(arch, LaneState(s, ways, l), rc[l])
  {
    hide RowsDone, FusedRound, LaneState, XorV;
    ghost var t := dst[..];
    dst[0] := XorV(ways, dst[0], rc);
    assert dst[..] == t[0 := XorV(ways, t[0], rc)];
    forall l | 0 <= l < ways
      ensures LaneState(dst[..], ways, l) == FusedRound(arch, LaneState(s, ways, l), rc[l])
    {
      RoundLane(arch, ways, s, t, rc, l);
    }
  }

  /** `round_const`: the constant in every lane. */
  function RoundConst(ways: nat, round: nat): (v: Vec)
    requires round < 12
    ensures |v| == ways
  {
    seq(ways, _ => WordOf(RoundConstant(round)))
  }

  /** What each sponge is after `n` of the twelve rounds. */
  ghost predicate AfterRounds(ways: nat, s: seq<Vec>, start: seq<State>, n: nat) {
    && AllWays(s, ways) && |start| == ways && n <= 12
    && forall l :: 0 <= l < ways ==> LaneState(s, ways, l) == Rounds(start[l], 12, 12 + n)
  }

  lemma OneRound(arch: Arch, ways: nat, s: seq<Vec>, t: seq<Vec>, start: seq<State>, n: nat)
    requires AfterRounds(ways, s, start, n) && n < 12 && AllWays(t, ways)
    requires forall l :: 0 <= l < ways ==>
             LaneState(t, ways, l) == FusedRound(arch, LaneState(s, ways, l), RoundConst(ways, n)[l])
    ensures AfterRounds(ways, t, start, n + 1)
  {
    hide FusedRound, LaneState, WordOf, RoundConstant, Keccak.Round, Constant;
    ConstantsAreGenerated(n);
    forall l | 0 <= l < ways
      ensures LaneState(t, ways, l) == Rounds(start[l], 12, 12 + n + 1)
    {
      FusedRoundIsRound(arch, LaneState(s, ways, l), 12 + n);
    }
  }

  /** One round of the alternation. */
  method Step(arch: Arch, ways: nat, src: array<Vec>, dst: array<Vec>, n: nat, ghost start: seq<State>)
    requires src.Length == 25 && dst.Length == 25 && src != dst && AllWays(dst[..], ways) && n < 12
    requires AfterRounds(ways, src[..], start, n)
    modifies dst
    ensures AfterRounds(ways, dst[..], start, n + 1) && AfterRounds(ways, src[..], start, n) && AllWays(dst[..], ways)
  {
    hide FusedRound, LaneState, RoundConst;
    Round(arch, ways, src, dst, RoundConst(ways, n));
    OneRound(arch, ways, src[..], dst[..], start, n);
  }

  /** `permute`: rounds alternate between the state and one scratch buffer, two at a time, so that the
      second of each pair lands back in the state. */
  method Permute(arch: Arch, ways: nat, state: array<Vec>, ghost start: seq<State>)
    requires state.Length == 25 && AllWays(state[..], ways) && |start| == ways
    requires forall l :: 0 <= l < ways ==> LaneState(state[..], ways, l) == start[l]
    modifies state
    ensures AllWays(state[..], ways)
    ensures forall l :: 0 <= l < ways ==> LaneState(state[..], ways, l) == KeccakP(start[l], 12)
  {
    var zero := ZeroVec(ways);
    var scratch := new Vec[25](_ => zero);
    assert AfterRounds(ways, state[..], start, 0);
    hide AfterRounds, LaneState, Rounds;
    for pair := 0 to 6
      invariant AllWays(scratch[..], ways) && AllWays(state[..], ways) && AfterRounds(ways, state[..], start, 2 * pair)
    {
      Step(arch, ways, state, scratch, 2 * pair, start);
      Step(arch, ways, scratch, state, 2 * pair + 1, start);
    }
    Finished(ways, state[..], start);
  }

  function ZeroVec(ways: nat): (v: Vec)
    ensures |v| == ways
  {
    seq(ways, _ => ZERO_WORD)
  }

  lemma Finished(ways: nat, s: seq<Vec>, start: seq<State>)
    requires AfterRounds(ways, s, start, 12)
    ensures AllWays(s, ways) && forall l :: 0 <= l < ways ==> LaneState(s, ways, l) == KeccakP(start[l], 12)
  {
    hide LaneState;
  }
}
