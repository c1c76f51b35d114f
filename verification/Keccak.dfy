/** Keccak-p[1600, n_r], bit by bit, as sections 3.2 and 3.3 of FIPS 202 define it. */
module Keccak {
  /** A 64-bit lane, bit 0 first. */
  type Word = w: seq<bool> | |w| == 64 witness seq(64, _ => false)

  const ZERO_WORD: Word := seq(64, _ => false)

  /** A[x, y, z] is bit `z` of lane `x + 5 * y`. */
  type State = s: seq<Word> | |s| == 25
    witness [ZERO_WORD, ZERO_WORD, ZERO_WORD, ZERO_WORD, ZERO_WORD, ZERO_WORD, ZERO_WORD, ZERO_WORD, ZERO_WORD,
             ZERO_WORD, ZERO_WORD, ZERO_WORD, ZERO_WORD, ZERO_WORD, ZERO_WORD, ZERO_WORD, ZERO_WORD, ZERO_WORD,
             ZERO_WORD, ZERO_WORD, ZERO_WORD, ZERO_WORD, ZERO_WORD, ZERO_WORD, ZERO_WORD]

  /** Bit A[x, y, z]; lane indices are taken modulo 5 and bit indices modulo 64. */
  function Bit(a: State, x: nat, y: nat, z: nat): bool {
    a[x % 5 + 5 * (y % 5)][z % 64]
  }

  // -------------------------------------------------------------------------------------------
  // Section 3.2.1
  // -------------------------------------------------------------------------------------------

  function C(a: State, x: nat, z: nat): bool {
    (((Bit(a, x, 0, z) != Bit(a, x, 1, z)) != Bit(a, x, 2, z)) != Bit(a, x, 3, z)) != Bit(a, x, 4, z)
  }

  function D(a: State, x: nat, z: nat): bool {
    C(a, x + 4, z) != C(a, x + 1, z + 63)
  }

  function ThetaLane(a: State, x: nat, y: nat): Word {
    seq(64, z requires 0 <= z < 64 => Bit(a, x, y, z) != D(a, x, z))
  }

  function Theta(a: State): State {
    seq(25, i requires 0 <= i < 25 => ThetaLane(a, i % 5, i / 5))
  }

  // -------------------------------------------------------------------------------------------
  // Section 3.2.2
  // -------------------------------------------------------------------------------------------

  /** The lane step `t` of Algorithm 2 visits. */
  function Visit(t: nat): (nat, nat) {
    if t == 0 then (1, 0) else (Visit(t - 1).1, (2 * Visit(t - 1).0 + 3 * Visit(t - 1).1) % 5)
  }

  /** The offset of lane (x, y): `(t + 1)(t + 2) / 2` for the step that visits it, and none for (0, 0),
      which no step does. */
  function OffsetFrom(t: nat, x: nat, y: nat): (r: nat)
    requires t <= 24
    ensures r < 64
    decreases 24 - t
  {
    if t == 24 then 0 else if Visit(t) == (x, y) then (t + 1) * (t + 2) / 2 % 64 else OffsetFrom(t + 1, x, y)
  }

  function Offset(x: nat, y: nat): (r: nat)
    ensures r < 64
  {
    OffsetFrom(0, x, y)
  }

  function RhoLane(a: State, x: nat, y: nat): Word {
    seq(64, z requires 0 <= z < 64 => Bit(a, x, y, z + 64 - Offset(x, y)))
  }

  function Rho(a: State): State {
    seq(25, i requires 0 <= i < 25 => RhoLane(a, i % 5, i / 5))
  }

  // -------------------------------------------------------------------------------------------
  // Section 3.2.3
  // -------------------------------------------------------------------------------------------

  function PiLane(a: State, x: nat, y: nat): Word {
    seq(64, z requires 0 <= z < 64 => Bit(a, x + 3 * y, x, z))
  }

  function Pi(a: State): State {
    seq(25, i requires 0 <= i < 25 => PiLane(a, i % 5, i / 5))
  }

  // -------------------------------------------------------------------------------------------
  // Section 3.2.4
  // -------------------------------------------------------------------------------------------

  function ChiLane(a: State, x: nat, y: nat): Word {
    seq(64, z requires 0 <= z < 64 => Bit(a, x, y, z) != (!Bit(a, x + 1, y, z) && Bit(a, x + 2, y, z)))
  }

  function Chi(a: State): State {
    seq(25, i requires 0 <= i < 25 => ChiLane(a, i % 5, i / 5))
  }

  // -------------------------------------------------------------------------------------------
  // Section 3.2.5
  // -------------------------------------------------------------------------------------------

  /** The eight bits of the round-constant register. */
  datatype Register = Register(b0: bool, b1: bool, b2: bool, b3: bool, b4: bool, b5: bool, b6: bool, b7: bool)

  /** One step of Algorithm 5: a zero is put in front, and the bit that falls out is fed back. */
  function Advance(r: Register): Register {
    Register(r.b7, r.b0, r.b1, r.b2, r.b3 != r.b7, r.b4 != r.b7, r.b5 != r.b7, r.b6)
  }

  function RegisterAt(t: nat): Register {
    if t == 0 then Register(true, false, false, false, false, false, false, false) else Advance(RegisterAt(t - 1))
  }

  function Rc(t: nat): bool {
    RegisterAt(t % 255).b0
  }

  /** Bit `2^j - 1` of the constant of round `ir` is rc(j + 7 ir); the others are zero. */
  function ConstantBit(ir: nat, z: nat): bool {
    if z == 0 then Rc(7 * ir)
    else if z == 1 then Rc(1 + 7 * ir)
    else if z == 3 then Rc(2 + 7 * ir)
    else if z == 7 then Rc(3 + 7 * ir)
    else if z == 15 then Rc(4 + 7 * ir)
    else if z == 31 then Rc(5 + 7 * ir)
    else z == 63 && Rc(6 + 7 * ir)
  }

  function Constant(ir: nat): Word {
    seq(64, z requires 0 <= z < 64 => ConstantBit(ir, z))
  }

  function Xor(a: Word, b: Word): Word {
    seq(64, z requires 0 <= z < 64 => a[z] != b[z])
  }

  function Iota(a: State, ir: nat): State {
    a[0 := Xor(a[0], Constant(ir))]
  }

  // -------------------------------------------------------------------------------------------
  // Section 3.3
  // -------------------------------------------------------------------------------------------

  function Round(a: State, ir: nat): State {
    Iota(Chi(Pi(Rho(Theta(a)))), ir)
  }

  /** Rounds `first` up to but not including `last`. */
  function Rounds(a: State, first: nat, last: nat): State
    requires first <= last
    decreases last
  {
    if first == last then a else Round(Rounds(a, first, last - 1), last - 1)
  }

  /** Keccak-p[1600, n_r]: the last `n_r` of the 24 rounds of Keccak-f[1600]. */
  function KeccakP(a: State, nr: nat): State
    requires nr <= 24
  {
    Rounds(a, 24 - nr, 24)
  }
}
