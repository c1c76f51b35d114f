/** Where a packed field lies: the value of coefficient `c` of width `w` is in the bytes from
    `c * w / 8` on, `c * w % 8` bits up. */
module Fields {
  import opened Words
  import opened Congruence
  import opened Bits
  import opened Positional
  import opened Ser

  lemma DivDiv(x: nat, a: nat, b: nat)
    requires a > 0 && b > 0
    ensures a * b > 0 && x / a / b == x / (a * b)
  {
    var u, v := x / a, x / a / b;
    Divide(x, a);
    Divide(u, b);
    ModBound(x, a);
    ModBound(u, b);
    MulMono(u % b + 1, b, a);
    assert a * (b * v) == a * b * v;
    assert a * u == a * b * v + a * (u % b);
    MulMono(1, b, a);
    DivUnique(x, a * b, v, x % a + a * (u % b));
  }

  lemma {:induction false} PowerPositive(b: nat, n: nat)
    requires b > 0
    ensures Power(b, n) > 0
  {
    if n > 0 {
      PowerPositive(b, n - 1);
      MulMono(1, b, Power(b, n - 1));
    }
  }

  /** Digit `c`, outright. */
  lemma {:induction false} DigitAt(b: nat, n: nat, x: nat, c: nat)
    requires b > 0 && c < n
    ensures Power(b, c) > 0 && Digits(b, n, x)[c] == x / Power(b, c) % b
  {
    if c > 0 {
      ModBound(x, b);
      DigitAt(b, n - 1, x / b, c - 1);
      DivDiv(x, b, Power(b, c - 1));
      DigitNext(b, n, x, c);
      assert Power(b, c) == b * Power(b, c - 1);
      hide *;
    }
  }

  lemma DigitNext(b: nat, n: nat, x: nat, c: nat)
    requires b > 0 && 0 < c < n && x / b >= 0
    ensures Digits(b, n, x)[c] == Digits(b, n - 1, x / b)[c - 1]
  {
  }

  /** Dropping low digits divides. */
  lemma {:induction false} DropDigits(b: nat, ds: seq<nat>, o: nat)
    requires b > 0 && o <= |ds| && forall i :: 0 <= i < |ds| ==> ds[i] < b
    ensures Power(b, o) > 0 && Num(b, ds) / Power(b, o) == Num(b, ds[o..])
  {
    if o == 0 {
      assert ds[0..] == ds;
    } else {
      DropDigits(b, ds[1..], o - 1);
      assert ds[1..][o - 1..] == ds[o..];
      DivUnique(Num(b, ds), b, Num(b, ds[1..]), ds[0]);
      DivDiv(Num(b, ds), b, Power(b, o - 1));
    }
  }

  lemma {:induction false} NumSplit(b: nat, ds: seq<nat>, m: nat)
    requires m <= |ds|
    ensures Num(b, ds) == Num(b, ds[..m]) + Power(b, m) * Num(b, ds[m..])
  {
    if m == 0 {
      assert ds[0..] == ds;
    } else {
      NumSplit(b, ds[1..], m - 1);
      assert ds[1..][..m - 1] == ds[..m][1..];
      assert ds[1..][m - 1..] == ds[m..];
      Spread(b, ds[0], Num(b, ds[..m][1..]), Power(b, m - 1), Num(b, ds[m..]));
    }
  }

  lemma Spread(b: int, d: int, x: int, p: int, y: int)
    ensures d + b * (x + p * y) == d + b * x + b * p * y
  {
  }

  /** The `w` bits of `x` from position `pos` up. */
  function Slice(x: nat, pos: nat, w: nat): (r: nat)
    ensures r < Pow2(w)
  {
    x / Pow2(pos) % Pow2(w)
  }

  /** Bits above the slice do not matter. */
  lemma HighBits(win: nat, rest: nat, s: nat, w: nat, k: nat)
    requires s + w <= k
    ensures Slice(win + Pow2(k) * rest, s, w) == Slice(win, s, w)
  {
    var p, q, r := Pow2(s), Pow2(w), Pow2(k - s - w);
    Pow2Add(s, w);
    Pow2Add(s + w, k - s - w);
    assert Slice(win + Pow2(k) * rest, s, w) == (win + Pow2(k) * rest) / p % q;
    assert Slice(win, s, w) == win / p % q;
    hide *;
    ModBound(win, p);
    HighBitsOf(win, rest, p, q, r, Pow2(k), win / p);
  }

  lemma HighBitsOf(win: nat, rest: nat, p: nat, q: nat, r: nat, pqr: nat, u: nat)
    requires p > 0 && q > 0 && u == win / p && pqr == p * q * r
    ensures (win + pqr * rest) / p % q == u % q
  {
    Divide(win, p);
    ModBound(win, p);
    ModBound(u, q);
    Divide(u, q);
    assert pqr * rest == p * (q * (r * rest));
    DivUnique(win + p * (q * (r * rest)), p, u + q * (r * rest), win % p);
    DivUnique(u + q * (r * rest), q, u / q + r * rest, u % q);
  }

  /** A slice of a slice. */
  lemma SliceOfSlice(x: nat, pos: nat, w: nat, k: nat, v: nat)
    requires k + v <= w
    ensures Slice(Slice(x, pos, w), k, v) == Slice(x, pos + k, v)
  {
    var y := x / Pow2(pos);
    ModBound(x, Pow2(pos));
    ModBound(y, Pow2(w));
    Divide(y, Pow2(w));
    Pow2Add(pos, k);
    DivDiv(x, Pow2(pos), Pow2(k));
    assert Slice(x, pos + k, v) == Slice(y, k, v) && Slice(x, pos, w) == y % Pow2(w);
    hide *;
    HighBits(y % Pow2(w), y / Pow2(w), k, v, w);
  }

  /** Whole bytes below the slice do not matter either. */
  lemma SliceFrom(bytes: Bytes, o: nat, s: nat, w: nat)
    requires o <= |bytes|
    ensures Slice(Num(256, bytes), 8 * o + s, w) == Slice(Num(256, bytes[o..]), s, w)
  {
    var x := Num(256, bytes);
    DropDigits(256, bytes, o);
    PowerIsPow2(8, o);
    Pow2Values();
    Pow2Add(8 * o, s);
    hide Pow2, Power, Num;
    DivDiv(x, Pow2(8 * o), Pow2(s));
  }

  /** The slice at bit `8 * o + s`, read from the `m` bytes from `o` on. */
  lemma SliceInWindow(bytes: Bytes, o: nat, s: nat, w: nat, m: nat)
    requires s + w <= 8 * m && o + m <= |bytes|
    ensures Slice(Num(256, bytes), 8 * o + s, w) == Slice(Num(256, bytes[o..o + m]), s, w)
  {
    SliceFrom(bytes, o, s, w);
    NumSplit(256, bytes[o..], m);
    assert bytes[o..][..m] == bytes[o..o + m];
    PowerIsPow2(8, m);
    Pow2Values();
    hide Pow2, Power, Num, Slice;
    HighBits(Num(256, bytes[o..o + m]), Num(256, bytes[o..][m..]), s, w, 8 * m);
  }

  /** Coefficient `c` is the slice at `w * c`. */
  lemma UnpackAt(w: nat, n: nat, bytes: Bytes, c: nat, pos: nat)
    requires w <= 16 && c < n && pos == w * c
    ensures Unpack(w, n, bytes)[c] == Slice(Num(256, bytes), pos, w)
  {
    DigitAt(Pow2(w), n, Num(256, bytes), c);
    PowerIsPow2(w, c);
  }

  /** Trailing zero bytes change nothing. */
  lemma {:induction false} NumPadded(b: nat, ds: seq<nat>, k: nat)
    ensures Num(b, ds + Zeros(k)) == Num(b, ds)
  {
    if |ds| > 0 {
      assert (ds + Zeros(k))[1..] == ds[1..] + Zeros(k);
      NumPadded(b, ds[1..], k);
    } else {
      assert ds + Zeros(k) == Zeros(k);
      NumZeros(b, k);
    }
  }

  function Zeros(k: nat): (z: seq<u8>)
    ensures |z| == k
  {
    if k == 0 then [] else [0] + Zeros(k - 1)
  }

  lemma {:induction false} ZerosAt(k: nat)
    ensures forall i :: 0 <= i < k ==> Zeros(k)[i] == 0
  {
    if k > 0 { ZerosAt(k - 1); }
  }

  lemma {:induction false} NumZeros(b: nat, k: nat)
    ensures Num(b, Zeros(k)) == 0
  {
    if k > 0 {
      assert Zeros(k)[1..] == Zeros(k - 1);
      NumZeros(b, k - 1);
    }
  }

  lemma UnpackPadded(w: nat, n: nat, bytes: Bytes, k: nat)
    requires w <= 16
    ensures Unpack(w, n, bytes + Zeros(k)) == Unpack(w, n, bytes)
  {
    NumPadded(256, bytes, k);
  }

  /** Bit `i` of a byte string. */
  function Bit(bytes: Bytes, i: nat): (b: nat)
    requires i < 8 * |bytes|
    ensures b < 2
  {
    bytes[i / 8] / Pow2(i % 8) % 2
  }

  lemma BitIsSlice(bytes: Bytes, i: nat)
    requires i < 8 * |bytes|
    ensures Bit(bytes, i) == Slice(Num(256, bytes), i, 1)
  {
    var o, s := i / 8, i % 8;
    SliceInWindow(bytes, o, s, 1, 1);
    assert bytes[o..o + 1] == [bytes[o]];
    assert Num(256, [bytes[o]]) == bytes[o] && Pow2(1) == 2;
  }
}
