/** Integer helpers for the C arithmetic the renderer relies on: the `(int)`
    conversion of a float, `/` on `int`, and `&` on a 32-bit `int`. */
module Numeric {

  /** C's `(int)` conversion of a float: truncation toward zero. */
  function Trunc(r: real): (n: int)
    ensures 0.0 <= r ==> 0 <= n && n as real <= r < n as real + 1.0
    ensures r < 0.0 ==> n <= 0 && n as real - 1.0 < r <= n as real
  {
    if r >= 0.0 then r.Floor else -((-r).Floor)
  }

  /** C's `/` on `int` with a positive divisor: the quotient is rounded toward zero,
      so a negative dividend gives the negated quotient of its magnitude. */
  function CDiv(a: int, b: int): (q: int)
    requires 0 < b
    ensures 0 <= a ==> 0 <= q && 0 <= a - q * b < b
    ensures a < 0 ==> q <= 0 && -b < a - q * b <= 0
  {
    if a >= 0 then a / b
    else
      var m := (-a) / b;
      assert -a == b * m + (-a) % b;
      -m
  }

  function Pow2(k: nat): (p: nat)
    ensures 1 <= p
  {
    if k == 0 then 1 else 2 * Pow2(k - 1)
  }

  lemma {:induction false} Pow2Add(i: nat, j: nat)
    ensures Pow2(i + j) == Pow2(i) * Pow2(j)
    decreases i
  {
    if i != 0 {
      Pow2Add(i - 1, j);
      assert Pow2(i + j) == 2 * Pow2(i - 1 + j);
    }
  }

  /** Euclidean division is determined by its defining equation. */
  lemma DivModUnique(a: int, d: int, t: int, s: int)
    requires 0 < d && a == d * t + s && 0 <= s < d
    ensures a / d == t && a % d == s
  {
    var z := t - a / d;
    assert d * z == a % d - s;
    MulSign(d, z);
  }

  lemma MulSign(d: int, z: int)
    requires 0 < d
    ensures 1 <= z ==> d <= d * z
    ensures z <= -1 ==> d * z <= -d
  {
  }

  /** Taking a residue modulo a multiple of `p` keeps the residue modulo `p`. */
  lemma ModOfMod(a: int, p: int, q: int)
    requires 0 < p && 0 < q
    ensures (a % (p * q)) % p == a % p
  {
    var r := a % (p * q);
    var t := a / (p * q);
    assert a == (p * q) * t + r;
    assert r == p * (r / p) + r % p;
    assert a == p * (q * t + r / p) + r % p;
    DivModUnique(a, p, q * t + r / p, r % p);
  }

  lemma ModDouble(a: nat, p: nat)
    requires 1 <= p
    ensures a % (2 * p) == 2 * ((a / 2) % p) + a % 2
  {
    var q := a / 2;
    var u := q % p;
    var t := q / p;
    assert a == 2 * q + a % 2;
    assert q == p * t + u;
    assert a == (2 * p) * t + (2 * u + a % 2);
    DivModUnique(a, 2 * p, t, 2 * u + a % 2);
  }

  /** Bitwise AND of two non-negative integers, one bit at a time from the
      least significant end. */
  function BitAnd(a: nat, b: nat): nat
    decreases a
  {
    if a == 0 || b == 0 then 0
    else 2 * BitAnd(a / 2, b / 2) + (if a % 2 == 1 && b % 2 == 1 then 1 else 0)
  }

  lemma {:induction false} BitAndBounded(a: nat, b: nat)
    ensures BitAnd(a, b) <= a && BitAnd(a, b) <= b
    decreases a
  {
    if a != 0 && b != 0 {
      BitAndBounded(a / 2, b / 2);
    }
  }

  /** AND with a mask of `k` low one-bits keeps the residue modulo 2^k. */
  lemma {:induction false} BitAndLowMask(a: nat, k: nat)
    ensures BitAnd(a, Pow2(k) - 1) == a % Pow2(k)
    decreases k
  {
    if k != 0 && a != 0 {
      var p := Pow2(k - 1);
      BitAndLowMask(a / 2, k - 1);
      assert (Pow2(k) - 1) / 2 == p - 1;
      assert (Pow2(k) - 1) % 2 == 1;
      ModDouble(a, p);
    }
  }

  /** `a & m` for a 32-bit two's-complement `int` `a` and a non-negative mask
      `m`: the AND of `a`'s bit pattern, read as an unsigned word, with `m`. */
  function MaskInt(a: int, m: nat): (r: nat)
    ensures r <= m
  {
    BitAndBounded(a % Pow2(32), m);
    BitAnd(a % Pow2(32), m)
  }

  /** Masking with 2^k - 1 is reduction modulo 2^k, for negative values too
      (Dafny's `%` is Euclidean, matching the two's-complement bit pattern). */
  lemma MaskIntLowBits(a: int, k: nat)
    requires k <= 32
    ensures MaskInt(a, Pow2(k) - 1) == a % Pow2(k)
  {
    BitAndLowMask(a % Pow2(32), k);
    Pow2Add(k, 32 - k);
    ModOfMod(a, Pow2(k), Pow2(32 - k));
  }
}
