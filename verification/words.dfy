/** 32-bit words as numbers: two's complement reading, negation, and the bit operations the
    units need, with the arithmetic facts about them. */
module Words {
  const W32 := 0x1_0000_0000
  const W31 := 0x8000_0000

  type Word = x: nat | x < 0x1_0000_0000

  type Byte = x: nat | x < 256

  /** A burst length as AXI carries it, one less than the beats, in an eight-bit register. */
  type Len = x: nat | x < 256

  function Less(x: Len): Len { if x == 0 then 255 else x - 1 }

  function Signed(x: Word): int { if x < W31 then x else x - W32 }

  function Wrap(x: int): Word { x % W32 }

  function Negate(x: Word): Word { if x == 0 then 0 else W32 - x }

  predicate SignBit(x: Word) { x >= W31 }

  function Magnitude(x: int): nat { if x < 0 then -x else x }

  /** Division and remainder as C does them: the quotient is rounded towards zero. */
  function TruncDiv(x: int, y: int): int
    requires y != 0
  {
    var q := Magnitude(x) / Magnitude(y);
    if (x < 0) != (y < 0) then -q else q
  }

  function TruncRem(x: int, y: int): int
    requires y != 0
  {
    var r := Magnitude(x) % Magnitude(y);
    if x < 0 then -r else r
  }

  // ---------------------------------------------------------------- bits

  function Or(a: nat, b: nat): nat
    decreases a + b
  {
    if a == 0 && b == 0 then 0
    else 2 * Or(a / 2, b / 2) + (if a % 2 == 1 || b % 2 == 1 then 1 else 0)
  }

  function Pow2(n: nat): (p: nat)
    ensures p > 0
  {
    if n == 0 then 1 else 2 * Pow2(n - 1)
  }

  lemma Pow2Values()
    ensures Pow2(31) == W31 && Pow2(32) == W32
  {
    assert Pow2(8) == 256;
    assert Pow2(16) == 65536;
    assert Pow2(24) == 0x100_0000;
  }

  /** Bit-wise or of two words. */
  function OrWord(a: Word, b: Word): Word {
    Pow2Values();
    OrBound(a, b, 32);
    Or(a, b)
  }

  lemma {:induction false} OrBound(a: nat, b: nat, n: nat)
    requires a < Pow2(n) && b < Pow2(n)
    ensures Or(a, b) < Pow2(n)
  {
    if n > 0 && (a > 0 || b > 0) {
      OrBound(a / 2, b / 2, n - 1);
    }
  }

  lemma {:induction false} OrZero(a: nat)
    ensures Or(a, 0) == a
  {
    if a > 0 { OrZero(a / 2); }
  }

  /** Setting a bit below all set bits is adding it. */
  lemma {:induction false} OrLowBit(a: nat, n: nat)
    requires a % Pow2(n + 1) == 0
    ensures Or(a, Pow2(n)) == a + Pow2(n)
  {
    if n == 0 {
      OrZero(a / 2);
    } else {
      HalfMultiple(a, Pow2(n));
      OrLowBit(a / 2, n - 1);
    }
  }

  lemma HalfMultiple(a: nat, p: nat)
    requires p > 0 && a % (2 * p) == 0
    ensures a % 2 == 0 && (a / 2) % p == 0
  {
    var k := a / (2 * p);
    assert a == 2 * (p * k) by { assert (2 * p) * k == 2 * (p * k); }
    assert a / 2 == p * k;
    MultipleMod(p, k);
  }

  lemma MultipleMod(p: nat, k: nat)
    requires p > 0
    ensures (p * k) % p == 0 && (p * k) / p == k
  {
    var q, r := (p * k) / p, (p * k) % p;
    assert p * (k - q) == r;
    MulGap(p, k - q);
  }

  lemma MulGap(p: int, d: int)
    requires p > 0
    ensures d >= 1 ==> p * d >= p
    ensures d <= -1 ==> p * d <= -p
  {
    if d >= 1 {
      assert p * d == p * (d - 1) + p;
    } else if d <= -1 {
      assert p * d == p * (d + 1) - p;
    }
  }

  lemma DivUnique(x: int, q: int, d: int, r: int)
    requires d > 0 && x == q * d + r && 0 <= r < d
    ensures x / d == q && x % d == r
  {
    assert x == d * (x / d) + x % d;
    assert d * (x / d - q) == r - x % d;
    MulGap(d, x / d - q);
  }

  /** Rounding down twice is rounding down once. */
  lemma DivDiv(x: int, p: nat, q: nat)
    requires p > 0 && q > 0
    ensures p * q > 0 && x / p / q == x / (p * q)
  {
    var a, b := x / p, x / p / q;
    var r := x % p + p * (a % q);
    Regroup(x, p, q);
    RemainderBound(x % p, p, a % q, q);
    assert x == b * (p * q) + r;
    DivUnique(x, b, p * q, r);
  }

  lemma Regroup(x: int, p: nat, q: nat)
    requires p > 0 && q > 0
    ensures x == (p * q) * (x / p / q) + (x % p + p * (x / p % q))
  {
    var a, b := x / p, x / p / q;
    assert a == q * b + a % q;
    assert p * a == p * (q * b) + p * (a % q);
    assert p * (q * b) == (p * q) * b;
  }

  lemma RemainderBound(r: nat, p: nat, s: nat, q: nat)
    requires r < p && s < q
    ensures r + p * s < p * q
  {
    MulGapAtMost(p, s, q - 1);
    assert p * (q - 1) == p * q - p;
  }

  lemma MulGapAtMost(p: nat, s: nat, t: nat)
    requires s <= t
    ensures p * s <= p * t
  {
    assert p * t == p * s + p * (t - s);
  }

  lemma ModShift(p: int, k: int, m: int)
    requires m > 0
    ensures (p + k * m) % m == p % m
  {
    var q := (p + k * m) / m - p / m - k;
    assert m * q == p % m - (p + k * m) % m by {
      assert p == m * (p / m) + p % m;
      assert p + k * m == m * ((p + k * m) / m) + (p + k * m) % m;
      assert m * q == m * ((p + k * m) / m) - m * (p / m) - m * k;
    }
    MulGap(m, q);
  }
}
