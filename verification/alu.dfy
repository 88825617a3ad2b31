/** The arithmetic unit: a five-stage barrel shifter and comparisons taken from a subtraction,
    against the mathematical shift and order. */
module Alu {
  import opened Words

  datatype Op = None | ShiftLeft | ShiftRight | ShiftRightArith | Add | Sub | LessThan | LessThanSigned

  predicate Bit(x: nat, i: nat) { x / Pow2(i) % 2 == 1 }

  /** `x` shifted right by `k`, the `k` vacated bits all equal to `fill`. */
  function StageRight(x: Word, fill: bool, k: nat): int {
    x / Pow2(k) + if fill then W32 - W32 / Pow2(k) else 0
  }

  function StageLeft(x: Word, k: nat): Word { x * Pow2(k) % W32 }

  /** Stage `n` of the shifter moves by 2^n when bit `n` of the amount is set. */
  function ShiftRightStages(a: Word, fill: bool, b: Word, n: nat): Word
    requires n <= 5
  {
    if n == 0 then a
    else
      var x := ShiftRightStages(a, fill, b, n - 1);
      StageFits(x, fill, n - 1);
      if Bit(b, n - 1) then StageRight(x, fill, Pow2(n - 1)) else x
  }

  function ShiftLeftStages(a: Word, b: Word, n: nat): Word
    requires n <= 5
  {
    if n == 0 then a
    else
      var x := ShiftLeftStages(a, b, n - 1);
      if Bit(b, n - 1) then StageLeft(x, Pow2(n - 1)) else x
  }

  function Compute(op: Op, a: Word, b: Word): Word {
    var sub := Wrap(a - b);
    match op
    case ShiftLeft => ShiftLeftStages(a, b, 5)
    case ShiftRight => ShiftRightStages(a, false, b, 5)
    case ShiftRightArith => ShiftRightStages(a, SignBit(a), b, 5)
    case Add => Wrap(a + b)
    case Sub => sub
    case LessThan => if a < b then 1 else 0
    case LessThanSigned =>
      if SignBit(a) != SignBit(b) then if SignBit(a) then 1 else 0
      else if SignBit(sub) then 1 else 0
    case None => a
  }

  // ---------------------------------------------------------------- powers of two

  lemma SmallPowers()
    ensures Pow2(0) == 1 && Pow2(1) == 2 && Pow2(2) == 4 && Pow2(3) == 8 && Pow2(4) == 16
    ensures Pow2(8) == 256 && Pow2(16) == 65536
    ensures Pow2(5) == 32
  {
    assert Pow2(8) == 256;
    assert Pow2(16) == 65536;
  }

  lemma {:induction false} Pow2Sum(i: nat, j: nat)
    ensures Pow2(i + j) == Pow2(i) * Pow2(j)
  {
    if i > 0 {
      hide Pow2;
      Pow2Sum(i - 1, j);
      Doubles(i + j);
      Doubles(i);
      Associates(2, Pow2(i - 1), Pow2(j));
    }
  }

  lemma Doubles(n: nat)
    requires n > 0
    ensures Pow2(n) == 2 * Pow2(n - 1)
  {
  }

  lemma Associates(a: int, b: int, c: int)
    ensures (a * b) * c == a * (b * c)
  {
  }

  lemma StageFits(x: Word, fill: bool, n: nat)
    requires n <= 4
    ensures 0 <= StageRight(x, fill, Pow2(n)) < W32
  {
    SmallPowers();
    assert n == 0 || n == 1 || n == 2 || n == 3 || n == 4;
  }

  // ---------------------------------------------------------------- right shifts

  /** The number a word stands for when its vacated bits are filled with `fill`. */
  function Filled(x: Word, fill: bool): int { if fill then x - W32 else x }

  lemma StageDivides(x: Word, fill: bool, n: nat)
    requires n <= 4
    ensures 0 <= StageRight(x, fill, Pow2(n)) < W32
    ensures Filled(StageRight(x, fill, Pow2(n)), fill) == Filled(x, fill) / Pow2(Pow2(n))
  {
    SmallPowers();
    StageFits(x, fill, n);
    assert n == 0 || n == 1 || n == 2 || n == 3 || n == 4;
  }

  /** The amount the first `n` stages shift by. */
  function Amount(b: Word, n: nat): nat {
    if n == 0 then 0 else Amount(b, n - 1) + if Bit(b, n - 1) then Pow2(n - 1) else 0
  }

  lemma {:induction false} AmountIsLowBits(b: Word, n: nat)
    ensures Amount(b, n) == b % Pow2(n)
  {
    if n > 0 {
      AmountIsLowBits(b, n - 1);
      NextBit(b, Pow2(n - 1));
    }
  }

  lemma NextBit(b: nat, p: nat)
    requires p > 0
    ensures b % (2 * p) == b % p + if b / p % 2 == 1 then p else 0
  {
    var q, r := b / p, b % p;
    assert b == p * q + r;
    assert p * q == p * (2 * (q / 2) + q % 2);
    assert p * (2 * (q / 2) + q % 2) == (2 * p) * (q / 2) + p * (q % 2);
    DivUnique(b, q / 2, 2 * p, r + p * (q % 2));
  }

  lemma {:induction false} RightStagesDivide(a: Word, fill: bool, b: Word, n: nat)
    requires n <= 5
    ensures Filled(ShiftRightStages(a, fill, b, n), fill) == Filled(a, fill) / Pow2(Amount(b, n))
  {
    if n > 0 {
      RightStagesDivide(a, fill, b, n - 1);
      if Bit(b, n - 1) {
        var p, q := Pow2(Amount(b, n - 1)), Pow2(Pow2(n - 1));
        StageDivides(ShiftRightStages(a, fill, b, n - 1), fill, n - 1);
        DivDiv(Filled(a, fill), p, q);
        Pow2Sum(Amount(b, n - 1), Pow2(n - 1));
      }
    }
  }

  // ---------------------------------------------------------------- left shift

  lemma {:induction false} LeftStagesMultiply(a: Word, b: Word, n: nat)
    requires n <= 5
    ensures ShiftLeftStages(a, b, n) == a * Pow2(Amount(b, n)) % W32
  {
    if n > 0 {
      LeftStagesMultiply(a, b, n - 1);
      if Bit(b, n - 1) {
        var p, q := Pow2(Amount(b, n - 1)), Pow2(Pow2(n - 1));
        Pow2Sum(Amount(b, n - 1), Pow2(n - 1));
        LeftStage(a, p, q);
      }
    }
  }

  lemma LeftStage(a: nat, p: nat, q: nat)
    ensures (a * p % W32) * q % W32 == a * (p * q) % W32
  {
    MulMod(a * p, q, W32);
    assert a * p * q == a * (p * q);
  }

  lemma MulMod(x: int, y: int, m: nat)
    requires m > 0
    ensures (x % m) * y % m == x * y % m
  {
    var q := x / m;
    assert x == m * q + x % m;
    assert x * y == (x % m) * y + (q * y) * m;
    ModShift((x % m) * y, q * y, m);
  }

  // ---------------------------------------------------------------- results

  /** Five conditional stages are one shift by the low five bits of the amount: a division
      rounding down (signed for the arithmetic shift), or a multiplication modulo 2^32. */
  lemma ShifterShifts(a: Word, b: Word)
    ensures Compute(ShiftLeft, a, b) == a * Pow2(b % 32) % W32
    ensures Compute(ShiftRight, a, b) == a / Pow2(b % 32)
    ensures Compute(ShiftRightArith, a, b) == Wrap(Signed(a) / Pow2(b % 32))
  {
    hide ShiftLeftStages, ShiftRightStages, Amount, Bit, Pow2;
    SmallPowers();
    AmountIsLowBits(b, 5);
    LeftStagesMultiply(a, b, 5);
    RightStagesDivide(a, false, b, 5);
    RightStagesDivide(a, SignBit(a), b, 5);
  }

  /** The sign of a wrapped difference decides the signed order once equal signs are known. */
  lemma {:induction false} ComparesSigned(a: Word, b: Word)
    ensures Compute(LessThanSigned, a, b) == if Signed(a) < Signed(b) then 1 else 0
    ensures Compute(Sub, a, b) == Wrap(Signed(a) - Signed(b))
  {
  }
}
