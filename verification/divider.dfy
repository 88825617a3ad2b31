/** The iterative divider: one restoring step per clock, and the proof that it returns the
    quotient or remainder the instruction defines, for every operand pair, in 34 cycles. */
module Divider {
  import opened Words

  datatype Op = Div | Divu | Rem | Remu
  {
    predicate IsSigned() { Div? || Rem? }
    predicate WantsQuotient() { Div? || Divu? }
  }

  // ---------------------------------------------------------------- what the instructions mean

  /** The simulator's result. */
  function Meaning(op: Op, a: Word, b: Word): Word {
    match op
    case Div =>
      if Signed(a) == -W31 && Signed(b) == -1 then a
      else if b != 0 then Wrap(TruncDiv(Signed(a), Signed(b))) else W32 - 1
    case Divu => if b != 0 then a / b else W32 - 1
    case Rem =>
      if Signed(a) == -W31 && Signed(b) == -1 then 0
      else if b != 0 then Wrap(TruncRem(Signed(a), Signed(b))) else a
    case Remu => if b != 0 then a % b else a
  }

  // ---------------------------------------------------------------- registers

  datatype State = State(
    busy: bool, dividend: Word, divisor: nat, quotient: Word, mask: Word, divInst: bool, invert: bool,
    valid: bool, result: Word)

  const RESET := State(false, 0, 0, 0, 0, false, false, false, 0)

  /** The divisor register is 63 bits wide. */
  predicate Wf(s: State) { s.divisor < W31 * W32 }

  datatype In = NoStart | Start(op: Op, a: Word, b: Word)

  predicate Complete(s: State) { s.mask == 0 && s.busy }

  function ResultWire(s: State): Word {
    var r := if s.divInst then s.quotient else s.dividend;
    if s.invert then Negate(r) else r
  }

  function Operand(op: Op, x: Word): Word { if op.IsSigned() && SignBit(x) then Negate(x) else x }

  function Inverts(op: Op, a: Word, b: Word): bool {
    || (op.Div? && SignBit(a) != SignBit(b) && b != 0)
    || (op.Rem? && SignBit(a))
  }

  function Next(s: State, i: In): State {
    var done := Complete(s);
    var s1 := s.(valid := done, result := if done then ResultWire(s) else s.result);
    if i.Start? then
      s1.(busy := true, divInst := i.op.WantsQuotient(), dividend := Operand(i.op, i.a),
          divisor := Operand(i.op, i.b) * W31, invert := Inverts(i.op, i.a, i.b), quotient := 0, mask := W31)
    else if done then s1.(busy := false)
    else if s.busy then
      var subtract := s.divisor <= s.dividend;
      s1.(dividend := if subtract then Wrap(s.dividend - s.divisor % W32) else s.dividend,
          quotient := if subtract then OrWord(s.quotient, s.mask) else s.quotient,
          divisor := s.divisor / 2, mask := s.mask / 2)
    else s1
  }

  /** `n` further cycles without a new start. */
  function Run(s: State, n: nat): State { if n == 0 then s else Next(Run(s, n - 1), NoStart) }

  // ---------------------------------------------------------------- the loop invariant

  /** With `k` quotient bits still to decide: the dividend register is the remainder so far, the
      divisor register is aligned to the bit at hand, and only decided quotient bits are set. */
  predicate LoopInv(s: State, a: Word, b: Word, k: nat) {
    && a == s.quotient * b + s.dividend
    && s.quotient % Pow2(k) == 0
    && s.mask == (if k == 0 then 0 else Pow2(k - 1))
    && (k > 0 ==> s.divisor == b * Pow2(k - 1))
    && (b > 0 ==> s.dividend < b * Pow2(k))
    && (b == 0 ==> s.quotient == W32 - Pow2(k))
  }

  lemma Subtract(a: nat, q: nat, d: nat, b: nat, half: nat)
    requires a == q * b + d
    ensures a == (q + half) * b + (d - b * half)
  {
    assert (q + half) * b == q * b + half * b;
  }

  lemma LowerMultiple(q: nat, half: nat)
    requires half > 0 && q % (2 * half) == 0
    ensures q % half == 0 && (q + half) % half == 0
  {
    var m := q / (2 * half);
    assert q == half * (2 * m) by { assert (2 * half) * m == half * (2 * m); }
    assert q + half == half * (2 * m + 1);
    MultipleMod(half, 2 * m);
    MultipleMod(half, 2 * m + 1);
  }

  lemma HalveProduct(b: nat, k: nat)
    requires k > 0
    ensures b * Pow2(k) / 2 == b * Pow2(k - 1) && b * Pow2(k) == b * Pow2(k - 1) + b * Pow2(k - 1)
  {
    assert b * (2 * Pow2(k - 1)) == 2 * (b * Pow2(k - 1));
  }

  /** One restoring step decides one quotient bit. */
  lemma {:induction false} LoopStep(s: State, a: Word, b: Word, k: nat)
    requires 0 < k <= 32 && s.busy && LoopInv(s, a, b, k)
    ensures var t := Next(s, NoStart);
            && LoopInv(t, a, b, k - 1) && t.busy && !t.valid
            && t.divInst == s.divInst && t.invert == s.invert && t.result == s.result
  {
    HalveProduct(b, k);
    if k > 1 { HalveProduct(b, k - 1); }
    LowerMultiple(s.quotient, Pow2(k - 1));
    if s.divisor <= s.dividend {
      SetsBit(s, a, b, k);
    } else {
      assert b > 0 by { assert b * Pow2(k - 1) > 0; }
    }
  }

  lemma SetsBit(s: State, a: Word, b: Word, k: nat)
    requires 0 < k <= 32 && LoopInv(s, a, b, k) && s.divisor <= s.dividend
    ensures Wrap(s.dividend - s.divisor % W32) == s.dividend - b * Pow2(k - 1)
    ensures OrWord(s.quotient, s.mask) == s.quotient + Pow2(k - 1)
    ensures a == (s.quotient + Pow2(k - 1)) * b + (s.dividend - b * Pow2(k - 1))
  {
    OrLowBit(s.quotient, k - 1);
    Subtract(a, s.quotient, s.dividend, b, Pow2(k - 1));
    TakeDivisor(s.dividend, s.divisor);
  }

  lemma TakeDivisor(dividend: Word, divisor: nat)
    requires divisor <= dividend
    ensures Wrap(dividend - divisor % W32) == dividend - divisor
  {
  }

  /** After the last step the registers hold quotient and remainder of the magnitudes. */
  lemma LoopEnd(s: State, a: Word, b: Word)
    requires LoopInv(s, a, b, 0)
    ensures b > 0 ==> s.quotient == a / b && s.dividend == a % b
    ensures b == 0 ==> s.quotient == W32 - 1 && s.dividend == a
  {
    if b > 0 {
      DivUnique(a, s.quotient, b, s.dividend);
    }
  }

  lemma OperandIsMagnitude(op: Op, x: Word)
    requires op.IsSigned()
    ensures Operand(op, x) == Magnitude(Signed(x))
  {
  }

  /** The sign fix-up turns the unsigned result into the instruction's. */
  lemma SignFix(s: State, op: Op, a: Word, b: Word)
    requires LoopInv(s, Operand(op, a), Operand(op, b), 0)
    requires s.divInst == op.WantsQuotient() && s.invert == Inverts(op, a, b)
    ensures ResultWire(s) == Meaning(op, a, b)
  {
    LoopEnd(s, Operand(op, a), Operand(op, b));
    if op.IsSigned() {
      OperandIsMagnitude(op, a);
      OperandIsMagnitude(op, b);
      if b != 0 {
        QuotientBound(Magnitude(Signed(a)), Magnitude(Signed(b)));
        if op.Div? { SignedQuotient(a, b); } else { SignedRemainder(a, b); }
      }
    }
  }

  lemma SignedQuotient(a: Word, b: Word)
    requires b != 0
    ensures var q := Magnitude(Signed(a)) / Magnitude(Signed(b));
            q < W32 && Meaning(Div, a, b) == if SignBit(a) != SignBit(b) then Negate(q) else q
  {
    var x, y := Magnitude(Signed(a)), Magnitude(Signed(b));
    QuotientBound(x, y);
    assert x <= W31;
    if x == W31 && y == 1 {
      assert x / y == W31;
    }
  }

  lemma SignedRemainder(a: Word, b: Word)
    requires b != 0
    ensures var r := Magnitude(Signed(a)) % Magnitude(Signed(b));
            r < W32 && Meaning(Rem, a, b) == if SignBit(a) then Negate(r) else r
  {
    var x, y := Magnitude(Signed(a)), Magnitude(Signed(b));
    QuotientBound(x, y);
    if y == 1 {
      assert x % y == 0;
    }
  }

  lemma QuotientBound(a: nat, b: nat)
    requires b > 0
    ensures a / b <= a && a % b <= a
  {
    var q := a / b;
    assert a == b * q + a % b;
    Grows(b, q);
  }

  lemma Grows(b: nat, q: nat)
    requires b > 0
    ensures b * q >= q
  {
    if b > 1 {
      Grows(b - 1, q);
      assert b * q == (b - 1) * q + q;
    }
  }

  /** The state `n` cycles after a start from idle. */
  lemma {:induction false} Progress(t: State, s: State, op: Op, a: Word, b: Word, n: nat)
    requires !s.busy && t == Next(s, Start(op, a, b)) && n <= 32
    ensures var r := Run(t, n);
            && r.busy && !r.valid && LoopInv(r, Operand(op, a), Operand(op, b), 32 - n)
            && r.divInst == op.WantsQuotient() && r.invert == Inverts(op, a, b)
  {
    Pow2Values();
    if n > 0 {
      Progress(t, s, op, a, b, n - 1);
      LoopStep(Run(t, n - 1), Operand(op, a), Operand(op, b), 32 - (n - 1));
    }
  }

  /** A start from idle, with no further start, gives the DIV, DIVU, REM or REMU result of any
      operands, division by zero and the signed overflow included; the valid flag is up for
      exactly one cycle, 34 clock edges after the start. */
  lemma {:induction false} DividesIn34Cycles(s: State, op: Op, a: Word, b: Word, n: nat)
    requires !s.busy
    ensures var r := Run(Next(s, Start(op, a, b)), n);
            && (r.valid <==> n + 1 == 34) && (r.busy <==> n + 1 < 34)
            && (n + 1 >= 34 ==> r.result == Meaning(op, a, b))
  {
    var t := Next(s, Start(op, a, b));
    if n <= 32 {
      Progress(t, s, op, a, b, n);
    } else if n == 33 {
      Progress(t, s, op, a, b, n - 1);
      SignFix(Run(t, n - 1), op, a, b);
    } else {
      DividesIn34Cycles(s, op, a, b, n - 1);
    }
  }

  // ---------------------------------------------------------------- clocked registers

  class DividerUnit {
    var busy: bool
    var dividend: Word
    var divisor: nat
    var quotient: Word
    var mask: Word
    var divInst: bool
    var invert: bool
    var valid: bool
    var result: Word

    function View(): State
      reads this
    {
      State(busy, dividend, divisor, quotient, mask, divInst, invert, valid, result)
    }

    constructor ()
      ensures View() == RESET
    {
      busy, dividend, divisor, quotient, mask := false, 0, 0, 0, 0;
      divInst, invert, valid, result := false, false, false, 0;
    }

    /** One clock edge. */
    method Step(i: In)
      modifies this
      ensures View() == Next(old(View()), i)
      ensures old(Wf(View())) ==> Wf(View())
    {
      var complete := mask == 0 && busy;
      valid := complete;
      if complete {
        result := ResultWire(View());
      }
      if i.Start? {
        busy, divInst := true, i.op.WantsQuotient();
        dividend := Operand(i.op, i.a);
        divisor := Operand(i.op, i.b) * W31;
        invert := Inverts(i.op, i.a, i.b);
        quotient, mask := 0, W31;
      } else if complete {
        busy := false;
      } else if busy {
        if divisor <= dividend {
          dividend := Wrap(dividend - divisor % W32);
          quotient := OrWord(quotient, mask);
        }
        divisor, mask := divisor / 2, mask / 2;
      }
    }
  }
}
