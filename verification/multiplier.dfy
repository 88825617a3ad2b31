/** The pipelined multiplier: 33-bit operands extended to 65 bits, one product taken modulo
    2^65, and the high or low word selected one stage later. */
module Multiplier {
  import opened Words

  const W33 := 0x2_0000_0000
  const W65 := 0x2_0000_0000_0000_0000

  datatype Op = Mul | Mulh | Mulhsu | Mulhu

  /** The simulator's result: the low word of the signed product, or the high word of the
      signed, mixed or unsigned one. */
  function Meaning(op: Op, a: Word, b: Word): Word {
    match op
    case Mul => Wrap(Signed(a) * Signed(b))
    case Mulh => Wrap(Signed(a) * Signed(b) / W32)
    case Mulhsu => Wrap(Signed(a) * b / W32)
    case Mulhu => Wrap(a * b / W32)
  }

  type Operand = x: nat | x < 0x2_0000_0000

  /** Operand with bit 32 as its sign. */
  function Sign33(negative: bool, x: Word): Operand { if negative then x + W32 else x }

  function OperandA(op: Op, a: Word): Operand { Sign33((op.Mulh? || op.Mulhsu?) && SignBit(a), a) }
  function OperandB(op: Op, b: Word): Operand { Sign33(op.Mulh? && SignBit(b), b) }

  /** Bit 32 copied into bits 33 to 64. */
  function Extend65(x: Operand): nat { if x >= W32 then x + W65 - W33 else x }

  function Product(a: Operand, b: Operand): nat { Extend65(a) * Extend65(b) % W65 }

  function Select(high: bool, product: nat): Word { if high then product / W32 % W32 else product % W32 }

  // ---------------------------------------------------------------- registers

  datatype State = State(a: Operand, b: Operand, high: bool, resultE2: Word, resultE3: Word)

  const RESET := State(0, 0, false, 0, 0)

  datatype In = In(hold: bool, start: bool, op: Op, a: Word, b: Word)

  function Next(s: State, i: In): State {
    if i.hold then s
    else if i.start then
      State(OperandA(i.op, i.a), OperandB(i.op, i.b), !i.op.Mul?, Select(s.high, Product(s.a, s.b)), s.resultE2)
    else State(0, 0, false, Select(s.high, Product(s.a, s.b)), s.resultE2)
  }

  // ---------------------------------------------------------------- the product

  function Value33(x: Operand): int { if x >= W32 then x - W33 else x }

  /** Modulo 2^65 the extended operands multiply like the signed 33-bit numbers they stand for. */
  lemma ProductIsSigned(a: Operand, b: Operand)
    ensures Product(a, b) == Value33(a) * Value33(b) % W65
  {
    var x, y := Value33(a), Value33(b);
    var i, j := if a >= W32 then 1 else 0, if b >= W32 then 1 else 0;
    assert Extend65(a) == x + i * W65 && Extend65(b) == y + j * W65;
    var k := x * j + y * i + i * j * W65;
    assert (x + i * W65) * (y + j * W65) == x * y + k * W65;
    ModShift(x * y, k, W65);
  }

  lemma SelectHigh(p: int)
    ensures Select(true, p % W65) == Wrap(p / W32)
    ensures Select(false, p % W65) == Wrap(p)
  {
    var k, r := p / W65, p % W65;
    assert p == k * W65 + r;
    assert W65 == W33 * W32 && W33 == 2 * W32;
    assert p / W32 == k * W33 + r / W32;
    ModShift(r / W32, 2 * k, W32);
    ModShift(r, k * W33, W32);
  }

  lemma SignedProductLow(a: Word, b: Word)
    ensures Wrap(a * b) == Wrap(Signed(a) * Signed(b))
  {
    var i, j := if SignBit(a) then 1 else 0, if SignBit(b) then 1 else 0;
    var x, y := Signed(a), Signed(b);
    assert a == x + i * W32 && b == y + j * W32;
    assert (x + i * W32) * (y + j * W32) == x * y + (x * j + y * i + i * j * W32) * W32;
    ModShift(x * y, x * j + y * i + i * j * W32, W32);
  }

  /** The selected word of the 65-bit product is the instruction's result for all operands. */
  lemma {:induction false} ProductMeans(op: Op, a: Word, b: Word)
    ensures Select(!op.Mul?, Product(OperandA(op, a), OperandB(op, b))) == Meaning(op, a, b)
  {
    var x, y := OperandA(op, a), OperandB(op, b);
    ProductIsSigned(x, y);
    SelectHigh(Value33(x) * Value33(y));
    if op.Mul? { SignedProductLow(a, b); }
  }

  // ---------------------------------------------------------------- stages under hold

  function After(ins: seq<In>): State {
    if ins == [] then RESET else Next(After(ins[..|ins| - 1]), ins[|ins| - 1])
  }

  /** The inputs of the cycles that were not held. */
  function Taken(ins: seq<In>): seq<In> {
    if ins == [] then []
    else Taken(ins[..|ins| - 1]) + if ins[|ins| - 1].hold then [] else [ins[|ins| - 1]]
  }

  function Value(i: In): Word { if i.start then Meaning(i.op, i.a, i.b) else 0 }

  /** The value of the input taken `k` unheld cycles before the last one. */
  function Delayed(t: seq<In>, k: nat): Word { if |t| <= k then 0 else Value(t[|t| - 1 - k]) }

  /** Whatever cycles are held, E1 holds the last taken input, and the E2 and E3 registers the
      results of the two before it; the output register is E2. */
  lemma {:induction false} StagesFollowHold(ins: seq<In>)
    ensures var (s, t) := (After(ins), Taken(ins));
            && Select(s.high, Product(s.a, s.b)) == Delayed(t, 0)
            && s.resultE2 == Delayed(t, 1) && s.resultE3 == Delayed(t, 2)
  {
    if ins != [] {
      var front, i := ins[..|ins| - 1], ins[|ins| - 1];
      StagesFollowHold(front);
      if !i.hold {
        TakenAdvances(Taken(front), i);
        if i.start { ProductMeans(i.op, i.a, i.b); }
      }
    }
  }

  lemma TakenAdvances(t: seq<In>, i: In)
    ensures Delayed(t + [i], 0) == Value(i)
    ensures Delayed(t + [i], 1) == Delayed(t, 0) && Delayed(t + [i], 2) == Delayed(t, 1)
  {
  }

  class MultiplierUnit {
    var a: Operand
    var b: Operand
    var high: bool
    var resultE2: Word
    var resultE3: Word

    function View(): State
      reads this
    {
      State(a, b, high, resultE2, resultE3)
    }

    constructor ()
      ensures View() == RESET
    {
      a, b, high, resultE2, resultE3 := 0, 0, false, 0, 0;
    }

    /** One clock edge. */
    method Step(i: In)
      modifies this
      ensures View() == Next(old(View()), i)
    {
      if i.hold {
        return;
      }
      resultE3 := resultE2;
      resultE2 := Select(high, Product(a, b));
      if i.start {
        a, b, high := OperandA(i.op, i.a), OperandB(i.op, i.b), !i.op.Mul?;
      } else {
        a, b, high := 0, 0, false;
      }
    }
  }
}
