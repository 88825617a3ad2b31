/** Trap entry and return: the CSR register file's next state, and the simulator's `exception`,
    `mret` and `sret` on its status word. */
module TrapsModel {
  import opened Options
  import opened Words

  /** Two-bit privilege levels, in words like the simulator's. */
  type Priv = bv32
  const USER: Priv := 0
  const SUPER: Priv := 1
  const MACHINE: Priv := 3

  // ---------------------------------------------------------------- the register file

  /** The status register by its fields; `rest` holds all other bits in place. */
  datatype Status = Status(sie: bool, mie: bool, spie: bool, mpie: bool, spp: bool, mpp: Priv, rest: bv32)

  datatype Bank = Bank(epc: Word, cause: Word, tval: Word, tvec: Word)

  /** The registers of traps, for machine mode and supervisor mode. `irqPriv` is where the last
      interrupt seen is to be taken. Delegation registers are sets of bit numbers. */
  datatype Csr = Csr(priv: Priv, sr: Status, m: Bank, s: Bank, medeleg: set<nat>, irqPriv: Priv)

  type Code = x: nat | x < 64

  const EXCEPTION_INTERRUPT: Code := 0x20
  const EXCEPTION_ERET_U: Code := 0x30
  const EXCEPTION_ERET_M: Code := 0x33
  const EXCEPTION_FENCE: Code := 0x34
  const CAUSE_INTERRUPT: Word := 0x8000_0000

  /** A CSR write of an ordinary instruction, to one of the registers of traps or to another. */
  datatype CsrWrite =
    NoWrite | Mepc(value: Word) | Mcause(value: Word) | Mtval(value: Word) | Mtvec(value: Word) | Mstatus(status: Status)
    | Medeleg(bits: set<nat>) | Sepc(value: Word) | Scause(value: Word) | Stval(value: Word) | Stvec(value: Word)
    | Sstatus(status: Status)

  /** `masked` and `maskedPriv` are the enabled interrupts of this clock and where they go. */
  datatype In = In(code: Code, pc: Word, addr: Word, masked: set<nat>, maskedPriv: Priv, write: CsrWrite)

  predicate IsException(code: Code) { code / 16 == 1 }
  predicate IsInterrupt(code: Code) { code / 16 == 2 }
  predicate IsReturn(code: Code) { EXCEPTION_ERET_U <= code <= EXCEPTION_ERET_M }

  predicate ToSuper(c: Csr, i: In) { c.priv <= SUPER && IsException(i.code) && i.code % 16 in c.medeleg }

  /** What the trap value register takes: the pc for a bad fetch, an address or opcode for others. */
  function TrapValue(i: In): Word {
    if i.code in {0x10, 0x11, 0x1c} then i.pc
    else if i.code in {0x12, 0x14, 0x15, 0x16, 0x17, 0x1d, 0x1f} then i.addr
    else 0
  }

  function EnterMachine(c: Csr, pc: Word, cause: Word, tval: Word): Csr {
    c.(sr := c.sr.(mpie := c.sr.mie, mpp := c.priv, mie := false), priv := MACHINE,
       m := c.m.(epc := pc, cause := cause, tval := tval))
  }

  function EnterSuper(c: Csr, pc: Word, cause: Word, tval: Word): Csr {
    c.(sr := c.sr.(spie := c.sr.sie, spp := c.priv == SUPER, sie := false), priv := SUPER,
       s := c.s.(epc := pc, cause := cause, tval := tval))
  }

  function FirstOf(a: nat, b: nat, d: nat, masked: set<nat>, otherwise: Word): Word
    requires a < 32 && b < 32 && d < 32
  {
    if a in masked then CAUSE_INTERRUPT + a else if b in masked then CAUSE_INTERRUPT + b
    else if d in masked then CAUSE_INTERRUPT + d else otherwise
  }

  function CauseMask(x: Word): Word { (if x >= CAUSE_INTERRUPT then CAUSE_INTERRUPT else 0) + x % 16 }

  /** A supervisor write merges: `rest` is merged outside this function. */
  function MergeSstatus(was: Status, w: Status): Status { was.(sie := w.sie, spie := w.spie, spp := w.spp, rest := w.rest) }

  function Written(c: Csr, w: CsrWrite): Csr {
    match w
    case NoWrite => c
    case Mepc(v) => c.(m := c.m.(epc := v))
    case Mcause(v) => c.(m := c.m.(cause := CauseMask(v)))
    case Mtval(v) => c.(m := c.m.(tval := v))
    case Mtvec(v) => c.(m := c.m.(tvec := v))
    case Mstatus(v) => c.(sr := v)
    case Medeleg(bits) => c.(medeleg := bits)
    case Sepc(v) => c.(s := c.s.(epc := v))
    case Scause(v) => c.(s := c.s.(cause := CauseMask(v)))
    case Stval(v) => c.(s := c.s.(tval := v))
    case Stvec(v) => c.(s := c.s.(tvec := v))
    case Sstatus(v) => c.(sr := MergeSstatus(c.sr, v))
  }

  function Return(c: Csr, code: Code): Csr {
    if code % 4 == 3 then
      c.(priv := c.sr.mpp, sr := c.sr.(mie := c.sr.mpie, mpie := true, mpp := USER))
    else
      c.(priv := if c.sr.spp then SUPER else USER, sr := c.sr.(sie := c.sr.spie, spie := true, spp := false))
  }

  /** The combinational block: interrupt, return, exception to either mode, or a CSR write. */
  function Effect(c: Csr, i: In): Csr {
    if IsInterrupt(i.code) then
      if c.irqPriv == MACHINE then EnterMachine(c, i.pc, FirstOf(3, 7, 11, i.masked, c.m.cause), 0)
      else EnterSuper(c, i.pc, FirstOf(1, 5, 9, i.masked, c.s.cause), 0)
    else if IsReturn(i.code) then Return(c, i.code)
    else if ToSuper(c, i) then EnterSuper(c, i.pc, i.code % 16, TrapValue(i))
    else if IsException(i.code) then EnterMachine(c, i.pc, i.code % 16, TrapValue(i))
    else Written(c, i.write)
  }

  function Low16(bits: set<nat>): set<nat> { set b | b in bits && b < 16 }

  /** A clock edge of a core with supervisor mode. */
  function Next(c: Csr, i: In): Csr {
    var e := Effect(c, i);
    e.(medeleg := Low16(e.medeleg), irqPriv := if i.masked != {} then i.maskedPriv else c.irqPriv)
  }

  /** Where the pipeline is sent, if anywhere. */
  function Target(c: Csr, i: In): Option<Word> {
    if i.code == EXCEPTION_INTERRUPT then Some(if c.irqPriv == MACHINE then c.m.tvec else c.s.tvec)
    else if IsReturn(i.code) then Some(if i.code % 4 == 3 then c.m.epc else c.s.epc)
    else if ToSuper(c, i) then Some(c.s.tvec)
    else if IsException(i.code) then Some(c.m.tvec)
    else if i.code == EXCEPTION_FENCE then Some((i.pc + 4) % W32)
    else None
  }

  // ---------------------------------------------------------------- the simulator

  const SR_SIE: bv32 := 0x2
  const SR_MIE: bv32 := 0x8
  const SR_SPIE: bv32 := 0x20
  const SR_MPIE: bv32 := 0x80
  const SR_SPP: bv32 := 0x100
  const SR_MPP: bv32 := 0x1800
  const SR_FIELDS: bv32 := 0x19aa

  /** The simulator has no machine trap value register. */
  datatype Sim = Sim(priv: Priv, msr: bv32, mepc: Word, mcause: Word, mevec: Word,
                     sepc: Word, scause: Word, stval: Word, sevec: Word, medeleg: set<nat>, mideleg: set<nat>, pc: Word)

  function Field(s: bv32, mask: bv32): bool { s & mask != 0 }
  function GetMpp(s: bv32): Priv { (s >> 11) & 3 }
  function Rest(s: bv32): bv32 { s & !SR_FIELDS }

  function StatusOf(s: bv32): Status {
    Status(Field(s, SR_SIE), Field(s, SR_MIE), Field(s, SR_SPIE), Field(s, SR_MPIE), Field(s, SR_SPP), GetMpp(s), Rest(s))
  }

  function SetIf(s: bv32, condition: bool, bit: bv32): bv32 { s | (if condition then bit else 0) }

  function Clear(s: bv32, bit: bv32): bv32 { s & !bit }

  /** One bit takes the value of another: cleared, then set if the other is. */
  function CopyBit(s: bv32, from: bv32, to: bv32): bv32 { SetIf(Clear(s, to), Field(Clear(s, to), from), to) }

  function SaveSuper(s: bv32, priv: Priv): bv32 {
    SetIf(Clear(Clear(CopyBit(s, SR_SIE, SR_SPIE), SR_SIE), SR_SPP), priv == SUPER, SR_SPP)
  }

  function OrMpp(s: bv32, priv: Priv): bv32 { s | (priv << 11) }

  function SaveMachine(s: bv32, priv: Priv): bv32 {
    OrMpp(Clear(Clear(CopyBit(s, SR_MIE, SR_MPIE), SR_MIE), SR_MPP), priv)
  }

  function SimException(s: Sim, cause: Word, pc: Word, badaddr: Word): Sim {
    var bit := if cause >= CAUSE_INTERRUPT then cause - CAUSE_INTERRUPT else cause;
    var deleg := if cause >= CAUSE_INTERRUPT then s.mideleg else s.medeleg;
    if s.priv <= SUPER && bit in deleg then
      s.(priv := SUPER, msr := SaveSuper(s.msr, s.priv), sepc := pc, scause := cause, stval := badaddr, pc := s.sevec)
    else
      s.(priv := MACHINE, msr := SaveMachine(s.msr, s.priv), mepc := pc, mcause := cause, pc := s.mevec)
  }

  function PopMachine(s: bv32): bv32 { Clear(SetIf(CopyBit(s, SR_MPIE, SR_MIE), true, SR_MPIE), SR_MPP) }

  function PopSuper(s: bv32): bv32 { Clear(SetIf(CopyBit(s, SR_SPIE, SR_SIE), true, SR_SPIE), SR_SPP) }

  function SimMret(s: Sim): Sim { s.(priv := GetMpp(s.msr), msr := PopMachine(s.msr), pc := s.mepc) }

  function SimSret(s: Sim): Sim {
    s.(priv := if Field(s.msr, SR_SPP) then SUPER else USER, msr := PopSuper(s.msr), pc := s.sepc)
  }

  // ---------------------------------------------------------------- which interrupt

  const IRQS: set<nat> := {1, 3, 5, 7, 9, 11}

  /** The enabled interrupts, the same expression in both. */
  function Masked(mip: set<nat>, mie: set<nat>, mideleg: set<nat>, priv: Priv, sr: Status): (set<nat>, Priv) {
    var mEnabled := priv < MACHINE || (priv == MACHINE && sr.mie);
    var sEnabled := priv < SUPER || (priv == SUPER && sr.sie);
    var m := if mEnabled then (mip * mie) - mideleg else {};
    var s := if sEnabled then (mip * mie) * mideleg else {};
    if m != {} then (m, MACHINE) else (s, SUPER)
  }

  /** The loop of the simulator: the lowest-numbered interrupt. */
  function Lowest(masked: set<nat>, from: nat): Option<nat>
    requires from <= 12
    decreases 12 - from
  {
    if from == 12 then None else if from in masked then Some(from) else Lowest(masked, from + 1)
  }
}
