/** The in-order back end of the core: issue, pipeline control, the E1 result registers of
    the execution units, the register file and the control part of the load/store unit.

    One `State` holds every register that decides what is issued, forwarded, squashed and
    committed; `Next` is one clock edge. The arithmetic of the units is a parameter, so what
    is proved here holds for every ALU, multiplier and divider. Interrupts are held off.
 */
module PipeModel {
  type Word = bv32
  type Reg = r: nat | r < 32

  type Exc = e: nat | e < 64

  const NO_EXC: Exc := 0x00
  const EXC_MISALIGNED_FETCH: Exc := 0x10
  const EXC_MISALIGNED_LOAD: Exc := 0x14
  const EXC_FAULT_LOAD: Exc := 0x15
  const EXC_MISALIGNED_STORE: Exc := 0x16
  const EXC_FAULT_STORE: Exc := 0x17
  const EXC_PAGE_FAULT_LOAD: Exc := 0x1d
  const EXC_PAGE_FAULT_STORE: Exc := 0x1f

  predicate IsMemFault(e: Exc) {
    e in {EXC_MISALIGNED_LOAD, EXC_FAULT_LOAD, EXC_MISALIGNED_STORE, EXC_FAULT_STORE,
          EXC_PAGE_FAULT_LOAD, EXC_PAGE_FAULT_STORE}
  }

  datatype Class = Alu | Branch | Load | Store | Mul | Div | Csr

  /** A decoded instruction. `fault` is the fetch fault that travels with it; the decoder turns
      such an instruction into an all-zero opcode of the CSR class. */
  datatype Instr = Instr(cls: Class, rdValid: bool, rd: Reg, ra: Reg, rb: Reg, opcode: Word, fault: Exc)
  {
    predicate WellFormed() {
      && (cls.Load? ==> rdValid)
      && (cls.Store? ==> !rdValid)
      && (fault != NO_EXC ==> cls.Csr?)
    }

    predicate IsMem() { cls.Load? || cls.Store? }
  }

  /** What the execution units compute, as functions of the instruction and its operands. */
  datatype Units = Units(
    alu: (Instr, Word, Word) -> Word,
    mul: (Instr, Word, Word) -> Word,
    div: (Instr, Word, Word) -> Word,
    badTarget: (Instr, Word, Word) -> bool,     // a taken branch whose target is not word aligned
    address: (Instr, Word) -> Word,
    unaligned: (Instr, Word) -> bool,           // load/store address not aligned to its width
    extract: (Instr, Word, Word) -> Word)       // lane selection and extension of a load

  datatype Config = Config(loadBypass: bool, mulBypass: bool, u: Units)

  // ---------------------------------------------------------------- registers

  datatype E1 = E1(live: bool, instr: Instr, opA: Word, opB: Word, exc: Exc)
  datatype E2 = E2(live: bool, valid: bool, instr: Instr, opA: Word, opB: Word, result: Word, exc: Exc)
  datatype WB = WB(live: bool, valid: bool, rdValid: bool, instr: Instr, opA: Word, opB: Word, result: Word, exc: Exc)

  datatype MulReg = MulIdle | MulOp(instr: Instr, a: Word, b: Word)
  datatype DivUnit = DivIdle | DivBusy(result: Word)
  datatype Access = Access(instr: Instr, addr: Word, data: Word)
  /** The E1 request registers of the load/store unit. */
  datatype Slot = Empty | Request(acc: Access) | Unaligned(acc: Access)

  function Zeros(n: nat): (z: seq<Word>)
    ensures |z| == n && forall k :: 0 <= k < n ==> z[k] == 0
  {
    if n == 0 then [] else Zeros(n - 1) + [0]
  }

  type RegFile = f: seq<Word> | |f| == 32 && f[0] == 0 witness Zeros(32)

  const NOP := Instr(Alu, false, 0, 0, 0, 0, NO_EXC)
  const E1_EMPTY := E1(false, NOP, 0, 0, NO_EXC)
  const E2_EMPTY := E2(false, false, NOP, 0, 0, 0, NO_EXC)
  const WB_EMPTY := WB(false, false, false, NOP, 0, 0, 0, NO_EXC)
  const ZERO_REGS: RegFile := Zeros(32)

  datatype State = State(
    regs: RegFile,
    // riscv_issue
    divPending: bool, csrPending: bool,
    // riscv_pipe_ctrl
    e1: E1, e2: E2, squashQ: bool, wb: WB,
    // E1 result registers of riscv_exec, riscv_multiplier, riscv_divider and riscv_csr
    aluQ: Word, mulE1: MulReg, mulE2: Word, div: DivUnit, csrValueQ: Word, csrExcQ: Exc,
    // delayed redirect in riscv_csr
    resetQ: bool, branchCsrQ: bool,
    // riscv_lsu
    slot: Slot, pending: bool, unalignedE2: bool, respQ: seq<Access>)

  /** What arrives from outside in one cycle. */
  datatype In = In(
    fetchValid: bool, instr: Instr,
    csrValue: Word, csrExc: Exc,
    memAccept: bool, memAck: bool, memError: bool, memLoadFault: bool, memStoreFault: bool, memData: Word,
    divDone: bool)

  const RESET := State(
    ZERO_REGS, false, false, E1_EMPTY, E2_EMPTY, false, WB_EMPTY,
    0, MulIdle, 0, DivIdle, 0, NO_EXC, true, false, Empty, false, false, [])

  // ---------------------------------------------------------------- wires

  predicate IsMemE1(s: State) { s.e1.live && s.e1.instr.IsMem() }
  predicate IsMemE2(s: State) { s.e2.live && s.e2.instr.IsMem() }

  predicate MemComplete(s: State, i: In) { i.memAck || s.unalignedE2 }

  predicate Stall(s: State, i: In) {
    || (s.e1.live && s.e1.instr.cls.Div? && !i.divDone)
    || (IsMemE2(s) && !MemComplete(s, i))
  }

  /** The request the response at hand belongs to. */
  function RespHead(s: State): Access {
    if s.respQ == [] then Access(NOP, 0, 0) else s.respQ[0]
  }

  function MemExc(s: State, i: In): Exc {
    var isLoad := RespHead(s).instr.cls.Load?;
    if s.unalignedE2 then if isLoad then EXC_MISALIGNED_LOAD else EXC_MISALIGNED_STORE
    else if i.memError && i.memLoadFault then EXC_PAGE_FAULT_LOAD
    else if i.memError && i.memStoreFault then EXC_PAGE_FAULT_STORE
    else if i.memError then if isLoad then EXC_FAULT_LOAD else EXC_FAULT_STORE
    else NO_EXC
  }

  function MemValue(c: Config, s: State, i: In): Word {
    var head := RespHead(s);
    if (i.memAck && i.memError) || s.unalignedE2 then head.addr
    else if i.memAck && head.instr.cls.Load? then c.u.extract(head.instr, head.addr, i.memData)
    else 0
  }

  function ExcE2(s: State, i: In): Exc {
    if s.e2.valid && IsMemE2(s) && MemComplete(s, i) then MemExc(s, i) else s.e2.exc
  }

  predicate SquashNow(s: State, i: In) { ExcE2(s, i) != NO_EXC }
  predicate Squash(s: State, i: In) { SquashNow(s, i) || s.squashQ }

  predicate Delay(s: State, i: In) { s.pending && !(i.memAck && !i.memError) }
  predicate Requesting(s: State, i: In) { s.slot.Request? && !Delay(s, i) }
  predicate LsuStall(s: State, i: In) {
    (Requesting(s, i) && !i.memAccept) || Delay(s, i) || s.slot.Unaligned?
  }

  function RdE1(s: State): Reg {
    if s.e1.live && s.e1.instr.rdValid then s.e1.instr.rd else 0
  }

  function RdE2(s: State, i: In): Reg {
    if s.e2.live && s.e2.valid && s.e2.instr.rdValid && !Stall(s, i) then s.e2.instr.rd else 0
  }

  function RdWB(s: State, i: In): Reg {
    if s.wb.live && s.wb.valid && s.wb.rdValid && !Stall(s, i) then s.wb.instr.rd else 0
  }

  predicate Blocked(c: Config, s: State, i: In, r: Reg) {
    || (!c.loadBypass && s.e2.live && s.e2.instr.cls.Load? && r == RdE2(s, i))
    || (!c.mulBypass && s.e2.live && s.e2.instr.cls.Mul? && r == RdE2(s, i))
    || (s.e1.live && (s.e1.instr.cls.Load? || s.e1.instr.cls.Mul?) && r == RdE1(s))
    || (IsMemE1(s) && (i.instr.cls.Mul? || i.instr.cls.Div? || i.instr.cls.Csr?))
  }

  predicate OpcodeValid(s: State, i: In) { i.fetchValid && !Squash(s, i) && !s.branchCsrQ }

  predicate Issue(c: Config, s: State, i: In) {
    && !LsuStall(s, i) && !Stall(s, i) && !s.divPending && !s.csrPending
    && OpcodeValid(s, i)
    && !Blocked(c, s, i, i.instr.ra) && !Blocked(c, s, i, i.instr.rb) && !Blocked(c, s, i, i.instr.rd)
  }

  function ResultE2(c: Config, s: State, i: In): Word {
    if c.loadBypass && s.e2.valid && !Stall(s, i) && IsMemE2(s) then MemValue(c, s, i)
    else if c.mulBypass && s.e2.valid && !Stall(s, i) && s.e2.live && s.e2.instr.cls.Mul? then s.mulE2
    else s.e2.result
  }

  /** Operand bypass: the newest of E1, E2 and WB wins over the register file; x0 reads zero. */
  function Operand(c: Config, s: State, i: In, r: Reg): Word {
    if r == 0 then 0
    else if RdE1(s) == r then s.aluQ
    else if RdE2(s, i) == r then ResultE2(c, s, i)
    else if RdWB(s, i) == r then s.wb.result
    else s.regs[r]
  }

  // ---------------------------------------------------------------- clock edge

  function NextE1(c: Config, s: State, i: In): E1 {
    if Stall(s, i) then s.e1
    else if Issue(c, s, i) && !Squash(s, i) then
      var a := Operand(c, s, i, i.instr.ra);
      var b := Operand(c, s, i, i.instr.rb);
      E1(true, i.instr, a, b,
         if i.instr.fault != NO_EXC then i.instr.fault
         else if i.instr.cls.Branch? && c.u.badTarget(i.instr, a, b) then EXC_MISALIGNED_FETCH
         else NO_EXC)
    else E1_EMPTY
  }

  function NextE2(s: State, i: In): E2 {
    if Stall(s, i) then s.e2
    else if Squash(s, i) then E2_EMPTY
    else
      var divResult := if s.div.DivBusy? then s.div.result else 0;
      E2(s.e1.live, s.e1.live && s.e1.exc == NO_EXC, s.e1.instr, s.e1.opA, s.e1.opB,
         if s.e1.live && s.e1.instr.cls.Div? then divResult
         else if s.e1.live && s.e1.instr.cls.Csr? then s.csrValueQ
         else s.aluQ,
         if s.e1.exc != NO_EXC then s.e1.exc else s.csrExcQ)
  }

  function NextWB(c: Config, s: State, i: In): WB {
    if Stall(s, i) then s.wb
    else
      var e := ExcE2(s, i);
      WB(s.e2.live, !IsMemFault(e) && s.e2.valid, s.e2.live && s.e2.instr.rdValid && e == NO_EXC,
         s.e2.instr, s.e2.opA, s.e2.opB,
         if s.e2.valid && IsMemE2(s) then MemValue(c, s, i)
         else if s.e2.valid && s.e2.live && s.e2.instr.cls.Mul? then s.mulE2
         else s.e2.result,
         e)
  }

  function Write(f: RegFile, r: Reg, v: Word): RegFile {
    if r == 0 then f else f[r := v]
  }

  function IssuedAccess(c: Config, s: State, i: In): Slot {
    if Issue(c, s, i) && i.instr.IsMem() then
      var a := Operand(c, s, i, i.instr.ra);
      var acc := Access(i.instr, c.u.address(i.instr, a), Operand(c, s, i, i.instr.rb));
      if c.u.unaligned(i.instr, a) then Unaligned(acc) else Request(acc)
    else Empty
  }

  function NextSlot(c: Config, s: State, i: In): Slot {
    if (i.memAck && i.memError) || s.unalignedE2 then Empty
    else if !s.slot.Empty? && Delay(s, i) then s.slot
    else if !(Requesting(s, i) && !i.memAccept) then IssuedAccess(c, s, i)
    else s.slot
  }

  function NextResp(s: State, i: In): seq<Access> {
    var push := (Requesting(s, i) && i.memAccept) || (s.slot.Unaligned? && !Delay(s, i));
    var pop := i.memAck || s.unalignedE2;
    var popped := if pop && s.respQ != [] then s.respQ[1..] else s.respQ;
    if push && !s.slot.Empty? && |s.respQ| != 2 then popped + [s.slot.acc] else popped
  }

  function Next(c: Config, s: State, i: In): State {
    var issue := Issue(c, s, i);
    var stall := Stall(s, i);
    var a := Operand(c, s, i, i.instr.ra);
    var b := Operand(c, s, i, i.instr.rb);
    State(
      Write(s.regs, RdWB(s, i), s.wb.result),
      if Squash(s, i) then false else if issue && i.instr.cls.Div? then true else if i.divDone then false else s.divPending,
      if Squash(s, i) then false else if issue && i.instr.cls.Csr? then true
      else if s.wb.live && s.wb.instr.cls.Csr? && !stall then false else s.csrPending,
      NextE1(c, s, i), NextE2(s, i), if stall then s.squashQ else SquashNow(s, i), NextWB(c, s, i),
      if stall then s.aluQ else c.u.alu(i.instr, a, b),
      if stall then s.mulE1 else if issue && i.instr.cls.Mul? then MulOp(i.instr, a, b) else MulIdle,
      if stall then s.mulE2 else if s.mulE1.MulOp? then c.u.mul(s.mulE1.instr, s.mulE1.a, s.mulE1.b) else 0,
      if issue && i.instr.cls.Div? then DivBusy(c.u.div(i.instr, a, b)) else if i.divDone then DivIdle else s.div,
      if issue then i.csrValue else 0,
      if issue && i.instr.cls.Csr? then i.csrExc else NO_EXC,
      false,
      s.resetQ || s.wb.exc != NO_EXC,
      NextSlot(c, s, i),
      if Requesting(s, i) && i.memAccept then true else if i.memAck then false else s.pending,
      s.slot.Unaligned? && !Delay(s, i),
      NextResp(s, i))
  }

  /** What the surroundings guarantee: decoded instructions, no fetch before the reset redirect,
      a memory that answers only an accepted request, and a divider that completes only while
      it is busy. */
  predicate Legal(s: State, i: In) {
    && i.instr.WellFormed()
    && (s.resetQ ==> !i.fetchValid)
    && (i.memAck ==> s.pending)
    && (i.divDone ==> s.div.DivBusy?)
  }

  // ---------------------------------------------------------------- history

  /** What became of an issued instruction. `ext` is the value it took from outside the core:
      the memory word of a load, the old register value of a CSR access. */
  datatype Outcome = Commit(instr: Instr, ext: Word) | Trap(instr: Instr, exc: Exc) | Squashed(instr: Instr)

  /** `accesses` are the requests memory accepted; `doomed` is the instruction a trap removed
      from E1 before the trap itself is recorded; `ext*` travel with E1, E2 and WB. */
  datatype Hist = Hist(issued: seq<Instr>, outcomes: seq<Outcome>, doomed: seq<Instr>,
                       ext1: Word, ext2: Word, extW: Word, accesses: seq<Access>)

  const NO_HIST := Hist([], [], [], 0, 0, 0, [])

  function SquashAll(q: seq<Instr>): seq<Outcome> {
    seq(|q|, k requires 0 <= k < |q| => Squashed(q[k]))
  }

  function OutcomeOfWB(w: WB, ext: Word): Outcome {
    if w.exc == NO_EXC then Commit(w.instr, ext) else Trap(w.instr, w.exc)
  }

  /** What one cycle adds to the outcomes: WB, then the instruction its trap has removed. */
  function Retire(w: WB, ext: Word, doomed: seq<Instr>): seq<Outcome> {
    (if w.live then [OutcomeOfWB(w, ext)] else []) + SquashAll(doomed)
  }

  function NextHist(c: Config, s: State, h: Hist, i: In): Hist {
    var accesses := h.accesses + (if Requesting(s, i) && i.memAccept then [s.slot.acc] else []);
    if Stall(s, i) then h.(accesses := accesses)
    else Hist(
      h.issued + One(Issue(c, s, i), i.instr),
      h.outcomes + Retire(s.wb, h.extW, h.doomed),
      One(Squash(s, i) && s.e1.live, s.e1.instr),
      i.csrValue,
      h.ext1,
      if s.e2.live && s.e2.instr.cls.Load? then i.memData else h.ext2,
      accesses)
  }

  /** The machine with its history, after a sequence of cycles from reset. */
  datatype Run = Run(s: State, h: Hist)

  function StepRun(c: Config, r: Run, i: In): Run {
    Run(Next(c, r.s, i), NextHist(c, r.s, r.h, i))
  }

  function After(c: Config, ins: seq<In>): Run {
    if ins == [] then Run(RESET, NO_HIST)
    else StepRun(c, After(c, ins[..|ins| - 1]), ins[|ins| - 1])
  }

  predicate LegalRun(c: Config, ins: seq<In>) {
    ins == [] || (LegalRun(c, ins[..|ins| - 1]) && Legal(After(c, ins[..|ins| - 1]).s, ins[|ins| - 1]))
  }

  // ---------------------------------------------------------------- sequential reference

  /** The value an instruction writes, given its operands and the outside value. */
  function Result(u: Units, n: Instr, a: Word, b: Word, ext: Word): Word {
    match n.cls
    case Alu => u.alu(n, a, b)
    case Branch => u.alu(n, a, b)
    case Mul => u.mul(n, a, b)
    case Div => u.div(n, a, b)
    case Load => u.extract(n, u.address(n, a), ext)
    case Csr => ext
    case Store => 0
  }

  /** One instruction at a time on the register file alone. */
  function Exec(u: Units, f: RegFile, n: Instr, ext: Word): RegFile {
    if n.rdValid then Write(f, n.rd, Result(u, n, f[n.ra], f[n.rb], ext)) else f
  }

  function ExecOutcome(u: Units, f: RegFile, o: Outcome): RegFile {
    if o.Commit? then Exec(u, f, o.instr, o.ext) else f
  }

  function ExecAll(u: Units, f: RegFile, os: seq<Outcome>): RegFile {
    if os == [] then f else ExecOutcome(u, ExecAll(u, f, os[..|os| - 1]), os[|os| - 1])
  }

  function AccessOf(u: Units, n: Instr, a: Word, b: Word): Access { Access(n, u.address(n, a), b) }

  /** The memory access an outcome makes: none for a misaligned address, which traps before memory. */
  function AccessBy(u: Units, f: RegFile, o: Outcome): seq<Access> {
    var n := o.instr;
    if n.IsMem() && (o.Commit? || (o.Trap? && o.exc != EXC_MISALIGNED_LOAD && o.exc != EXC_MISALIGNED_STORE)) then
      [AccessOf(u, n, f[n.ra], f[n.rb])]
    else []
  }

  /** The accesses of the sequential machine, in program order. */
  function AccessAll(u: Units, f: RegFile, os: seq<Outcome>): seq<Access> {
    if os == [] then []
    else
      var front := os[..|os| - 1];
      AccessAll(u, f, front) + AccessBy(u, ExecAll(u, f, front), os[|os| - 1])
  }

  function Instrs(os: seq<Outcome>): seq<Instr> {
    seq(|os|, k requires 0 <= k < |os| => os[k].instr)
  }

  function One(live: bool, n: Instr): seq<Instr> { if live then [n] else [] }

  /** Issued instructions that have no outcome yet, oldest first. */
  function InFlight(w: WB, doomed: seq<Instr>, e2: E2, e1: E1): seq<Instr> {
    One(w.live, w.instr) + doomed + One(e2.live, e2.instr) + One(e1.live, e1.instr)
  }
}
