/** The back end as clocked registers. Each block of `Step` is one always-block of the source
    and assigns the registers of that block; `Next` says what they must hold afterwards. */
module PipeCore {
  import opened PipeModel
  import opened PipeProofs

  // The registers of each source module.
  datatype IssueRegs = IssueRegs(divPending: bool, csrPending: bool)
  datatype PipeRegs = PipeRegs(e1: E1, e2: E2, squashQ: bool, wb: WB)
  datatype UnitRegs = UnitRegs(aluQ: Word, mulE1: MulReg, mulE2: Word, div: DivUnit)
  datatype CsrRegs = CsrRegs(value: Word, exc: Exc, reset: bool, branch: bool)
  datatype LsuRegs = LsuRegs(slot: Slot, pending: bool, unalignedE2: bool, respQ: seq<Access>)

  class BackEnd {
    const c: Config

    var regs: RegFile
    var issue: IssueRegs
    var pipe: PipeRegs
    var units: UnitRegs
    var csr: CsrRegs
    var lsu: LsuRegs

    function View(): State
      reads this
    {
      State(regs, issue.divPending, issue.csrPending, pipe.e1, pipe.e2, pipe.squashQ, pipe.wb,
            units.aluQ, units.mulE1, units.mulE2, units.div, csr.value, csr.exc, csr.reset, csr.branch,
            lsu.slot, lsu.pending, lsu.unalignedE2, lsu.respQ)
    }

    constructor (c: Config)
      ensures this.c == c && View() == RESET && Inv(c, View())
    {
      this.c := c;
      regs, issue := ZERO_REGS, IssueRegs(false, false);
      pipe := PipeRegs(E1_EMPTY, E2_EMPTY, false, WB_EMPTY);
      units, csr := UnitRegs(0, MulIdle, 0, DivIdle), CsrRegs(0, NO_EXC, true, false);
      lsu := LsuRegs(Empty, false, false, []);
    }

    /** One clock edge: every block samples the registers as they were before it, and all
        registers change together. */
    method Step(i: In)
      requires Legal(View(), i)
      modifies this
      ensures View() == Next(c, old(View()), i)
      ensures old(Control(View())) ==> Control(View())
      ensures old(Inv(c, View()) && !Leaks(View(), i)) ==> Inv(c, View())
    {
      var s := View();
      Clock(i);
      if Control(s) {
        ControlStep(c, s, i);
      }
      if Inv(c, s) && !Leaks(s, i) {
        InvStep(c, s, i);
      }
    }

    method Clock(i: In)
      modifies this
      ensures View() == Next(c, old(View()), i)
    {
      hide Next;
      var s := View();
      var regs', pipe' := Stages(c, s, i);
      var issue' := PendingFlags(c, s, i);
      var units' := UnitResults(c, s, i);
      var csr' := CsrResults(c, s, i);
      var lsu' := MemoryRequests(c, s, i);
      regs, pipe, issue, units, csr, lsu := regs', pipe', issue', units', csr', lsu';
    }
  }

  /** Register file and stage registers: nothing moves on a stall. */
  method Stages(c: Config, s: State, i: In) returns (regs: RegFile, pipe: PipeRegs)
    ensures var n := Next(c, s, i); regs == n.regs && pipe == PipeRegs(n.e1, n.e2, n.squashQ, n.wb)
  {
    regs, pipe := s.regs, PipeRegs(s.e1, s.e2, s.squashQ, s.wb);
    var rd := RdWB(s, i);
    if rd != 0 {
      regs := regs[rd := s.wb.result];
    }
    if !Stall(s, i) {
      pipe := PipeRegs(NextE1(c, s, i), NextE2(s, i), SquashNow(s, i), NextWB(c, s, i));
    }
  }

  /** The blocking flags of the issue stage. */
  method PendingFlags(c: Config, s: State, i: In) returns (flags: IssueRegs)
    ensures flags == IssueRegs(Next(c, s, i).divPending, Next(c, s, i).csrPending)
  {
    var divPending, csrPending := s.divPending, s.csrPending;
    var issue := Issue(c, s, i);
    if Squash(s, i) {
      divPending := false;
    } else if issue && i.instr.cls.Div? {
      divPending := true;
    } else if i.divDone {
      divPending := false;
    }
    if Squash(s, i) {
      csrPending := false;
    } else if issue && i.instr.cls.Csr? {
      csrPending := true;
    } else if s.wb.live && s.wb.instr.cls.Csr? && !Stall(s, i) {
      csrPending := false;
    }
    flags := IssueRegs(divPending, csrPending);
  }

  /** Result registers of the ALU and multiplier, held on a stall, and the divider, which is not. */
  method UnitResults(c: Config, s: State, i: In) returns (units: UnitRegs)
    ensures var n := Next(c, s, i); units == UnitRegs(n.aluQ, n.mulE1, n.mulE2, n.div)
  {
    hide NextE1, NextE2, NextWB, NextSlot, NextResp, Operand, Issue, Stall, Squash, SquashNow, RdWB, Requesting,
      Delay, Write;
    var issue, stall := Issue(c, s, i), Stall(s, i);
    var a, b := Operand(c, s, i, i.instr.ra), Operand(c, s, i, i.instr.rb);
    var div := s.div;
    if issue && i.instr.cls.Div? {
      div := DivBusy(c.u.div(i.instr, a, b));
    } else if i.divDone {
      div := DivIdle;
    }
    if stall {
      return UnitRegs(s.aluQ, s.mulE1, s.mulE2, div);
    }
    units := UnitRegs(
      c.u.alu(i.instr, a, b),
      if issue && i.instr.cls.Mul? then MulOp(i.instr, a, b) else MulIdle,
      if s.mulE1.MulOp? then c.u.mul(s.mulE1.instr, s.mulE1.a, s.mulE1.b) else 0,
      div);
  }

  /** CSR result registers, cleared unless an instruction issues, and the delayed redirect. */
  method CsrResults(c: Config, s: State, i: In) returns (csr: CsrRegs)
    ensures var n := Next(c, s, i); csr == CsrRegs(n.csrValueQ, n.csrExcQ, n.resetQ, n.branchCsrQ)
  {
    var value, exc: Exc := 0, NO_EXC;
    if Issue(c, s, i) {
      value := i.csrValue;
      if i.instr.cls.Csr? {
        exc := i.csrExc;
      }
    }
    csr := CsrRegs(value, exc, false, s.resetQ || s.wb.exc != NO_EXC);
  }

  /** Request registers, outstanding flag and response queue of the load/store unit. */
  method MemoryRequests(c: Config, s: State, i: In) returns (lsu: LsuRegs)
    ensures var n := Next(c, s, i); lsu == LsuRegs(n.slot, n.pending, n.unalignedE2, n.respQ)
  {
    var slot, pending, respQ := s.slot, s.pending, s.respQ;
    var delay, accepted := Delay(s, i), Requesting(s, i) && i.memAccept;
    if (i.memAck && i.memError) || s.unalignedE2 {
      slot := Empty;
    } else if !slot.Empty? && delay {
    } else if !(Requesting(s, i) && !i.memAccept) {
      slot := IssuedAccess(c, s, i);
    }
    if accepted {
      pending := true;
    } else if i.memAck {
      pending := false;
    }
    var unalignedE2 := s.slot.Unaligned? && !delay;
    if (i.memAck || s.unalignedE2) && s.respQ != [] {
      respQ := respQ[1..];
    }
    if (accepted || unalignedE2) && |s.respQ| != 2 {
      respQ := respQ + [s.slot.acc];
    }
    lsu := LsuRegs(slot, pending, unalignedE2, respQ);
  }
}
